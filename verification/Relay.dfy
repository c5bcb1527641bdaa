/**
 The byte relay: two goroutines that copy in opposite directions between two
 connections, each closing the connection it writes to when it ends.
 */
module Relay {
  import opened Text

  /** `Forth` copies from the source connection to the destination, `Back` the other way. */
  datatype Way = Forth | Back

  /** Where one goroutine is: reading, writing what it read, about to close, or finished. */
  datatype Pc = Reading | Writing(data: Bytes) | Closing | Finished

  /** One direction. `read` and `delivered` record the bytes taken and passed on; `failed` that a write has failed. */
  datatype Copier = Copier(pc: Pc, read: Bytes, delivered: Bytes, failed: bool)

  datatype State = State(forth: Copier, back: Copier, sourceClosed: bool, destinationClosed: bool)

  datatype Action =
    | Reads(way: Way, data: Bytes)
    | ReadEnds(way: Way)
    | Writes(way: Way)
    | WriteFails(way: Way, passed: nat)
    | Closes(way: Way)

  const STARTING := State(Copier(Reading, [], [], false), Copier(Reading, [], [], false), false, false)

  function Of(s: State, w: Way): Copier {
    if w == Forth then s.forth else s.back
  }

  function With(s: State, w: Way, c: Copier): State {
    if w == Forth then s.(forth := c) else s.(back := c)
  }

  function Other(w: Way): Way {
    if w == Forth then Back else Forth
  }

  /** The connection a direction reads from has been closed on this side. */
  predicate InputClosed(s: State, w: Way) {
    if w == Forth then s.sourceClosed else s.destinationClosed
  }

  /** The connection a direction writes to has been closed on this side. */
  predicate OutputClosed(s: State, w: Way) {
    InputClosed(s, Other(w))
  }

  /**
   One step, or `None`. Reading from a connection closed on this side gives no
   data, only the end; writing to one gives only failure.
   */
  function Next(s: State, a: Action): (r: Option<State>) {
    var c := Of(s, a.way);
    match a
    case Reads(w, data) =>
      if c.pc == Reading && !InputClosed(s, w) && data != []
      then Some(With(s, w, c.(pc := Writing(data), read := c.read + data))) else None
    case ReadEnds(w) =>
      if c.pc == Reading then Some(With(s, w, c.(pc := Closing))) else None
    case Writes(w) =>
      if c.pc.Writing? && !OutputClosed(s, w)
      then Some(With(s, w, c.(pc := Reading, delivered := c.delivered + c.pc.data))) else None
    case WriteFails(w, passed) =>
      if c.pc.Writing? && passed < |c.pc.data| && (OutputClosed(s, w) ==> passed == 0)
      then Some(With(s, w, c.(pc := Closing, delivered := c.delivered + c.pc.data[..passed], failed := true))) else None
    case Closes(w) =>
      if c.pc == Closing then
        var t := With(s, w, c.(pc := Finished));
        Some(if w == Forth then t.(destinationClosed := true) else t.(sourceClosed := true))
      else None
  }

  ghost predicate IsRun(states: seq<State>, actions: seq<Action>) {
    |states| == |actions| + 1
    && forall i :: 0 <= i < |actions| ==> Next(states[i], actions[i]) == Some(states[i + 1])
  }

  // ----- Safety ----------------------------------------------------------

  predicate CopierSafe(c: Copier) {
    match c.pc
    case Reading => c.delivered == c.read && !c.failed
    case Writing(data) => data != [] && c.delivered + data == c.read && !c.failed
    case _ => c.delivered <= c.read && (!c.failed ==> c.delivered == c.read)
  }

  predicate Safe(s: State) {
    && CopierSafe(s.forth) && CopierSafe(s.back)
    && (s.destinationClosed <==> s.forth.pc == Finished)
    && (s.sourceClosed <==> s.back.pc == Finished)
  }

  lemma SafeStep(s: State, a: Action)
    requires Safe(s) && Next(s, a).Some?
    ensures Safe(Next(s, a).value)
  {
    var c, d := Of(s, a.way), Of(Next(s, a).value, a.way);
    if a.WriteFails? {
      assert c.delivered + c.pc.data[..a.passed] + c.pc.data[a.passed..] == c.delivered + c.pc.data;
    }
  }

  /**
   In every interleaving, what is delivered each way is a prefix of what was read from the other end, and all of it
   unless a write has failed.
   */
  lemma {:induction false} DeliversPrefixes(states: seq<State>, actions: seq<Action>, i: nat)
    requires IsRun(states, actions) && states[0] == STARTING && i < |states|
    ensures Safe(states[i])
    ensures forall w :: Of(states[i], w).delivered <= Of(states[i], w).read
    ensures forall w :: Of(states[i], w).pc == Finished && !Of(states[i], w).failed ==> Of(states[i], w).delivered == Of(states[i], w).read
  {
    hide Next;
    if i > 0 {
      DeliversPrefixes(states, actions, i - 1);
      assert Next(states[i - 1], actions[i - 1]) == Some(states[i - 1 + 1]);
      SafeStep(states[i - 1], actions[i - 1]);
    }
  }

  /**
   Either direction carries data: while it is reading from an open connection it takes whatever its peer sends, then
   passes on exactly that or a prefix of it, and the other direction does not notice.
   */
  lemma CarriesEitherWay(s: State, w: Way, data: Bytes, passed: nat)
    requires Safe(s) && Of(s, w).pc == Reading && data != [] && passed < |data|
    requires if w == Forth then !s.sourceClosed else !s.destinationClosed
    ensures var taken, c := Next(s, Reads(w, data)), Of(s, w);
            && taken.Some? && Of(taken.value, w) == Copier(Writing(data), c.read + data, c.delivered, c.failed)
            && Of(taken.value, Other(w)) == Of(s, Other(w))
            && var written := Next(taken.value, Writes(w));
            && written.Some? && Of(written.value, w) == Copier(Reading, c.read + data, c.delivered + data, c.failed)
            && written.value == With(taken.value, w, Of(written.value, w))
            && var cut := Next(taken.value, WriteFails(w, passed));
            && cut.Some? && Of(cut.value, w) == Copier(Closing, c.read + data, c.delivered + data[..passed], true)
            && cut.value == With(taken.value, w, Of(cut.value, w))
  {
  }

  /** Which connection each direction reads from and which it closes. */
  lemma ClosesItsOutput(s: State)
    ensures s.forth.pc == Closing ==>
              Next(s, Closes(Forth)) == Some(s.(forth := s.forth.(pc := Finished), destinationClosed := true))
    ensures s.back.pc == Closing ==>
              Next(s, Closes(Back)) == Some(s.(back := s.back.(pc := Finished), sourceClosed := true))
    ensures forall data :: s.sourceClosed ==> Next(s, Reads(Forth, data)) == None
    ensures forall data :: s.destinationClosed ==> Next(s, Reads(Back, data)) == None
  {
  }

  // ----- Termination -----------------------------------------------------

  predicate BothFinished(s: State) {
    s.forth.pc == Finished && s.back.pc == Finished
  }

  predicate OneFinished(s: State) {
    s.forth.pc == Finished || s.back.pc == Finished
  }

  /** Steps left for a direction whose input is closed. */
  function StepsLeft(c: Copier): nat {
    match c.pc
    case Writing(_) => 3
    case Reading => 2
    case Closing => 1
    case Finished => 0
  }

  /** One direction has ended, by the end of its input or by an error, and is to close its output or has. */
  predicate OneEnded(s: State) {
    s.forth.pc == Closing || s.back.pc == Closing || OneFinished(s)
  }

  /**
   A step that comes without the peers' doing: closing, the failure of a read from a connection closed on this side,
   and the failure of a write to one.
   */
  predicate NeedsNoPeer(s: State, a: Action) {
    match a
    case Closes(_) => true
    case ReadEnds(w) => InputClosed(s, w)
    case WriteFails(w, passed) => OutputClosed(s, w) && passed == 0
    case Reads(_, _) => false
    case Writes(_) => false
  }

  /** Nothing but a peer can take the relay further. */
  ghost predicate Stalled(s: State) {
    forall a :: NeedsNoPeer(s, a) ==> Next(s, a) == None
  }

  /**
   Once either direction has ended, it can close its output. From then on at most three steps are left, each of them
   brings the end nearer, and at the end both connections are closed, which is when Wait returns.
   */
  lemma OneEndEndsBoth(s: State, a: Action)
    requires Safe(s) && OneEnded(s)
    ensures !OneFinished(s) ==> exists w :: NeedsNoPeer(s, Closes(w)) && Next(s, Closes(w)).Some?
                                          && OneFinished(Next(s, Closes(w)).value)
    ensures Next(s, a).Some? ==> OneEnded(Next(s, a).value)
    ensures OneFinished(s) ==> StepsLeft(s.forth) + StepsLeft(s.back) <= 3
    ensures OneFinished(s) && Next(s, a).Some? ==>
              var t := Next(s, a).value;
              OneFinished(t) && StepsLeft(t.forth) + StepsLeft(t.back) < StepsLeft(s.forth) + StepsLeft(s.back)
    ensures !BothFinished(s) ==> exists b :: Next(s, b).Some?
    ensures BothFinished(s) ==> s.sourceClosed && s.destinationClosed
  {
    if !OneFinished(s) {
      var w := if s.forth.pc == Closing then Forth else Back;
      assert Next(s, Closes(w)).Some?;
    } else if !BothFinished(s) {
      var w := if s.forth.pc == Finished then Back else Forth;
      match Of(s, w).pc {
        case Reading => assert Next(s, ReadEnds(w)).Some?;
        case Writing(_) => assert Next(s, WriteFails(w, 0)).Some?;
        case Closing => assert Next(s, Closes(w)).Some?;
      }
    }
  }

  /**
   Whether the relay then ends by itself: closing fails the other direction's pending read, but not its pending write,
   for that is to the connection that is still open. So the relay stalls exactly while one direction has finished and
   the other is inside a write that its peer neither takes nor refuses.
   */
  lemma StallsExactly(s: State)
    requires Safe(s) && OneEnded(s) && !BothFinished(s)
    ensures Stalled(s) <==> OneFinished(s) && (s.forth.pc.Writing? || s.back.pc.Writing?)
    ensures Stalled(s) ==> exists w :: Of(s, w).pc.Writing? && Next(s, Writes(w)).Some? && Next(s, WriteFails(w, 0)).Some?
  {
    if !OneFinished(s) {
      var w := if s.forth.pc == Closing then Forth else Back;
      assert NeedsNoPeer(s, Closes(w)) && Next(s, Closes(w)).Some?;
    } else {
      var w := if s.forth.pc == Finished then Back else Forth;
      match Of(s, w).pc {
        case Reading => assert NeedsNoPeer(s, ReadEnds(w)) && Next(s, ReadEnds(w)).Some?;
        case Closing => assert NeedsNoPeer(s, Closes(w)) && Next(s, Closes(w)).Some?;
        case Writing(_) => assert Next(s, Writes(w)).Some? && Next(s, WriteFails(w, 0)).Some?;
      }
    }
  }

  predicate WritePending(s: State) {
    s.forth.pc.Writing? || s.back.pc.Writing?
  }

  /** A step without a peer neither begins nor ends a write, and brings the end nearer. */
  lemma PeerFreeStep(s: State, a: Action)
    requires Safe(s) && OneEnded(s) && NeedsNoPeer(s, a) && Next(s, a).Some?
    ensures var t := Next(s, a).value;
            && Safe(t) && OneEnded(t) && (WritePending(t) <==> WritePending(s))
            && StepsLeft(t.forth) + StepsLeft(t.back) < StepsLeft(s.forth) + StepsLeft(s.back)
  {
    SafeStep(s, a);
  }

  lemma {:induction false} PeerFreeRun(states: seq<State>, actions: seq<Action>, i: nat)
    requires IsRun(states, actions) && i < |states| && Safe(states[0]) && OneEnded(states[0])
    requires forall j :: 0 <= j < |actions| ==> NeedsNoPeer(states[j], actions[j])
    ensures Safe(states[i]) && OneEnded(states[i]) && (WritePending(states[i]) <==> WritePending(states[0]))
    ensures i + StepsLeft(states[i].forth) + StepsLeft(states[i].back) <= StepsLeft(states[0].forth) + StepsLeft(states[0].back)
  {
    hide Next, Safe, OneEnded, NeedsNoPeer, WritePending;
    if i > 0 {
      PeerFreeRun(states, actions, i - 1);
      assert Next(states[i - 1], actions[i - 1]) == Some(states[i - 1 + 1]);
      PeerFreeStep(states[i - 1], actions[i - 1]);
    }
  }

  /**
   From which states the relay ends without its peers, once one direction has ended: exactly from those in which no
   write is pending. A run without peers takes at most four steps; one that can go no further has ended both directions
   and closed both connections if and only if no write was pending at its start.
   */
  lemma EndsUnaidedExactly(states: seq<State>, actions: seq<Action>)
    requires IsRun(states, actions) && Safe(states[0]) && OneEnded(states[0])
    requires forall j :: 0 <= j < |actions| ==> NeedsNoPeer(states[j], actions[j])
    ensures var last := states[|actions|];
            && |actions| <= StepsLeft(states[0].forth) + StepsLeft(states[0].back) <= 4
            && (BothFinished(last) ==> Stalled(last) && last.sourceClosed && last.destinationClosed)
            && (Stalled(last) ==> (BothFinished(last) <==> !WritePending(states[0])))
  {
    hide Next, NeedsNoPeer;
    PeerFreeRun(states, actions, |actions|);
    var last := states[|actions|];
    if BothFinished(last) {
      FinishedIsStalled(last);
    } else {
      StallsExactly(last);
    }
  }

  lemma FinishedIsStalled(s: State)
    requires BothFinished(s)
    ensures Stalled(s)
  {
  }

  /** Every peer-free run can be continued until it goes no further. */
  lemma RunsToStall(s: State) returns (states: seq<State>, actions: seq<Action>)
    requires Safe(s) && OneEnded(s)
    ensures IsRun(states, actions) && states[0] == s && Stalled(states[|actions|])
    ensures forall j :: 0 <= j < |actions| ==> NeedsNoPeer(states[j], actions[j])
    decreases StepsLeft(s.forth) + StepsLeft(s.back)
  {
    hide Safe, OneEnded, NeedsNoPeer, Next, StepsLeft;
    if Stalled(s) {
      states, actions := [s], [];
    } else {
      var a :| NeedsNoPeer(s, a) && Next(s, a) != None;
      PeerFreeStep(s, a);
      var later, more := RunsToStall(Next(s, a).value);
      states, actions := [s] + later, [a] + more;
      forall i | 0 <= i < |actions|
        ensures Next(states[i], actions[i]) == Some(states[i + 1]) && NeedsNoPeer(states[i], actions[i])
      {
        if i > 0 {
          assert Next(later[i - 1], more[i - 1]) == Some(later[i - 1 + 1]);
        }
      }
    }
  }

  /** Such a state is reached: one peer sends and does not read, the other side's input ends. */
  lemma StallIsReached(data: Bytes) returns (states: seq<State>, actions: seq<Action>)
    requires data != []
    ensures IsRun(states, actions) && states[0] == STARTING && Stalled(states[|states| - 1])
  {
    var s1 := STARTING.(forth := Copier(Writing(data), data, [], false));
    var s2 := s1.(back := Copier(Closing, [], [], false));
    var s3 := s2.(back := Copier(Finished, [], [], false), sourceClosed := true);
    states, actions := [STARTING, s1, s2, s3], [Reads(Forth, data), ReadEnds(Back), Closes(Back)];
    assert [] + data == data;
    StallsExactly(s3);
  }

  /** So a run has at most three more steps after the first state in which a direction has finished. */
  lemma {:induction false} RelayEnds(states: seq<State>, actions: seq<Action>, i: nat, j: nat)
    requires IsRun(states, actions) && states[0] == STARTING && i <= j < |states| && OneFinished(states[i])
    ensures OneFinished(states[j]) && j - i + StepsLeft(states[j].forth) + StepsLeft(states[j].back) <= 3
    ensures j == i + 3 ==> BothFinished(states[j]) && states[j].sourceClosed && states[j].destinationClosed
    decreases j
  {
    hide Next;
    DeliversPrefixes(states, actions, j);
    if i == j {
      OneEndEndsBoth(states[j], Closes(Forth));
    } else {
      RelayEnds(states, actions, i, j - 1);
      DeliversPrefixes(states, actions, j - 1);
      assert Next(states[j - 1], actions[j - 1]) == Some(states[j - 1 + 1]);
      OneEndEndsBoth(states[j - 1], actions[j - 1]);
    }
  }
}
