/**
 The asynchronous log writer: a bounded channel filled by any number of
 writers, and a worker that moves payloads into a buffered writer.
 */
module AsyncLog {
  import opened Text

  /** The payloads of a list, end to end. */
  function Flat(payloads: seq<Bytes>): Bytes {
    if payloads == [] then [] else Flat(payloads[..|payloads| - 1]) + payloads[|payloads| - 1]
  }

  lemma {:induction false} FlatConcat(a: seq<Bytes>, b: seq<Bytes>)
    ensures Flat(a + b) == Flat(a) + Flat(b)
    decreases |b|
  {
    if b == [] {
      assert a + b == a;
    } else {
      assert (a + b)[..|a + b| - 1] == a + b[..|b| - 1];
      FlatConcat(a, b[..|b| - 1]);
    }
  }

  lemma FlatOne(p: Bytes)
    ensures Flat([p]) == p
  {
    assert [p][..0] == [];
  }

  // ----- The interleaved system ------------------------------------------

  /** Where the worker is: in its select, between receiving and writing, or gone. */
  datatype Worker = Selecting | Received(data: Bytes) | Exited

  /**
   `writing` holds, for each writer inside Write, the copy it made of its slice.
   `accepted` records the payloads that Write reported as written, in send order.
   */
  datatype State = State(
    capacity: nat,
    queue: seq<Bytes>,
    closed: bool,
    worker: Worker,
    buffered: Bytes,
    output: Bytes,
    writing: map<nat, Bytes>,
    accepted: seq<Bytes>)

  datatype Action =
    | Copies(id: nat, slice: Bytes)
    | Enqueues(id: nat)
    | HandsOver(id: nat)
    | Overflows(id: nat)
    | Receives
    | Writes(flushed: nat)
    | Ticks
    | Closes
    | Ends

  function Starting(capacity: nat): State {
    State(capacity, [], false, Selecting, [], [], map[], [])
  }

  /** One step, or `None` where it is not possible. Sending on a closed channel is not possible: Go panics there. */
  function Next(s: State, a: Action): Option<State> {
    match a
    case Copies(id, slice) =>
      if id in s.writing then None else Some(s.(writing := s.writing[id := slice]))
    case Enqueues(id) =>
      if id in s.writing && !s.closed && |s.queue| < s.capacity
      then Some(s.(queue := s.queue + [s.writing[id]], accepted := s.accepted + [s.writing[id]], writing := s.writing - {id}))
      else None
    case HandsOver(id) =>
      // a send meets the worker in its select
      if id in s.writing && !s.closed && s.worker == Selecting && s.queue == []
      then Some(s.(worker := Received(s.writing[id]), accepted := s.accepted + [s.writing[id]], writing := s.writing - {id}))
      else None
    case Overflows(id) =>
      if id in s.writing && !s.closed && |s.queue| >= s.capacity then Some(s.(writing := s.writing - {id})) else None
    case Receives =>
      if s.worker == Selecting && s.queue != [] then Some(s.(worker := Received(s.queue[0]), queue := s.queue[1..])) else None
    case Writes(flushed) =>
      // the buffered writer appends, and may pass on a prefix of what it then holds
      if s.worker.Received? && flushed <= |s.buffered + s.worker.data|
      then
        var held := s.buffered + s.worker.data;
        Some(s.(worker := Selecting, output := s.output + held[..flushed], buffered := held[flushed..]))
      else None
    case Ticks =>
      if s.worker == Selecting then Some(s.(output := s.output + s.buffered, buffered := [])) else None
    case Closes =>
      if s.closed then None else Some(s.(closed := true))
    case Ends =>
      // the channel is closed and drained: flush and return
      if s.worker == Selecting && s.closed && s.queue == []
      then Some(s.(worker := Exited, output := s.output + s.buffered, buffered := []))
      else None
  }

  function InHand(w: Worker): Bytes {
    if w.Received? then w.data else []
  }

  /** Nothing accepted is lost, repeated or reordered, and the queue is bounded. */
  predicate Conserved(s: State) {
    && Flat(s.accepted) == s.output + s.buffered + InHand(s.worker) + Flat(s.queue)
    && |s.queue| <= s.capacity
    && (s.worker == Exited ==> s.closed && s.queue == [] && s.buffered == [])
  }

  lemma FlatSnoc(payloads: seq<Bytes>, p: Bytes)
    ensures Flat(payloads + [p]) == Flat(payloads) + p
  {
    assert (payloads + [p])[..|payloads|] == payloads;
  }

  lemma FlatHead(payloads: seq<Bytes>)
    requires payloads != []
    ensures Flat(payloads) == payloads[0] + Flat(payloads[1..])
  {
    assert payloads == [payloads[0]] + payloads[1..];
    FlatConcat([payloads[0]], payloads[1..]);
    FlatOne(payloads[0]);
  }

  /** Moving the boundary between output and buffer moves no byte. */
  lemma Regroup(output: Bytes, buffered: Bytes, data: Bytes, rest: Bytes, k: nat)
    requires k <= |buffered + data|
    ensures output + (buffered + data)[..k] + (buffered + data)[k..] + [] + rest == output + buffered + data + rest
  {
    assert (buffered + data)[..k] + (buffered + data)[k..] == buffered + data;
    assert output + (buffered + data)[..k] + (buffered + data)[k..] == output + (buffered + data);
  }

  lemma ConservedStep(s: State, a: Action)
    requires Conserved(s) && Next(s, a).Some?
    ensures Conserved(Next(s, a).value)
  {
    hide Flat;
    var t := Next(s, a).value;
    match a {
      case Copies(_, _) =>
      case Enqueues(id) =>
        FlatSnoc(s.accepted, s.writing[id]);
        FlatSnoc(s.queue, s.writing[id]);
        assert s.output + s.buffered + InHand(s.worker) + (Flat(s.queue) + s.writing[id])
               == s.output + s.buffered + InHand(s.worker) + Flat(s.queue) + s.writing[id];
      case HandsOver(id) =>
        FlatSnoc(s.accepted, s.writing[id]);
        FlatNone();
      case Overflows(_) =>
      case Receives =>
        FlatHead(s.queue);
        assert s.output + s.buffered + [] + (s.queue[0] + Flat(t.queue)) == s.output + s.buffered + s.queue[0] + Flat(t.queue);
      case Writes(flushed) =>
        Regroup(s.output, s.buffered, s.worker.data, Flat(s.queue), flushed);
      case Ticks =>
        assert s.output + s.buffered + [] + [] == s.output + s.buffered + [];
      case Closes =>
      case Ends =>
        assert s.output + s.buffered + [] + [] == s.output + s.buffered + [];
    }
  }

  lemma EnqueueKeeps(s: State, payload: Bytes)
    requires Conserved(s) && !s.closed && |s.queue| < s.capacity
    ensures Conserved(s.(queue := s.queue + [payload], accepted := s.accepted + [payload]))
  {
    hide Conserved;
    WritersDoNotMatter(s, map[0 := payload]);
    var sending := s.(writing := map[0 := payload]);
    ConservedStep(sending, Enqueues(0));
    WritersDoNotMatter(Next(sending, Enqueues(0)).value, s.writing);
  }

  lemma WritersDoNotMatter(s: State, writing: map<nat, Bytes>)
    requires Conserved(s)
    ensures Conserved(s.(writing := writing))
  {
  }

  lemma FlatNone()
    ensures Flat([]) == []
  {
  }

  ghost predicate IsRun(states: seq<State>, actions: seq<Action>) {
    |states| == |actions| + 1
    && forall i :: 0 <= i < |actions| ==> Next(states[i], actions[i]) == Some(states[i + 1])
  }

  /** At every step of every interleaving, the accepted bytes are those output, then buffered, then in hand, then queued. */
  lemma {:induction false} ConservedAlways(capacity: nat, states: seq<State>, actions: seq<Action>, i: nat)
    requires IsRun(states, actions) && states[0] == Starting(capacity) && i < |states|
    ensures Conserved(states[i]) && states[i].capacity == capacity
  {
    hide Conserved, Next;
    if i == 0 {
      StartsConserved(capacity);
    } else {
      ConservedAlways(capacity, states, actions, i - 1);
      assert Next(states[i - 1], actions[i - 1]) == Some(states[i - 1 + 1]);
      ConservedStep(states[i - 1], actions[i - 1]);
      CapacityKept(states[i - 1], actions[i - 1]);
    }
  }

  lemma StartsConserved(capacity: nat)
    ensures Conserved(Starting(capacity))
  {
  }

  lemma CapacityKept(s: State, a: Action)
    requires Next(s, a).Some?
    ensures Next(s, a).value.capacity == s.capacity
  {
  }

  /** While a writer is inside Write its copy stays what it was. */
  lemma CopyStays(s: State, a: Action, id: nat)
    requires Next(s, a).Some? && id in s.writing && id in Next(s, a).value.writing
    ensures Next(s, a).value.writing[id] == s.writing[id]
  {
  }

  /** What a Write sends, whatever happens in between, is what the caller's slice held when it was called. */
  lemma {:induction false} SendsWhatWasWritten(states: seq<State>, actions: seq<Action>, id: nat, slice: Bytes, i: nat, j: nat)
    requires IsRun(states, actions) && i < j <= |actions| && actions[i] == Copies(id, slice)
    requires forall k :: i < k <= j ==> id in states[k].writing
    ensures states[j].writing[id] == slice
    ensures j < |actions| && (actions[j] == Enqueues(id) || actions[j] == HandsOver(id)) ==>
              states[j + 1].accepted == states[j].accepted + [slice]
    ensures j < |actions| && actions[j] == Overflows(id) ==>
              states[j + 1].accepted == states[j].accepted && states[j + 1].queue == states[j].queue
    decreases j
  {
    assert Next(states[j - 1], actions[j - 1]) == Some(states[j - 1 + 1]);
    if i + 1 < j {
      hide Next;
      SendsWhatWasWritten(states, actions, id, slice, i, j - 1);
      CopyStays(states[j - 1], actions[j - 1], id);
    }
    SendEffect(states[j], id);
    if j < |actions| {
      assert Next(states[j], actions[j]) == Some(states[j + 1]);
    }
  }

  /** Each Write ends at once: sent when there is room or a waiting worker, dropped when the queue is full. */
  lemma SendEffect(s: State, id: nat)
    requires id in s.writing
    ensures Next(s, Enqueues(id)).Some? <==> !s.closed && |s.queue| < s.capacity
    ensures Next(s, Overflows(id)).Some? <==> !s.closed && |s.queue| >= s.capacity
    ensures Next(s, HandsOver(id)).Some? <==> !s.closed && s.worker == Selecting && s.queue == []
    ensures forall a :: (a == Enqueues(id) || a == HandsOver(id)) && Next(s, a).Some? ==>
                          Next(s, a).value.accepted == s.accepted + [s.writing[id]]
    ensures Next(s, Overflows(id)).Some? ==> Next(s, Overflows(id)).value == s.(writing := s.writing - {id})
  {
  }

  /** When Close returns, the output is exactly the accepted payloads. */
  lemma CloseDeliversEverything(capacity: nat, states: seq<State>, actions: seq<Action>, i: nat)
    requires IsRun(states, actions) && states[0] == Starting(capacity) && i < |states|
    requires states[i].worker == Exited
    ensures states[i].output == Flat(states[i].accepted)
  {
    hide Next;
    ConservedAlways(capacity, states, actions, i);
  }

  /** The worker's steps left until it returns, not counting flushes on the ticker. */
  function StepsLeft(s: State): nat {
    match s.worker
    case Selecting => 2 * |s.queue| + 1
    case Received(_) => 2 * |s.queue| + 2
    case Exited => 0
  }

  predicate IsWorkers(a: Action) {
    a.Receives? || a.Writes? || a.Ends?
  }

  /**
   After close the worker returns: until then it can step, each of its steps brings the end nearer by exactly one, and
   no other step puts it off.
   */
  lemma DrainTerminates(s: State, a: Action)
    requires s.closed
    ensures s.worker != Exited ==> exists b :: IsWorkers(b) && Next(s, b).Some?
    ensures Next(s, a).Some? ==>
              var t := Next(s, a).value;
              t.closed && StepsLeft(t) == StepsLeft(s) - (if IsWorkers(a) then 1 else 0)
  {
    if s.worker.Received? {
      assert IsWorkers(Writes(0)) && Next(s, Writes(0)).Some?;
    } else if s.worker == Selecting {
      if s.queue == [] {
        assert IsWorkers(Ends) && Next(s, Ends).Some?;
      } else {
        assert IsWorkers(Receives) && Next(s, Receives).Some?;
      }
    }
  }

  // ----- The writer as an object -----------------------------------------

  lemma HandOverKeeps(s: State, payload: Bytes)
    requires Conserved(s) && !s.closed && s.worker == Selecting && s.queue == []
    ensures Conserved(s.(worker := Received(payload), accepted := s.accepted + [payload]))
  {
    hide Conserved;
    WritersDoNotMatter(s, map[0 := payload]);
    var sending := s.(writing := map[0 := payload]);
    ConservedStep(sending, HandsOver(0));
    WritersDoNotMatter(Next(sending, HandsOver(0)).value, s.writing);
  }

  /** The writer with its channel of slices, as the caller and the worker change it. */
  class AsyncWriter {
    const capacity: nat
    var queue: seq<array<bv8>>
    var closed: bool
    /** The slice the worker has received and not yet written. */
    var inHand: array?<bv8>
    var buffered: Bytes
    var output: Bytes
    var exited: bool
    ghost var accepted: seq<Bytes>

    /** The contents of the queued slices. */
    ghost function Queued(): seq<Bytes>
      reads this, queue
    {
      seq(|queue|, i requires 0 <= i < |queue| reads this, queue => queue[i][..])
    }

    ghost function WorkerNow(): Worker
      reads this, inHand
    {
      if exited then Exited else if inHand != null then Received(inHand[..]) else Selecting
    }

    ghost function View(): State
      reads this, queue, inHand
    {
      State(capacity, Queued(), closed, WorkerNow(), buffered, output, map[], accepted)
    }

    ghost predicate Valid()
      reads this, queue, inHand
    {
      Conserved(View()) && (exited ==> inHand == null)
    }

    /** Every slice that the writer holds. */
    ghost function Held(): set<object?>
      reads this
    {
      (set a | a in queue) + {inHand}
    }

    constructor (queueSize: nat)
      ensures Valid() && View() == Starting(queueSize) && queue == [] && inHand == null
    {
      capacity := queueSize;
      queue, closed, inHand, buffered, output, exited := [], false, null, [], [], false;
      accepted := [];
      new;
      assert Queued() == [];
      StartsConserved(queueSize);
    }

    static method CopyOf(p: array<bv8>) returns (data: array<bv8>)
      ensures fresh(data) && data[..] == p[..]
    {
      data := new bv8[p.Length];
      for i := 0 to p.Length
        invariant forall j :: 0 <= j < i ==> data[j] == p[j]
      {
        data[i] := p[i];
      }
    }

    /**
     Copies the slice and tries to send the copy: to the worker, if that waits in
     its select (`workerWaits`) with nothing queued, and otherwise into the
     channel. A full channel drops it. The caller's array is never held.
     */
    method Write(p: array<bv8>, workerWaits: bool) returns (n: nat, overflow: bool)
      requires Valid() && !closed && !exited
      modifies this`queue, this`inHand, this`accepted
      ensures Valid()
      ensures var handed := workerWaits && old(inHand) == null && old(queue) == [];
              var before := old(View());
              && (overflow <==> !handed && |old(queue)| >= capacity)
              && (overflow ==> n == 0)
              && (!overflow ==> n == p.Length)
              && View()
                 == if overflow then before
                    else if handed then before.(worker := Received(p[..]), accepted := before.accepted + [p[..]])
                    else before.(queue := before.queue + [p[..]], accepted := before.accepted + [p[..]])
      ensures forall a <- Held() :: a in old(Held()) || fresh(a)
    {
      hide Conserved, Flat;
      var data := CopyOf(p);
      ghost var before, payload := View(), data[..];
      assert Queued() == old(Queued());
      if workerWaits && inHand == null && queue == [] {
        HandOverKeeps(before, payload);
        inHand := data;
        accepted := accepted + [payload];
        assert Queued() == before.queue;
        return p.Length, false;
      }
      if |queue| >= capacity {
        return 0, true;
      }
      EnqueueKeeps(before, payload);
      queue := queue + [data];
      accepted := accepted + [payload];
      assert Queued() == before.queue + [payload];
      return p.Length, false;
    }

    /** Changing the caller's slice after Write has no effect on what will be written. */
    method WriteThenScribble(p: array<bv8>, workerWaits: bool, k: nat, b: bv8) returns (overflow: bool)
      requires Valid() && !closed && !exited && p !in Held() && k < p.Length
      modifies this`queue, this`inHand, this`accepted, p
      ensures Valid()
      ensures var handed := workerWaits && old(inHand) == null && old(queue) == [];
              var before, payload := old(View()), old(p[..]);
              View()
              == if overflow then before
                 else if handed then before.(worker := Received(payload), accepted := before.accepted + [payload])
                 else before.(queue := before.queue + [payload], accepted := before.accepted + [payload])
    {
      hide Conserved, Flat;
      var n;
      n, overflow := Write(p, workerWaits);
      ghost var view := View();
      assert p !in Held();
      label written:
      p[k] := b;
      assert forall i :: 0 <= i < |queue| ==> queue[i] in Held() && queue[i][..] == old@written(queue[i][..]);
      assert Queued() == view.queue;
      assert View() == view;
    }

    /** The worker's select receives the oldest slice. */
    method Receive()
      requires Valid() && !exited && inHand == null && queue != []
      modifies this`queue, this`inHand
      ensures Valid() && inHand == old(queue)[0] && queue == old(queue)[1..]
      ensures Queued() == old(Queued())[1..] && inHand[..] == old(Queued())[0]
    {
      hide Conserved, Flat;
      ghost var before := View();
      ConservedStep(before, Receives);
      inHand := queue[0];
      queue := queue[1..];
      assert Queued() == before.queue[1..];
      assert View() == Next(before, Receives).value;
    }

    /** The received slice's bytes go into the buffered writer. */
    method WriteOut()
      requires Valid() && !exited && inHand != null
      modifies this`inHand, this`buffered
      ensures Valid() && inHand == null && Queued() == old(Queued())
      ensures buffered == old(buffered) + old(inHand[..])
    {
      hide Conserved, Flat;
      ghost var before := View();
      ConservedStep(before, Writes(0));
      buffered := buffered + inHand[..];
      inHand := null;
      assert Queued() == before.queue;
      assert before.buffered + before.worker.data == (before.buffered + before.worker.data)[0..];
      assert View() == Next(before, Writes(0)).value;
    }

    /** The ticker's turn in the worker's select: what is buffered is passed on. */
    method FlushOnTick()
      requires Valid() && !exited && inHand == null
      modifies this`buffered, this`output
      ensures Valid() && buffered == [] && output == old(output) + old(buffered)
    {
      hide Conserved, Flat;
      ghost var before := View();
      ConservedStep(before, Ticks);
      output, buffered := output + buffered, [];
      assert Queued() == before.queue;
      assert View() == Next(before, Ticks).value;
    }

    /** Closes the channel and waits for the worker, which drains it, flushes and returns. */
    method Close()
      requires Valid() && !closed && !exited
      modifies this`queue, this`inHand, this`closed, this`buffered, this`output, this`exited
      ensures Valid() && closed && exited && queue == [] && inHand == null
      ensures output == Flat(accepted) && accepted == old(accepted)
    {
      ConservedStep(View(), Closes);
      closed := true;
      assert Queued() == old(Queued());
      while queue != [] || inHand != null
        invariant Valid() && closed && !exited && accepted == old(accepted)
        decreases |queue|, if inHand != null then 1 else 0
      {
        hide Conserved, Flat;
        if inHand != null {
          WriteOut();
        } else {
          Receive();
        }
      }
      ghost var last := View();
      ConservedStep(last, Ends);
      output, buffered := output + buffered, [];
      exited := true;
      assert Queued() == last.queue && View() == Next(last, Ends).value;
    }
  }
}
