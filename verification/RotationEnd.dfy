/**
 How rotation ends: promptly after cancellation, and silently when it is ever
 handed an empty token.
 */
module RotationEnd {
  import opened Text
  import opened Rotation
  import opened RotationSafety

  // ----- After cancellation ----------------------------------------------

  /** A step of the rotation goroutine or an answer to one of its calls. */
  predicate IsRotators(a: Action) {
    a.Advance? || a.TokenArrives? || a.TokenFails? || a.FetchArrives? || a.FetchFails? || a.TimerFires? || a.RenewNow? || a.SeesCancel?
  }

  /** A select that could see the cancellation does. */
  predicate PrefersCancel(s: State, a: Action) {
    s.cancelled ==> a != TimerFires && a != RenewNow
  }

  /** An upper bound on the goroutine's remaining steps once it is cancelled. */
  function Remaining(s: State): nat {
    match s.pc
    case Finished => 0
    case Sleeping(_) => 1
    case Retrying(_) => 1
    case Looked(seen) => if Usable(seen) then 2 else 12
    case Reading => if Usable(s.cert) then 3 else 13
    case WantsRead => if Usable(s.cert) then 4 else 14
    case Top => if Usable(s.cert) then 5 else 15
    case Written(_) => 6
    case WritingUid(_) => 7
    case WritingCert(_) => 8
    case WantsWrite(_) => if s.waiting then 9 else 10
    case FirstFetch(_) => 11
    case Fetching(_) => 11
    case Storing(_, _) => 12
    case Requesting(_) => 13
  }

  /** Whether a fetch may still be started. */
  function FetchesLeft(s: State): nat {
    match s.pc
    case Looked(seen) => if Usable(seen) then 0 else 1
    case Reading => if Usable(s.cert) then 0 else 1
    case WantsRead => if Usable(s.cert) then 0 else 1
    case Top => if Usable(s.cert) then 0 else 1
    case Storing(_, _) => 1
    case Requesting(_) => 1
    case _ => 0
  }

  /** What is being published is not empty. */
  predicate Publishable(s: State) {
    Publishing(s.pc).Some? ==> Publishing(s.pc).value.cert.blocks != []
  }

  predicate Ending(s: State) {
    s.cancelled && Safe(s) && Publishable(s)
  }

  lemma EndingAdvance(c: Settings, s: State)
    requires Ending(s) && AdvanceFrom(c, s).Some?
    ensures var t := AdvanceFrom(c, s).value;
            t.cancelled && Publishable(t) && t.requests == s.requests
            && Remaining(t) < Remaining(s) && t.fetches + FetchesLeft(t) <= s.fetches + FetchesLeft(s)
  {
  }

  lemma EndingStep(c: Settings, s: State, a: Action)
    requires Ending(s) && PrefersCancel(s, a) && Next(c, s, a).Some?
    requires a.FetchArrives? ==> a.got.cert.blocks != []
    ensures var t := Next(c, s, a).value;
            && Ending(t) && t.requests == s.requests
            && Remaining(t) <= Remaining(s) - (if IsRotators(a) then 1 else 0)
            && t.fetches + FetchesLeft(t) <= s.fetches + FetchesLeft(s)
  {
    SafeStep(c, s, a);
    hide AdvanceFrom, ReadersAfter, Safe;
    if a == Advance {
      EndingAdvance(c, s);
    }
  }

  function RotatorSteps(actions: seq<Action>): nat {
    if actions == [] then 0
    else RotatorSteps(actions[..|actions| - 1]) + (if IsRotators(actions[|actions| - 1]) then 1 else 0)
  }

  /**
   Once cancelled, with cancellation preferred in every select, the goroutine makes no further token request beyond one
   already begun, starts at most one more fetch, and takes a bounded number of steps in all.
   */
  lemma {:induction false} EndsAfterCancel(c: Settings, states: seq<State>, actions: seq<Action>, n: nat)
    requires IsRun(c, states, actions) && Ending(states[0]) && n < |states|
    requires forall j :: 0 <= j < |actions| ==> PrefersCancel(states[j], actions[j])
    requires forall j :: 0 <= j < |actions| && actions[j].FetchArrives? ==> actions[j].got.cert.blocks != []
    ensures Ending(states[n])
    ensures RotatorSteps(actions[..n]) + Remaining(states[n]) <= Remaining(states[0]) <= 15
    ensures states[n].requests == states[0].requests
    ensures states[n].fetches + FetchesLeft(states[n]) <= states[0].fetches + FetchesLeft(states[0]) <= states[0].fetches + 1
  {
    hide Next, Ending, Remaining, FetchesLeft, PrefersCancel;
    if n == 0 {
      RemainingIsSmall(states[0]);
    } else {
      EndsAfterCancel(c, states, actions, n - 1);
      assert Next(c, states[n - 1], actions[n - 1]) == Some(states[n - 1 + 1]);
      EndingStep(c, states[n - 1], actions[n - 1]);
      assert actions[..n][..n - 1] == actions[..n - 1];
    }
  }

  lemma RemainingIsSmall(s: State)
    ensures Remaining(s) <= 15 && FetchesLeft(s) <= 1
  {
  }

  /** Until it has returned, the cancelled goroutine can take a step that brings it closer, or waits for a reader that can go on. */
  lemma EndingGoesOn(c: Settings, s: State)
    requires Ending(s) && !s.pc.Finished?
    ensures (exists a :: IsRotators(a) && PrefersCancel(s, a) && Next(c, s, a).Some?)
            || (exists id :: ReaderHolds(s, id) && ReaderCanGoOn(c, s, id))
  {
    match s.pc {
      case Sleeping(_) => assert IsRotators(SeesCancel) && Next(c, s, SeesCancel).Some?;
      case Retrying(_) => assert IsRotators(SeesCancel) && Next(c, s, SeesCancel).Some?;
      case Requesting(_) => assert IsRotators(TokenFails) && Next(c, s, TokenFails).Some?;
      case FirstFetch(_) => assert IsRotators(FetchFails) && Next(c, s, FetchFails).Some?;
      case Fetching(_) => assert IsRotators(FetchFails) && Next(c, s, FetchFails).Some?;
      case WantsWrite(_) =>
        NoDeadlock(c, s);
        if Next(c, s, Advance).Some? { assert IsRotators(Advance); }
      case Finished =>
      case Top => assert IsRotators(Advance) && Next(c, s, Advance).Some?;
      case WantsRead => assert IsRotators(Advance) && Next(c, s, Advance).Some?;
      case Reading => assert IsRotators(Advance) && Next(c, s, Advance).Some?;
      case Looked(_) => assert IsRotators(Advance) && Next(c, s, Advance).Some?;
      case Storing(_, _) => assert IsRotators(Advance) && Next(c, s, Advance).Some?;
      case WritingCert(_) => assert IsRotators(Advance) && Next(c, s, Advance).Some?;
      case WritingUid(_) => assert IsRotators(Advance) && Next(c, s, Advance).Some?;
      case Written(_) => assert IsRotators(Advance) && Next(c, s, Advance).Some?;
    }
  }

  // ----- An empty token --------------------------------------------------

  predicate Wedged(s: State) {
    s.token == "" && (s.pc.Top? || s.pc.Retrying? || s.pc.Finished?)
  }

  /** The token check never asks for another token: from an empty token on nothing is requested, fetched or renewed. */
  lemma {:induction false} EmptyTokenWedges(c: Settings, states: seq<State>, actions: seq<Action>, i: nat)
    requires IsRun(c, states, actions) && i < |states| && Wedged(states[0])
    ensures Wedged(states[i]) && states[i].cert == states[0].cert
    ensures states[i].requests == states[0].requests && states[i].fetches == states[0].fetches
  {
    hide Next;
    if i > 0 {
      EmptyTokenWedges(c, states, actions, i - 1);
      assert Next(c, states[i - 1], actions[i - 1]) == Some(states[i - 1 + 1]);
      WedgedStep(c, states[i - 1], actions[i - 1]);
    }
  }

  lemma WedgedStep(c: Settings, s: State, a: Action)
    requires Wedged(s) && Next(c, s, a).Some?
    ensures var t := Next(c, s, a).value;
            Wedged(t) && t.cert == s.cert && t.requests == s.requests && t.fetches == s.fetches
  {
  }

  /** A token is in use, and none that is about to be stored is empty. */
  predicate Tokened(s: State) {
    s.token != "" && (s.pc.Storing? ==> s.pc.newToken != "")
  }

  /** An empty token is about to be stored, or in use on the way back to the token check. */
  predicate Doomed(s: State) {
    if s.pc.Storing? then s.pc.newToken == ""
    else s.token == "" && (Wedged(s) || s.pc.Fetching? || Publishing(s.pc).Some?)
  }

  /** The goroutine's steps until a doomed state is wedged. */
  function StepsToWedge(s: State): nat {
    match s.pc
    case Storing(_, _) => 7
    case Fetching(_) => 6
    case WantsWrite(_) => if s.waiting then 4 else 5
    case WritingCert(_) => 3
    case WritingUid(_) => 2
    case Written(_) => 1
    case _ => 0
  }

  /** Whether the fetch with the empty token is still to be started. */
  function FetchToCome(s: State): nat {
    if s.pc.Storing? then 1 else 0
  }

  lemma TokenedStep(c: Settings, s: State, a: Action)
    requires Tokened(s) && Next(c, s, a).Some?
    ensures if a == TokenArrives("") then Doomed(Next(c, s, a).value) else Tokened(Next(c, s, a).value)
  {
    hide AdvanceFrom, ReadersAfter, MayTick;
    if a == Advance {
      TokenedAdvance(c, s);
    }
  }

  lemma TokenedAdvance(c: Settings, s: State)
    requires Tokened(s) && AdvanceFrom(c, s).Some?
    ensures Tokened(AdvanceFrom(c, s).value)
  {
    hide SleepUntil, NoReaderHolds, Usable;
  }

  /** Nothing leads out of a doomed state, and each step of the goroutine brings the wedge nearer. */
  lemma DoomedStep(c: Settings, s: State, a: Action)
    requires Doomed(s) && Next(c, s, a).Some?
    ensures var t := Next(c, s, a).value;
            && Doomed(t) && t.requests == s.requests
            && t.fetches + FetchToCome(t) == s.fetches + FetchToCome(s)
            && StepsToWedge(t) <= StepsToWedge(s)
            && (IsRotators(a) && StepsToWedge(s) > 0 ==> StepsToWedge(t) < StepsToWedge(s))
    ensures StepsToWedge(s) == 0 <==> Wedged(s)
  {
    hide AdvanceFrom, ReadersAfter, MayTick;
    if a == Advance {
      DoomedAdvance(c, s);
    }
  }

  lemma DoomedAdvance(c: Settings, s: State)
    requires Doomed(s) && AdvanceFrom(c, s).Some?
    ensures var t := AdvanceFrom(c, s).value;
            && Doomed(t) && t.requests == s.requests
            && t.fetches + FetchToCome(t) == s.fetches + FetchToCome(s)
            && StepsToWedge(t) <= StepsToWedge(s)
            && (StepsToWedge(s) > 0 ==> StepsToWedge(t) < StepsToWedge(s))
  {
    hide SleepUntil, NoReaderHolds, Usable;
    match s.pc {
      case Top =>
      case Storing(_, _) =>
      case Fetching(_) =>
      case WantsWrite(_) =>
      case WritingCert(_) =>
      case WritingUid(_) =>
      case Written(_) =>
      case Retrying(_) =>
      case Finished =>
    }
  }

  /**
   From an empty answer on, whether the fetch made with it succeeds or fails: no token is ever requested again, no
   other fetch is started, and once the goroutine has taken seven steps it is wedged.
   */
  lemma {:induction false} EmptyAnswerLeadsThere(c: Settings, states: seq<State>, actions: seq<Action>, i: nat)
    requires IsRun(c, states, actions) && i < |states| && Doomed(states[0])
    ensures Doomed(states[i]) && states[i].requests == states[0].requests
    ensures states[i].fetches <= states[0].fetches + 1
    ensures states[i].fetches + FetchToCome(states[i]) == states[0].fetches + FetchToCome(states[0])
    ensures StepsToWedge(states[i]) + RotatorSteps(actions[..i]) <= 7 || Wedged(states[i])
  {
    hide Next;
    if i > 0 {
      EmptyAnswerLeadsThere(c, states, actions, i - 1);
      assert Next(c, states[i - 1], actions[i - 1]) == Some(states[i - 1 + 1]);
      DoomedStep(c, states[i - 1], actions[i - 1]);
      assert actions[..i][..i - 1] == actions[..i - 1];
    }
  }

  /**
   Exactly when that happens: a run is doomed if and only if it started without a token or the provider has once
   answered with an empty one; until then every token in use is non-empty.
   */
  lemma {:induction false} DoomedExactly(c: Settings, states: seq<State>, actions: seq<Action>, i: nat)
    requires IsRun(c, states, actions) && i < |states| && Initial(states[0])
    ensures Doomed(states[i]) <==> states[0].token == "" || exists j :: 0 <= j < i && actions[j] == TokenArrives("")
    ensures !Doomed(states[i]) ==> Tokened(states[i])
  {
    hide Next;
    if i > 0 {
      DoomedExactly(c, states, actions, i - 1);
      assert Next(c, states[i - 1], actions[i - 1]) == Some(states[i - 1 + 1]);
      if Doomed(states[i - 1]) {
        DoomedStep(c, states[i - 1], actions[i - 1]);
      } else {
        TokenedStep(c, states[i - 1], actions[i - 1]);
      }
    }
  }

  // ----- A certificate that does not parse -------------------------------

  /** The certificate on display has a first block that does not parse, and the loop is on the way around with it. */
  predicate Unparsable(s: State) {
    Usable(s.cert) && s.cert.value.blocks[0] == None
    && (s.pc.Top? || s.pc.WantsRead? || s.pc.Reading? || s.pc == Looked(s.cert) || s.pc.Retrying? || s.pc.Finished?)
  }

  lemma UnparsableStep(c: Settings, s: State, a: Action)
    requires Unparsable(s) && Next(c, s, a).Some?
    ensures var t := Next(c, s, a).value;
            Unparsable(t) && t.cert == s.cert && t.requests == s.requests && t.fetches == s.fetches
  {
    hide SleepUntil, NoReaderHolds, ReadersAfter, MayTick;
  }

  /** The loop waits and looks again; it never fetches another certificate in place of one that does not parse. */
  lemma {:induction false} UnparsableStays(c: Settings, states: seq<State>, actions: seq<Action>, i: nat)
    requires IsRun(c, states, actions) && i < |states| && Unparsable(states[0])
    ensures Unparsable(states[i]) && states[i].cert == states[0].cert
    ensures states[i].requests == states[0].requests && states[i].fetches == states[0].fetches
  {
    hide Next, Unparsable;
    if i > 0 {
      UnparsableStays(c, states, actions, i - 1);
      assert Next(c, states[i - 1], actions[i - 1]) == Some(states[i - 1 + 1]);
      UnparsableStep(c, states[i - 1], actions[i - 1]);
    }
  }
}
