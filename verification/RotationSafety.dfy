/**
 What readers see during rotation, and why nothing gets stuck on the mutex.
 */
module RotationSafety {
  import opened Text
  import opened Rotation

  // ----- What changes the certificate ------------------------------------

  /** Only publishing the result of a completed fetch changes the certificate or the pod UID; failures change neither. */
  lemma OnlyPublishingChanges(c: Settings, s: State, a: Action)
    requires Safe(s) && Next(c, s, a).Some?
    ensures var t := Next(c, s, a).value;
            && (t.cert != s.cert ==> a == Advance && s.pc.WritingCert? && t.cert == Some(s.pc.got.cert))
            && (t.podUid != s.podUid ==> a == Advance && s.pc.WritingUid? && t.podUid == s.pc.got.podUid)
            && (Publishing(t.pc).Some? ==> a == FetchArrives(Publishing(t.pc).value) || Publishing(s.pc) == Publishing(t.pc))
            && (a == TokenFails || a == FetchFails ==> t.cert == s.cert && t.podUid == s.podUid)
  {
  }

  /**
   Outside the write lock, certificate and pod UID come from one fetch; and no lock is held while the goroutine is in
   a call, parses, or waits.
   */
  lemma CoherentOutsideLock(c: Settings, states: seq<State>, actions: seq<Action>, i: nat)
    requires IsRun(c, states, actions) && Initial(states[0]) && i < |states|
    ensures var s := states[i];
            && (!s.writer ==>
                  match s.published
                  case None => s.cert == None
                  case Some(f) => s.cert == Some(f.cert) && s.podUid == f.podUid)
            && (s.pc.FirstFetch? || s.pc.Requesting? || s.pc.Fetching? || s.pc.Looked? || s.pc.Sleeping? || s.pc.Retrying? ==>
                  !s.writer && !s.waiting && !s.rotatorReads)
  {
    hide IsRun, Initial;
    SafeAlways(c, states, actions, i);
  }

  lemma {:induction false} OnceSetStaysSet(c: Settings, states: seq<State>, actions: seq<Action>, i: nat, j: nat)
    requires IsRun(c, states, actions) && Initial(states[0]) && i <= j < |states|
    requires states[i].cert.Some?
    ensures states[j].cert.Some?
    decreases j
  {
    hide Initial, Next;
    if i < j {
      OnceSetStaysSet(c, states, actions, i, j - 1);
      SafeAlways(c, states, actions, j - 1);
      assert Next(c, states[j - 1], actions[j - 1]) == Some(states[j - 1 + 1]);
      OnlyPublishingChanges(c, states[j - 1], actions[j - 1]);
    }
  }

  /**
   Once a certificate is set, every reader that reads gets one, namely the certificate of the fetch published last,
   and it gets it while the pod UID on display is the one of the same fetch.
   */
  lemma ReadersGetCertificates(c: Settings, states: seq<State>, actions: seq<Action>, i: nat, j: nat, id: nat)
    requires IsRun(c, states, actions) && Initial(states[0]) && i <= j < |actions|
    requires states[i].cert.Some? && actions[j] == Reads(id)
    ensures id in states[j + 1].readers && states[j + 1].readers[id].Has?
    ensures states[j].published.Some? && states[j].podUid == states[j].published.value.podUid
    ensures states[j + 1].readers[id].value == Some(states[j].published.value.cert)
  {
    hide Initial;
    OnceSetStaysSet(c, states, actions, i, j);
    SafeAlways(c, states, actions, j);
    assert Next(c, states[j], actions[j]) == Some(states[j + 1]);
    assert ReaderHolds(states[j], id);
  }

  // ----- Progress --------------------------------------------------------

  /** A reader that holds the mutex can always go on to release it. */
  predicate ReaderCanGoOn(c: Settings, s: State, id: nat) {
    Next(c, s, Reads(id)).Some? || Next(c, s, Unlocks(id)).Some?
  }

  /** What the goroutine itself can do next, given that calls return: step, get an answer, or wait for the clock. */
  predicate RotatorCanGoOn(c: Settings, s: State) {
    Next(c, s, Advance).Some? || Next(c, s, TokenFails).Some? || Next(c, s, FetchFails).Some? || Next(c, s, TimerFires).Some?
    || (s.pc.Sleeping? && Next(c, s, Tick(s.pc.until - s.now)).Some?)
    || (s.pc.Retrying? && Next(c, s, Tick(s.pc.until - s.now)).Some?)
  }

  /** Nobody is stuck: whoever waits for the mutex waits for a holder who can go on. */
  lemma NoDeadlock(c: Settings, s: State)
    requires Safe(s)
    ensures s.pc.Finished? || RotatorCanGoOn(c, s) || (s.pc.WantsWrite? && exists id :: ReaderHolds(s, id) && ReaderCanGoOn(c, s, id))
    ensures forall id <- s.readers :: s.readers[id].Wants? ==>
              Next(c, s, Locks(id)).Some? || RotatorCanGoOn(c, s) || exists other :: ReaderHolds(s, other) && ReaderCanGoOn(c, s, other)
  {
    forall id | ReaderHolds(s, id)
      ensures ReaderCanGoOn(c, s, id)
    {
    }
    if s.pc.WantsWrite? && s.waiting && !NoReaderHolds(s) {
      var id :| id in s.readers && ReaderHolds(s, id);
    }
  }

  function AtHolds(readers: map<nat, Reader>): set<nat> {
    set id <- readers | readers[id].Holds?
  }

  function AtHas(readers: map<nat, Reader>): set<nat> {
    set id <- readers | readers[id].Has?
  }

  /** Steps left for the readers that hold the mutex. */
  function HoldersWork(s: State): nat {
    2 * |AtHolds(s.readers)| + |AtHas(s.readers)|
  }

  /**
   A waiting writer gets the mutex after finitely many reader steps: no step adds work while it waits, each step of
   a holder removes some, and with none left the writer can take the mutex.
   */
  lemma WriterGetsMutex(c: Settings, s: State, a: Action)
    requires Safe(s) && s.waiting
    ensures HoldersWork(s) == 0 ==> Next(c, s, Advance).Some? && Next(c, s, Advance).value.writer
    ensures HoldersWork(s) > 0 ==> exists id :: ReaderHolds(s, id) && ReaderCanGoOn(c, s, id)
    ensures Next(c, s, a).Some? && !Next(c, s, a).value.writer ==>
              var t := Next(c, s, a).value;
              t.waiting && HoldersWork(t) <= HoldersWork(s) && (a.Reads? || a.Unlocks? ==> HoldersWork(t) < HoldersWork(s))
  {
    var holds, has := AtHolds(s.readers), AtHas(s.readers);
    if HoldersWork(s) == 0 {
      forall id | id in s.readers
        ensures !ReaderHolds(s, id)
      {
        assert id !in holds && id !in has;
      }
    } else {
      var id := SomeHolder(s);
      assert ReaderCanGoOn(c, s, id);
    }
    if Next(c, s, a).Some? && !Next(c, s, a).value.writer {
      var t := Next(c, s, a).value;
      HoldersWorkStep(c, s, a, t);
    }
  }

  lemma SomeHolder(s: State) returns (id: nat)
    requires HoldersWork(s) > 0
    ensures ReaderHolds(s, id)
  {
    var holds, has := AtHolds(s.readers), AtHas(s.readers);
    if holds != {} {
      id :| id in holds;
    } else {
      id :| id in has;
    }
  }

  lemma HoldersWorkStep(c: Settings, s: State, a: Action, t: State)
    requires Safe(s) && s.waiting && Next(c, s, a) == Some(t) && !t.writer
    ensures t.waiting && HoldersWork(t) <= HoldersWork(s) && (a.Reads? || a.Unlocks? ==> HoldersWork(t) < HoldersWork(s))
  {
    hide NoReaderHolds, HoldersWork;
    if a.Arrives? || a.Locks? || a.Reads? || a.Unlocks? {
      assert ReadersAfter(s, a) == Some(t.readers);
      ReadersWorkStep(s, a, t);
    } else {
      SameReadersSameWork(s, t);
    }
  }

  lemma SameReadersSameWork(s: State, t: State)
    requires s.readers == t.readers
    ensures HoldersWork(s) == HoldersWork(t)
  {
  }

  lemma ReadersWorkStep(s: State, a: Action, t: State)
    requires s.waiting && ReadersAfter(s, a) == Some(t.readers)
    ensures HoldersWork(t) <= HoldersWork(s) && (a.Reads? || a.Unlocks? ==> HoldersWork(t) < HoldersWork(s))
  {
    hide AtHolds, AtHas;
    match a {
      case Arrives(id) => MovesTo(s.readers, id, Wants);
      case Reads(id) => MovesTo(s.readers, id, Has(s.cert));
      case Unlocks(id) => MovesTo(s.readers, id, Returned(s.readers[id].value));
    }
  }

  lemma Without(s: set<nat>, id: nat)
    ensures |s - {id}| == |s| - (if id in s then 1 else 0)
  {
    if id !in s { assert s - {id} == s; }
  }

  /** How the sets of holders change when one reader moves. */
  lemma MovesTo(readers: map<nat, Reader>, id: nat, r: Reader)
    requires !r.Holds? && (r.Has? ==> id in readers && readers[id].Holds?)
    ensures |AtHolds(readers[id := r])| == |AtHolds(readers)| - (if id in readers && readers[id].Holds? then 1 else 0)
    ensures |AtHas(readers[id := r])|
            == |AtHas(readers)| + (if r.Has? then 1 else 0) - (if id in readers && readers[id].Has? then 1 else 0)
  {
    MovesFromHolds(readers, id, r);
    MovesFromHas(readers, id, r);
  }

  lemma MovesFromHolds(readers: map<nat, Reader>, id: nat, r: Reader)
    requires !r.Holds?
    ensures |AtHolds(readers[id := r])| == |AtHolds(readers)| - (if id in readers && readers[id].Holds? then 1 else 0)
  {
    assert id in AtHolds(readers) <==> id in readers && readers[id].Holds?;
    var before, after := AtHolds(readers), AtHolds(readers[id := r]);
    assert forall x :: x in after <==> x in before && x != id;
    assert after == before - {id};
    hide AtHolds;
    Without(before, id);
  }

  lemma MovesFromHas(readers: map<nat, Reader>, id: nat, r: Reader)
    requires r.Has? ==> id in readers && readers[id].Holds?
    ensures |AtHas(readers[id := r])|
            == |AtHas(readers)| + (if r.Has? then 1 else 0) - (if id in readers && readers[id].Has? then 1 else 0)
  {
    var before, after := AtHas(readers), AtHas(readers[id := r]);
    if r.Has? {
      assert id !in before && after == before + {id};
    } else {
      assert after == before - {id};
      Without(before, id);
    }
  }

  // ----- Waiting ---------------------------------------------------------

  /** The step begins no retry other than one of the whole delay, and leads to the top only from a retry or a publication. */
  predicate WaitsItsTurn(c: Settings, s: State, a: Action, t: State) {
    && (t.pc.Retrying? ==> t.pc == s.pc || (t.pc.until == s.now + c.retryDelay && t.now == s.now))
    && (t.pc == Top && s.pc != Top ==> s.pc.Written? || (a == TimerFires && s.pc.Retrying? && s.now >= s.pc.until))
  }

  lemma AdvanceWaitsItsTurn(c: Settings, s: State)
    requires AdvanceFrom(c, s).Some?
    ensures WaitsItsTurn(c, s, Advance, AdvanceFrom(c, s).value)
    ensures s.pc.Looked? && Usable(s.pc.seen) && s.pc.seen.value.blocks[0] == None ==> AdvanceFrom(c, s).value.pc.Retrying?
    ensures s.pc == Top && s.token == "" ==> AdvanceFrom(c, s).value.pc.Retrying?
  {
    hide SleepUntil, NoReaderHolds;
  }

  /**
   Every failure is followed by the whole retry delay, and only from there or from publishing does the loop start anew:
   a failed token request, a failed fetch, a missing token and a certificate that does not parse.
   */
  lemma RetriesAfterDelay(c: Settings, s: State, a: Action)
    requires Next(c, s, a).Some?
    ensures WaitsItsTurn(c, s, a, Next(c, s, a).value)
    ensures a == TokenFails || a == FetchFails ==>
              Next(c, s, a).value.pc.Retrying?
              && Next(c, s, a).value.failures == s.failures + (if s.pc.FirstFetch? then 0 else 1)
    ensures a == Advance && s.pc.Looked? && Usable(s.pc.seen) && s.pc.seen.value.blocks[0] == None ==>
              Next(c, s, a).value.pc.Retrying?
    ensures a == Advance && s.pc == Top && s.token == "" ==> Next(c, s, a).value.pc.Retrying?
  {
    hide AdvanceFrom, ReadersAfter, MayTick;
    if a == Advance {
      AdvanceWaitsItsTurn(c, s);
    }
  }

  /** A sleeping loop hears a renewal signal at once, and requests a token. */
  lemma RenewsOnDemand(c: Settings, s: State)
    requires s.pc.Sleeping?
    ensures Next(c, s, RenewNow)
         == Some(s.(pc := Requesting(s.now), requests := s.requests + 1, renewals := s.renewals + 1))
  {
  }

  // ----- The parse-failure branch ----------------------------------------

  /** A certificate whose first block parses, which is all that a successful key-pair check returns. */
  predicate Parses(cert: Certificate) {
    cert.blocks != [] && cert.blocks[0].Some?
  }

  predicate ParsedThroughout(s: State) {
    && (s.cert.Some? ==> Parses(s.cert.value))
    && (s.pc.Looked? && s.pc.seen.Some? ==> Parses(s.pc.seen.value))
    && (Publishing(s.pc).Some? ==> Parses(Publishing(s.pc).value.cert))
  }

  lemma ParsedStep(c: Settings, s: State, a: Action)
    requires ParsedThroughout(s) && Next(c, s, a).Some? && (a.FetchArrives? ==> Parses(a.got.cert))
    ensures ParsedThroughout(Next(c, s, a).value)
  {
    hide Next, Parses;
    if a == Advance {
      AdvanceIsNext(c, s);
      ParsedAdvance(c, s);
    } else {
      AnswerEffect(c, s, a);
    }
  }

  lemma ParsedAdvance(c: Settings, s: State)
    requires ParsedThroughout(s) && AdvanceFrom(c, s).Some?
    ensures ParsedThroughout(AdvanceFrom(c, s).value)
  {
    hide SleepUntil, NoReaderHolds, Window;
    var t := AdvanceFrom(c, s).value;
    match s.pc {
      case WritingCert(got) => assert t.cert == Some(got.cert) && t.pc == WritingUid(got);
      case WantsWrite(got) => assert t.cert == s.cert && (t.pc == s.pc || t.pc == WritingCert(got));
      case WritingUid(got) => assert t.cert == s.cert && t.pc == Written(got);
      case Reading => assert t.cert == s.cert && t.pc == Looked(s.cert);
      case _ =>
    }
  }

  /** If every fetch returns a parsed key pair, no certificate ever fails to parse when it is looked at. */
  lemma {:induction false} ParseNeverFails(c: Settings, states: seq<State>, actions: seq<Action>, i: nat)
    requires IsRun(c, states, actions) && i < |states| && ParsedThroughout(states[0])
    requires forall k :: 0 <= k < |actions| && actions[k].FetchArrives? ==> Parses(actions[k].got.cert)
    ensures ParsedThroughout(states[i])
    ensures states[i].pc.Looked? && Usable(states[i].pc.seen) ==> states[i].pc.seen.value.blocks[0].Some?
  {
    hide Next;
    if i > 0 {
      ParseNeverFails(c, states, actions, i - 1);
      assert Next(c, states[i - 1], actions[i - 1]) == Some(states[i - 1 + 1]);
      ParsedStep(c, states[i - 1], actions[i - 1]);
    }
  }
}
