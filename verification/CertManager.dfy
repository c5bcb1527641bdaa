/**
 CertManager as the program writes it: fields updated by a loop that waits and
 calls out. The loop is proved to perform a run of the rotation machine, so what
 holds of every run holds of it.
 */
module CertManagers {
  import opened Text
  import opened Rotation

  // ----- The outside -----------------------------------------------------

  datatype Wake = Timer | Signal | Done

  /**
   What the outside does next, whatever it is asked: how long a call takes and
   what it returns, or how a select ends and after what wait.
   */
  datatype Answer = Answer(took: Time, token: Option<string>, got: Option<Fetched>, wait: Time, wake: Wake)

  function NotNegative(t: Time): Time { if t < 0 then 0 else t }

  function Least(a: Time, b: Time): Time { if a < b then a else b }

  /** No call takes longer than the bound, nor do two that follow one another: a token request and a fetch. */
  ghost predicate IsTimely(answers: seq<Answer>, callBound: Time) {
    callBound >= 0
    && (forall i :: 0 <= i < |answers| ==> 0 <= answers[i].took <= callBound)
    && (forall i :: 0 < i < |answers| ==> answers[i - 1].took + answers[i].took <= callBound)
  }

  // ----- What the outside has said ---------------------------------------

  /** The actions of the machine that come from outside. */
  predicate IsOutside(a: Action) {
    a.TokenArrives? || a.TokenFails? || a.FetchArrives? || a.FetchFails? || a.TimerFires? || a.RenewNow? || a.Cancel?
  }

  function Outside(actions: seq<Action>): seq<Action> {
    if actions == [] then []
    else Outside(actions[..|actions| - 1]) + (if IsOutside(actions[|actions| - 1]) then [actions[|actions| - 1]] else [])
  }

  /** How a select ends, as an action. */
  function Woken(wake: Wake): Action {
    match wake
    case Timer => TimerFires
    case Signal => RenewNow
    case Done => Cancel
  }

  /** How the script says a select ends: a renewal signal counts only where the select listens for it. */
  function WakeSaid(answers: seq<Answer>, signals: bool): Wake {
    if answers == [] then Done
    else if answers[0].wake == Signal && !signals then Timer
    else answers[0].wake
  }

  /** The action is what the script's entry answers to what was asked. */
  predicate Says(answer: Answer, a: Action) {
    match a
    case TokenArrives(newToken) => answer.token == Some(newToken)
    case TokenFails => answer.token == None
    case FetchArrives(got) => answer.got == Some(got)
    case FetchFails => answer.got == None
    case TimerFires => answer.wake != Done
    case RenewNow => answer.wake == Signal
    case Cancel => answer.wake == Done
    case _ => false
  }

  /** What is heard behind the end of the script. */
  predicate IsEnd(a: Action) {
    a == TokenFails || a == FetchFails || a == Cancel
  }

  /** What a call presents: a token request its workload, a fetch its token and the id it asks for. */
  datatype Call =
    | TokenCall(namespace: string, account: string, podName: string, podUid: string)
    | FetchCall(token: string, spiffeId: string)
    | NoCall

  /** What the program is started with and presents in every call. */
  datatype Job = Job(namespace: string, account: string, podName: string, podUid: string, spiffeId: string)

  /** The token in use after these answers: the last that arrived, or the one at the start. */
  function TokenAfter(first: string, given: seq<Action>): string {
    if given == [] then first
    else
      var last := given[|given| - 1];
      if last.TokenArrives? then last.newToken else TokenAfter(first, given[..|given| - 1])
  }

  /** The call that an answer is the answer to, when `token` is in use. */
  function CallFor(job: Job, token: string, a: Action): Call {
    match a
    case TokenArrives(_) => TokenCall(job.namespace, job.account, job.podName, job.podUid)
    case TokenFails => TokenCall(job.namespace, job.account, job.podName, job.podUid)
    case FetchArrives(_) => FetchCall(token, job.spiffeId)
    case FetchFails => FetchCall(token, job.spiffeId)
    case _ => NoCall
  }

  /** From answer `from` on, every call presents the job's names, and a fetch the token then in use. */
  ghost predicate AsksRight(given: seq<Action>, asked: seq<Call>, from: nat, first: string, job: Job) {
    from <= |given| == |asked|
    && forall i :: from <= i < |given| ==> asked[i] == CallFor(job, TokenAfter(first, given[from..i]), given[i])
  }

  lemma AsksOn(given: seq<Action>, asked: seq<Call>, from: nat, first: string, job: Job, a: Action, call: Call)
    requires AsksRight(given, asked, from, first, job)
    requires call == CallFor(job, TokenAfter(first, given[from..]), a)
    ensures AsksRight(given + [a], asked + [call], from, first, job)
    ensures TokenAfter(first, (given + [a])[from..])
         == if a.TokenArrives? then a.newToken else TokenAfter(first, given[from..])
  {
    hide TokenAfter, CallFor;
    var g := given + [a];
    forall i | from <= i < |g|
      ensures (asked + [call])[i] == CallFor(job, TokenAfter(first, g[from..i]), g[i])
    {
      if i < |given| {
        assert g[from..i] == given[from..i];
      } else {
        assert g[from..i] == given[from..];
      }
    }
    TokenAfterOne(first, given[from..], a);
    assert g[from..] == given[from..] + [a];
  }

  lemma TokenAfterOne(first: string, given: seq<Action>, a: Action)
    ensures TokenAfter(first, given + [a]) == if a.TokenArrives? then a.newToken else TokenAfter(first, given)
  {
    assert (given + [a])[..|given|] == given;
  }

  /** `given` answers with the script's entries, in order and one by one. */
  ghost predicate Follows(given: seq<Action>, script: seq<Answer>) {
    forall i :: 0 <= i < |given| ==> if i < |script| then Says(script[i], given[i]) else IsEnd(given[i])
  }

  /** What is left of the script after so many answers. */
  function Rest(script: seq<Answer>, n: nat): seq<Answer> {
    if n <= |script| then script[n..] else []
  }

  lemma FollowsOn(given: seq<Action>, script: seq<Answer>, a: Action)
    requires Follows(given, script)
    requires if |given| < |script| then Says(script[|given|], a) else IsEnd(a)
    ensures Follows(given + [a], script)
    ensures Rest(script, |given + [a]|)
         == if Rest(script, |given|) == [] then [] else Rest(script, |given|)[1..]
  {
  }

  /**
   Clock, token provider, fetcher, timers and signals, following a script. When
   the script is used up the context is cancelled and every call fails at once.
   */
  class World {
    var now: Time
    var answers: seq<Answer>
    const callBound: Time
    ghost const script: seq<Answer>
    /** The answers given so far, as actions of the machine, and what each was asked with. */
    ghost var given: seq<Action>
    ghost var asked: seq<Call>

    /** What is left of the script after `spent` of an attempt's time keeps within the bound. */
    ghost predicate Fits(spent: Time)
      reads this
    {
      0 <= spent <= callBound && (answers != [] ==> spent + answers[0].took <= callBound)
    }

    ghost predicate Valid()
      reads this
    {
      IsTimely(answers, callBound) && Follows(given, script) && answers == Rest(script, |given|) && |asked| == |given|
    }

    constructor (now: Time, answers: seq<Answer>, callBound: Time)
      requires IsTimely(answers, callBound)
      ensures Valid() && this.now == now && this.answers == answers && this.callBound == callBound
      ensures script == answers && given == [] && asked == []
    {
      this.now := now;
      this.answers := answers;
      this.callBound := callBound;
      script := answers;
      given, asked := [], [];
    }

    ghost method Give(a: Action, call: Call)
      requires |asked| == |given| && Follows(given, script) && answers == (if Rest(script, |given|) == [] then [] else Rest(script, |given|)[1..])
      requires if |given| < |script| then Says(script[|given|], a) else IsEnd(a)
      modifies this`given, this`asked
      ensures given == old(given) + [a] && asked == old(asked) + [call] && Follows(given, script) && answers == Rest(script, |given|)
    {
      FollowsOn(given, script, a);
      given, asked := given + [a], asked + [call];
    }

    method RequestToken(namespace: string, account: string, podName: string, podUid: string) returns (newToken: Option<string>)
      requires Valid()
      modifies this
      ensures Valid() && Fits(now - old(now))
      ensures if old(answers) == [] then newToken == None && answers == [] && now == old(now)
              else newToken == old(answers)[0].token && answers == old(answers)[1..]
                   && now == old(now) + old(answers)[0].took
      ensures given == old(given) + [if newToken == None then TokenFails else TokenArrives(newToken.value)]
      ensures asked == old(asked) + [TokenCall(namespace, account, podName, podUid)]
    {
      newToken := None;
      if answers != [] {
        newToken, now, answers := answers[0].token, now + answers[0].took, answers[1..];
      }
      Give(if newToken == None then TokenFails else TokenArrives(newToken.value),
           TokenCall(namespace, account, podName, podUid));
    }

    method Fetch(token: string, spiffeId: string) returns (got: Option<Fetched>)
      requires Valid()
      modifies this
      ensures Valid()
      ensures if old(answers) == [] then got == None && answers == [] && now == old(now)
              else got == old(answers)[0].got && answers == old(answers)[1..]
                   && now == old(now) + old(answers)[0].took
      ensures given == old(given) + [if got == None then FetchFails else FetchArrives(got.value)]
      ensures asked == old(asked) + [FetchCall(token, spiffeId)]
    {
      got := None;
      if answers != [] {
        got, now, answers := answers[0].got, now + answers[0].took, answers[1..];
      }
      Give(if got == None then FetchFails else FetchArrives(got.value), FetchCall(token, spiffeId));
    }

    /** A select between a timer, cancellation and, where `signals`, RenewNow. */
    method Select(delay: Time, signals: bool) returns (wake: Wake)
      requires Valid()
      modifies this
      ensures Valid() && old(now) <= now <= old(now) + NotNegative(delay)
      ensures wake == Timer ==> now == old(now) + NotNegative(delay)
      ensures wake == Signal ==> signals
      ensures wake != Done ==> |answers| < |old(answers)|
      ensures |answers| <= |old(answers)|
      ensures wake == WakeSaid(old(answers), signals)
      ensures given == old(given) + [Woken(wake)] && asked == old(asked) + [NoCall]
    {
      wake := Done;
      if answers != [] {
        wake := if answers[0].wake == Signal && !signals then Timer else answers[0].wake;
        var waited := if wake == Timer then NotNegative(delay) else Least(NotNegative(answers[0].wait), NotNegative(delay));
        now, answers := now + waited, answers[1..];
      }
      Give(Woken(wake), NoCall);
    }
  }

  // ----- The certificate manager -----------------------------------------

  class ServiceAccountTokenContainer {
    var token: string

    constructor (token: string)
      ensures this.token == token
    {
      this.token := token;
    }
  }

  function TokenOf(container: ServiceAccountTokenContainer?): string
    reads container
  {
    if container == null then "" else container.token
  }

  datatype Trace = Trace(states: seq<State>, actions: seq<Action>)

  ghost predicate IsTrace(c: Settings, t: Trace): (r: bool)
    ensures r ==> t.states != []
  {
    IsRun(c, t.states, t.actions)
  }

  ghost function First(t: Trace): State
    requires t.states != []
  {
    t.states[0]
  }

  ghost function Last(t: Trace): State
    requires t.states != []
  {
    t.states[|t.states| - 1]
  }

  ghost function Grown(c: Settings, t: Trace, a: Action): Trace
    requires t.states != [] && Next(c, Last(t), a).Some?
  {
    Trace(t.states + [Next(c, Last(t), a).value], t.actions + [a])
  }

  lemma GrownIsTrace(c: Settings, t: Trace, a: Action)
    requires IsTrace(c, t) && Next(c, Last(t), a).Some?
    ensures IsTrace(c, Grown(c, t, a))
  {
    hide Next;
    var g := Grown(c, t, a);
    forall i | 0 <= i < |g.actions|
      ensures Next(c, g.states[i], g.actions[i]) == Some(g.states[i + 1])
    {
      if i < |t.actions| {
        assert Next(c, t.states[i], t.actions[i]) == Some(t.states[i + 1]);
      }
    }
  }

  lemma OutsideGrown(c: Settings, t: Trace, a: Action)
    requires t.states != [] && Next(c, Last(t), a).Some?
    ensures Outside(Grown(c, t, a).actions) == Outside(t.actions) + (if IsOutside(a) then [a] else [])
  {
    hide Next;
    assert Grown(c, t, a).actions[..|t.actions|] == t.actions;
  }

  /** Nobody holds the mutex or waits for it to write. */
  predicate Idle(s: State) {
    !s.writer && !s.waiting && !s.rotatorReads && NoReaderHolds(s)
  }

  /** Since answer `from` every call was right, and `token` is the token in use now. */
  ghost predicate OnTheJob(world: World, from: nat, first: string, job: Job, token: string)
    reads world
  {
    AsksRight(world.given, world.asked, from, first, job) && token == TokenAfter(first, world.given[from..])
  }

  class CertManager {
    const settings: Settings
    var currentCert: Option<Certificate>
    var currentPodUid: string
    /** The run of the machine that this object has performed so far. */
    ghost var trace: Trace

    ghost predicate Valid()
      reads this
    {
      IsTrace(settings, trace)
      && Last(trace).cert == currentCert && Last(trace).podUid == currentPodUid
      && Idle(Last(trace))
    }

    constructor (settings: Settings, first: Option<Fetched>, token: string, now: Time)
      ensures Valid() && this.settings == settings && |trace.states| == 1
      ensures Initial(trace.states[0]) && trace.states[0].token == token && trace.states[0].now == now
      ensures trace.states[0].published == first
    {
      this.settings := settings;
      currentCert := if first.Some? then Some(first.value.cert) else None;
      currentPodUid := if first.Some? then first.value.podUid else "";
      var start := State(now, Top, token, if first.Some? then Some(first.value.cert) else None,
                         if first.Some? then first.value.podUid else "", false, false, false, false, map[],
                         first, 0, 0, 0, 0);
      trace := Trace([start], []);
    }

    /** What the run so far has heard from outside. */
    ghost function Heard(): seq<Action>
      reads this
    {
      Outside(trace.actions)
    }

    ghost method Record(a: Action)
      requires IsTrace(settings, trace) && Next(settings, Last(trace), a).Some?
      modifies this`trace
      ensures IsTrace(settings, trace) && First(trace) == old(First(trace))
      ensures trace == Grown(settings, old(trace), a)
      ensures Last(trace) == Next(settings, Last(old(trace)), a).value
      ensures Heard() == old(Heard()) + (if IsOutside(a) then [a] else [])
    {
      GrownIsTrace(settings, trace, a);
      OutsideGrown(settings, trace, a);
      trace := Grown(settings, trace, a);
    }

    ghost method RecordTime(now: Time)
      requires IsTrace(settings, trace) && Last(trace).now <= now
      requires now == Last(trace).now || MayTick(settings, Last(trace), now - Last(trace).now)
      modifies this`trace
      ensures IsTrace(settings, trace) && First(trace) == old(First(trace)) && Heard() == old(Heard())
      ensures Last(trace) == Last(old(trace)).(now := now)
    {
      if Last(trace).now < now {
        Record(Tick(now - Last(trace).now));
      }
    }

    // ----- Reading -------------------------------------------------------

    ghost method RecordReader(id: nat)
      requires Valid() && id !in Last(trace).readers
      modifies this`trace
      ensures IsTrace(settings, trace) && First(trace) == old(First(trace)) && Heard() == old(Heard())
      ensures Last(trace) == Last(old(trace)).(readers := Last(old(trace)).readers[id := Holds])
    {
      hide AdvanceFrom, MayTick, IsTrace, IsRun, Outside;
      ghost var s := Last(trace);
      Record(Arrives(id));
      Record(Locks(id));
      assert Last(trace).readers == s.readers[id := Holds];
    }

    method GetCurrentCertificate(ghost id: nat) returns (cert: Option<Certificate>)
      requires Valid() && id !in Last(trace).readers
      modifies this`trace
      ensures Valid() && First(trace) == old(First(trace)) && Heard() == old(Heard())
      ensures cert == currentCert
      ensures Last(trace) == Last(old(trace)).(readers := Last(old(trace)).readers[id := Returned(cert)])
    {
      hide AdvanceFrom, MayTick, IsTrace, IsRun, Outside;
      ghost var s := Last(trace);
      RecordReader(id);
      cert := currentCert;
      Record(Reads(id));
      Record(Unlocks(id));
      assert Last(trace).readers == s.readers[id := Returned(cert)];
      StillIdle(s, Last(trace), id);
    }

    static lemma StillIdle(s: State, t: State, id: nat)
      requires Idle(s) && t == s.(readers := t.readers)
      requires id in t.readers && t.readers[id].Returned? && t.readers == s.readers[id := t.readers[id]]
      ensures Idle(t)
    {
      forall other <- t.readers
        ensures !ReaderHolds(t, other)
      {
        assert other != id ==> !ReaderHolds(s, other);
      }
    }

    // ----- Rotating ------------------------------------------------------

    static lemma PublishSteps(c: Settings, s: State, got: Fetched)
      requires s.pc == WantsWrite(got) && Idle(s)
      ensures var s1 := s.(waiting := true);
              var s2 := s.(pc := WritingCert(got), writer := true);
              var s3 := s2.(pc := WritingUid(got), cert := Some(got.cert), failures := 0);
              var s4 := s3.(pc := Written(got), podUid := got.podUid, published := Some(got));
              Next(c, s, Advance) == Some(s1) && Next(c, s1, Advance) == Some(s2)
              && Next(c, s2, Advance) == Some(s3) && Next(c, s3, Advance) == Some(s4)
              && Next(c, s4, Advance) == Some(s4.(pc := Top, writer := false))
    {
      hide ReadersAfter, MayTick, NoReaderHolds, SleepUntil, Usable;
      SameReaders(s, s.(waiting := true));
    }

    /** The write lock, the two assignments and the unlock. */
    method Publish(got: Fetched)
      requires Valid() && Last(trace).pc == WantsWrite(got)
      modifies this
      ensures Valid() && First(trace) == old(First(trace)) && Heard() == old(Heard())
      ensures currentCert == Some(got.cert) && currentPodUid == got.podUid
      ensures Last(trace) == Last(old(trace)).(pc := Top, cert := Some(got.cert), podUid := got.podUid,
                                               published := Some(got), failures := 0)
    {
      hide Next, IsTrace, IsRun, NoReaderHolds, Outside;
      ghost var s := Last(trace);
      PublishSteps(settings, s, got);
      Record(Advance);
      Record(Advance);
      currentCert := Some(got.cert);
      Record(Advance);
      currentPodUid := got.podUid;
      Record(Advance);
      Record(Advance);
      SameReaders(s, Last(trace));
    }

    static lemma SameReaders(s: State, t: State)
      requires NoReaderHolds(s) && s.readers == t.readers
      ensures NoReaderHolds(t)
    {
      forall id <- t.readers
        ensures !ReaderHolds(t, id)
      {
        assert !ReaderHolds(s, id);
      }
    }

    static lemma PauseSteps(c: Settings, s: State, now: Time)
      requires s.pc.Retrying? && s.now <= now
      ensures now > s.pc.until || s.now == now || MayTick(c, s, now - s.now)
      ensures now >= s.pc.until ==> Next(c, s.(now := now), TimerFires) == Some(s.(now := now, pc := Top))
      ensures Next(c, s.(now := now), Cancel) == Some(s.(now := now, cancelled := true))
      ensures Next(c, s.(now := now, cancelled := true), SeesCancel)
           == Some(s.(now := now, cancelled := true, pc := Finished))
    {
      hide ReadersAfter, AdvanceFrom;
    }

    /** The select of every failure branch: the retry delay, or cancellation. */
    method Pause(world: World, ghost from: nat, ghost first: string, ghost job: Job) returns (ended: bool)
      requires Valid() && world.Valid() && Heard() == world.given && Last(trace).now == world.now
      requires Last(trace).pc == Retrying(world.now + settings.retryDelay)
      requires OnTheJob(world, from, first, job, Last(trace).token)
      modifies this`trace, world
      ensures Valid() && world.Valid() && Heard() == world.given && First(trace) == old(First(trace))
      ensures var s := Last(old(trace)).(now := world.now);
              Last(trace) == if ended then s.(pc := Finished, cancelled := true) else s.(pc := Top)
      ensures !ended ==> |world.answers| < |old(world.answers)|
      ensures OnTheJob(world, from, first, job, Last(trace).token)
      ensures world.given == old(world.given) + [Woken(WakeSaid(old(world.answers), false))]
    {
      hide Next, MayTick, IsTrace, IsRun, NoReaderHolds, Outside, Follows, AsksRight, TokenAfter;
      ghost var s := Last(trace);
      ghost var given, asked := world.given, world.asked;
      var wake := world.Select(settings.retryDelay, false);
      AsksOn(given, asked, from, first, job, Woken(wake), NoCall);
      PauseSteps(settings, s, world.now);
      RecordTime(world.now);
      if wake == Done {
        Record(Cancel);
        Record(SeesCancel);
        ended := true;
      } else {
        Record(TimerFires);
        ended := false;
      }
      SameReaders(s, Last(trace));
    }

    static lemma LookSteps(c: Settings, s: State)
      requires s.pc == Top && Idle(s)
      ensures s.token == "" ==> Next(c, s, Advance) == Some(s.(pc := Retrying(s.now + c.retryDelay)))
      ensures s.token != "" ==>
                Next(c, s, Advance) == Some(s.(pc := WantsRead))
                && Next(c, s.(pc := WantsRead), Advance) == Some(s.(pc := Reading, rotatorReads := true))
                && Next(c, s.(pc := Reading, rotatorReads := true), Advance) == Some(s.(pc := Looked(s.cert)))
    {
      hide ReadersAfter, MayTick, NoReaderHolds, SleepUntil, Usable;
    }

    static lemma LookedSteps(c: Settings, s: State)
      requires s.pc == Looked(s.cert)
      ensures !Usable(s.cert) ==>
                Next(c, s, Advance) == Some(s.(pc := FirstFetch(s.now), fetches := s.fetches + 1))
      ensures Usable(s.cert) && s.cert.value.blocks[0] == None ==>
                Next(c, s, Advance) == Some(s.(pc := Retrying(s.now + c.retryDelay)))
      ensures Usable(s.cert) && s.cert.value.blocks[0].Some? ==>
                Next(c, s, Advance)
                == Some(s.(pc := Sleeping(SleepUntil(c, s.cert.value.blocks[0].value, s.now))))
    {
      hide ReadersAfter, MayTick, NoReaderHolds, SleepUntil;
    }

    static lemma FetchSteps(c: Settings, s: State, now: Time)
      requires (s.pc.FirstFetch? || s.pc.Fetching?) && s.now <= now <= s.pc.start + c.callBound
      ensures s.now == now || MayTick(c, s, now - s.now)
      ensures forall got :: Next(c, s.(now := now), FetchArrives(got)) == Some(s.(now := now, pc := WantsWrite(got)))
      ensures Next(c, s.(now := now), FetchFails)
           == Some(s.(now := now, pc := Retrying(now + c.retryDelay),
                      failures := s.failures + (if s.pc.Fetching? then 1 else 0)))
    {
      hide ReadersAfter, AdvanceFrom;
    }

    static lemma SleepSteps(c: Settings, s: State, now: Time)
      requires s.pc.Sleeping? && s.now <= now <= s.pc.until
      ensures s.now == now || MayTick(c, s, now - s.now)
      ensures now == s.pc.until ==>
                Next(c, s.(now := now), TimerFires)
                == Some(s.(now := now, pc := Requesting(now), requests := s.requests + 1))
      ensures Next(c, s.(now := now), RenewNow)
           == Some(s.(now := now, pc := Requesting(now), requests := s.requests + 1, renewals := s.renewals + 1))
      ensures Next(c, s.(now := now), Cancel) == Some(s.(now := now, cancelled := true))
      ensures Next(c, s.(now := now, cancelled := true), SeesCancel)
           == Some(s.(now := now, cancelled := true, pc := Finished))
    {
      hide ReadersAfter, AdvanceFrom;
    }

    static lemma TokenSteps(c: Settings, s: State, now: Time, newToken: string)
      requires s.pc.Requesting? && s.now <= now <= s.pc.start + c.callBound
      ensures s.now == now || MayTick(c, s, now - s.now)
      ensures Next(c, s.(now := now), TokenFails)
           == Some(s.(now := now, pc := Retrying(now + c.retryDelay), failures := s.failures + 1))
      ensures Next(c, s.(now := now), TokenArrives(newToken))
           == Some(s.(now := now, pc := Storing(s.pc.start, newToken)))
      ensures Next(c, s.(now := now, pc := Storing(s.pc.start, newToken)), Advance)
           == Some(s.(now := now, pc := Fetching(s.pc.start), token := newToken, fetches := s.fetches + 1))
    {
      hide ReadersAfter, NoReaderHolds, SleepUntil, Usable;
    }

    /** A fetch, then either publishing what it returned or the pause after a failure. */
    method FetchAndPublish(world: World, token: ServiceAccountTokenContainer, ghost from: nat, ghost first: string,
                           job: Job)
      returns (ended: bool)
      requires Valid() && world.Valid() && Heard() == world.given && world.callBound == settings.callBound
      requires Last(trace).pc.FirstFetch? || Last(trace).pc.Fetching?
      requires Last(trace).now == world.now && world.Fits(world.now - Last(trace).pc.start)
      requires Last(trace).token == token.token
      requires OnTheJob(world, from, first, job, Last(trace).token)
      modifies this, world
      ensures Valid() && world.Valid() && Heard() == world.given && First(trace) == old(First(trace))
      ensures Last(trace).now == world.now && Last(trace).token == token.token
      ensures if ended then Last(trace).pc == Finished && Last(trace).cancelled else Last(trace).pc == Top
      ensures !ended ==> |world.answers| < |old(world.answers)|
      ensures OnTheJob(world, from, first, job, Last(trace).token)
    {
      hide Next, MayTick, IsTrace, IsRun, NoReaderHolds, Outside, Follows, AsksRight, TokenAfter;
      ghost var s := Last(trace);
      ghost var given, asked := world.given, world.asked;
      var result := world.Fetch(token.token, job.spiffeId);
      AsksOn(given, asked, from, first, job, if result == None then FetchFails else FetchArrives(result.value),
             FetchCall(token.token, job.spiffeId));
      FetchSteps(settings, s, world.now);
      RecordTime(world.now);
      if result == None {
        Record(FetchFails);
        SameReaders(s, Last(trace));
        ended := Pause(world, from, first, job);
      } else {
        Record(FetchArrives(result.value));
        SameReaders(s, Last(trace));
        Publish(result.value);
        ended := false;
      }
    }

    ghost method RecordNoToken()
      requires Valid() && Last(trace).pc == Top && Last(trace).token == ""
      modifies this`trace
      ensures Valid() && First(trace) == old(First(trace)) && Heard() == old(Heard())
      ensures var s := Last(old(trace)); Last(trace) == s.(pc := Retrying(s.now + settings.retryDelay))
    {
      hide Next, MayTick, IsTrace, IsRun, NoReaderHolds, Outside, Follows, AsksRight, TokenAfter;
      ghost var s := Last(trace);
      LookSteps(settings, s);
      Record(Advance);
      SameReaders(s, Last(trace));
    }

    /** Where a look at the certificate leads. */
    static function Found(c: Settings, s: State): State {
      if !Usable(s.cert) then s.(pc := FirstFetch(s.now), fetches := s.fetches + 1)
      else
        match s.cert.value.blocks[0]
        case None => s.(pc := Retrying(s.now + c.retryDelay))
        case Some(leaf) => s.(pc := Sleeping(SleepUntil(c, leaf, s.now)))
    }

    /** The read lock, the look at the certificate and what is decided by it. */
    ghost method RecordLook()
      requires Valid() && Last(trace).pc == Top && Last(trace).token != ""
      modifies this`trace
      ensures Valid() && First(trace) == old(First(trace)) && Heard() == old(Heard())
      ensures Last(trace) == Found(settings, Last(old(trace)))
    {
      hide Next, MayTick, IsTrace, IsRun, NoReaderHolds, Outside, Follows, AsksRight, TokenAfter, SleepUntil;
      ghost var s := Last(trace);
      LookSteps(settings, s);
      Record(Advance);
      Record(Advance);
      Record(Advance);
      LookedSteps(settings, Last(trace));
      Record(Advance);
      SameReaders(s, Last(trace));
    }

    /** The select before a renewal. */
    method Sleep(world: World, sleepDuration: Time, ghost from: nat, ghost first: string, ghost job: Job)
      returns (ended: bool)
      requires Valid() && world.Valid() && Heard() == world.given && Last(trace).now == world.now && sleepDuration > 0
      requires Last(trace).pc == Sleeping(world.now + sleepDuration)
      requires OnTheJob(world, from, first, job, Last(trace).token)
      modifies this`trace, world
      ensures Valid() && world.Valid() && Heard() == world.given && First(trace) == old(First(trace))
      ensures Last(trace).now == world.now && Last(trace).token == Last(old(trace)).token
      ensures if ended then Last(trace).pc == Finished && Last(trace).cancelled
              else Last(trace).pc == Requesting(world.now)
      ensures !ended ==> |world.answers| < |old(world.answers)|
      ensures OnTheJob(world, from, first, job, Last(trace).token)
      ensures world.given == old(world.given) + [Woken(WakeSaid(old(world.answers), true))]
      ensures WakeSaid(old(world.answers), true) == Timer ==> world.now == old(world.now) + sleepDuration
    {
      hide Next, MayTick, IsTrace, IsRun, NoReaderHolds, Outside, Follows, AsksRight, TokenAfter;
      ghost var s := Last(trace);
      ghost var given, asked := world.given, world.asked;
      var wake := world.Select(sleepDuration, true);
      AsksOn(given, asked, from, first, job, Woken(wake), NoCall);
      SleepSteps(settings, s, world.now);
      RecordTime(world.now);
      if wake == Done {
        Record(Cancel);
        Record(SeesCancel);
      } else {
        Record(Woken(wake));
      }
      ended := wake == Done;
      SameReaders(s, Last(trace));
    }

    /** A new token, and with it a new certificate. */
    method Renew(world: World, token: ServiceAccountTokenContainer, ghost from: nat, ghost first: string, job: Job)
      returns (ended: bool)
      requires Valid() && world.Valid() && Heard() == world.given && world.callBound == settings.callBound
      requires Last(trace).pc == Requesting(world.now)
      requires Last(trace).now == world.now && Last(trace).token == token.token
      requires OnTheJob(world, from, first, job, Last(trace).token)
      modifies this, world, token
      ensures Valid() && world.Valid() && Heard() == world.given && First(trace) == old(First(trace))
      ensures Last(trace).now == world.now && Last(trace).token == token.token
      ensures if ended then Last(trace).pc == Finished && Last(trace).cancelled else Last(trace).pc == Top
      ensures !ended ==> |world.answers| < |old(world.answers)|
      ensures OnTheJob(world, from, first, job, Last(trace).token)
    {
      hide Next, MayTick, IsTrace, IsRun, NoReaderHolds, Outside, Follows, AsksRight, TokenAfter;
      ghost var s := Last(trace);
      ghost var given, asked := world.given, world.asked;
      var newToken := world.RequestToken(job.namespace, job.account, job.podName, job.podUid);
      AsksOn(given, asked, from, first, job, if newToken == None then TokenFails else TokenArrives(newToken.value),
             TokenCall(job.namespace, job.account, job.podName, job.podUid));
      TokenSteps(settings, s, world.now, OrEmpty(newToken));
      RecordTime(world.now);
      if newToken == None {
        Record(TokenFails);
        SameReaders(s, Last(trace));
        ended := Pause(world, from, first, job);
      } else {
        Record(TokenArrives(newToken.value));
        token.token := newToken.value;
        Record(Advance);
        SameReaders(s, Last(trace));
        ended := FetchAndPublish(world, token, from, first, job);
      }
    }

    /**
     The endless loop. It performs a run of the machine in which what comes from
     outside is what the world has said, answer by answer, and it returns only
     once cancellation has been seen.
     */
    method StartRotation(world: World, token: ServiceAccountTokenContainer?, job: Job)
      requires Valid() && world.Valid() && Heard() == world.given && world.callBound == settings.callBound
      requires Last(trace).pc == Top && Last(trace).now == world.now && Last(trace).token == TokenOf(token)
      modifies this, world, if token == null then {} else {token}
      ensures Valid() && world.Valid() && Heard() == world.given && First(trace) == old(First(trace))
      ensures Last(trace).pc == Finished && Last(trace).cancelled
      ensures Last(trace).now == world.now && Last(trace).token == TokenOf(token)
      ensures AsksRight(world.given, world.asked, |old(world.given)|, old(TokenOf(token)), job)
      ensures TokenOf(token) == TokenAfter(old(TokenOf(token)), world.given[|old(world.given)|..])
    {
      hide Next, MayTick, IsTrace, IsRun, NoReaderHolds, Outside, Follows, AsksRight, TokenAfter, SleepUntil;
      ghost var from, first := |world.given|, TokenOf(token);
      NothingAsked(world, first, job);
      while true
        invariant Valid() && world.Valid() && Heard() == world.given && First(trace) == old(First(trace))
        invariant OnTheJob(world, from, first, job, Last(trace).token)
        invariant Last(trace).pc == Top && Last(trace).now == world.now && Last(trace).token == TokenOf(token)
        decreases |world.answers|
      {
        if token == null || token.token == "" {
          RecordNoToken();
          var ended := Pause(world, from, first, job);
          if ended { return; }
          continue;
        }

        var needsFetch := currentCert == None || currentCert.value.blocks == [];
        var certDER := if needsFetch then None else currentCert.value.blocks[0];
        RecordLook();

        if needsFetch {
          var ended := FetchAndPublish(world, token, from, first, job);
          if ended { return; }
          continue;
        }

        if certDER == None {
          var ended := Pause(world, from, first, job);
          if ended { return; }
          continue;
        }

        var window := settings.renewalWindow;
        if window == 0 {
          window := DEFAULT_WINDOW;
        }
        var renewTime := certDER.value.notAfter - window;
        var sleepDuration := renewTime - world.now;
        if sleepDuration <= 0 {
          sleepDuration := PAST_DUE;
        }
        SleepIs(settings, certDER.value, world.now, sleepDuration);
        var stopped := Sleep(world, sleepDuration, from, first, job);
        if stopped { return; }
        var ended := Renew(world, token, from, first, job);
        if ended { return; }
      }
    }

    lemma NothingAsked(world: World, first: string, job: Job)
      requires world.Valid()
      ensures OnTheJob(world, |world.given|, first, job, first)
    {
    }

    static lemma SleepIs(c: Settings, leaf: Leaf, now: Time, duration: Time)
      requires var renewal := leaf.notAfter - Window(c);
               duration == if renewal - now <= 0 then PAST_DUE else renewal - now
      ensures SleepUntil(c, leaf, now) == now + duration && duration > 0
    {
    }
  }

  /**
   Whatever the world answered, the fields end up as one fetch left them: both
   are those of the fetch published last, or of the start if there was none.
   */
  lemma FieldsComeFromOneFetch(m: CertManager)
    requires m.Valid() && Initial(First(m.trace))
    ensures Safe(Last(m.trace))
    ensures match Last(m.trace).published
            case None => m.currentCert == None
            case Some(f) => m.currentCert == Some(f.cert) && m.currentPodUid == f.podUid
  {
    hide Next, Initial, NoReaderHolds;
    SafeAlways(m.settings, m.trace.states, m.trace.actions, |m.trace.states| - 1);
  }
}
