/**
 The timing of rotation: no expired certificate is served while failures stay
 within what the renewal window allows.
 */
module RotationTime {
  import opened Text
  import opened Rotation
  import opened RotationSafety

  // ----- No expired certificate ------------------------------------------

  /** The longest one failed attempt delays the start of the next one. */
  function Delay(c: Settings): Time {
    c.retryDelay + PAST_DUE + c.callBound
  }

  /** The latest start of the attempt that follows `f` failures in a row, for a certificate valid until `notAfter`. */
  function LatestStart(c: Settings, notAfter: Time, f: nat): Time {
    notAfter - Window(c) + f * Delay(c)
  }

  predicate SoundSettings(c: Settings, k: nat) {
    c.retryDelay >= 0 && c.callBound >= 0 && k * Delay(c) + c.callBound < Window(c)
  }

  function NotAfter(cert: Certificate): Time
    requires Parses(cert)
  {
    cert.blocks[0].value.notAfter
  }

  /** A certificate issued during the attempt that began at `start`, living longer than the window and the attempt. */
  predicate LongLived(c: Settings, got: Fetched, start: Time) {
    Parses(got.cert) && start <= got.issued && NotAfter(got.cert) - got.issued > Window(c) + c.callBound
  }

  /** What is assumed of the environment's answers in state `s`: tokens are not empty, and certificates live long enough. */
  predicate FairAnswer(c: Settings, s: State, a: Action) {
    (a.TokenArrives? ==> a.newToken != "")
    && (a.FetchArrives? && (s.pc.Fetching? || s.pc.FirstFetch?) ==> LongLived(c, a.got, s.pc.start))
  }

  predicate Holding(c: Settings, s: State, notAfter: Time) {
    var f := s.failures;
    match s.pc
    case Sleeping(until) => s.now <= until <= LatestStart(c, notAfter, f)
    case Requesting(start) => start <= LatestStart(c, notAfter, f) && start <= s.now <= start + c.callBound
    case Storing(start, newToken) => newToken != "" && start <= LatestStart(c, notAfter, f) && start <= s.now <= start + c.callBound
    case Fetching(start) => start <= LatestStart(c, notAfter, f) && start <= s.now <= start + c.callBound
    case WantsWrite(got) => s.now <= LatestStart(c, notAfter, f) + c.callBound && NotYetDue(c, got.cert, s.now)
    case WritingCert(got) => s.now <= LatestStart(c, notAfter, f) + c.callBound && NotYetDue(c, got.cert, s.now)
    case WritingUid(got) => s.now < LatestStart(c, notAfter, 0)
    case Written(_) => s.now < LatestStart(c, notAfter, 0)
    case Retrying(until) => s.now <= until && until + PAST_DUE <= LatestStart(c, notAfter, f)
    case FirstFetch(_) => false
    case Finished => true
    case _ => s.now < LatestStart(c, notAfter, 0) || s.now + PAST_DUE <= LatestStart(c, notAfter, f)
  }

  predicate NotYetDue(c: Settings, cert: Certificate, now: Time) {
    Parses(cert) && now < NotAfter(cert) - Window(c)
  }

  /** The invariant of the timed run: before the first certificate, and with one. */
  predicate Timely(c: Settings, s: State) {
    && s.token != ""
    && ParsedThroughout(s)
    && Safe(s)
    && match s.cert
       case Some(cert) => Holding(c, s, NotAfter(cert))
       case None => FirstPhase(c, s)
  }

  /** Before the first certificate only the first fetch, its publication and its retries happen. */
  predicate FirstPhase(c: Settings, s: State) {
    match s.pc
    case Sleeping(_) => false
    case Requesting(_) => false
    case Storing(_, _) => false
    case Fetching(_) => false
    case WantsWrite(got) => NotYetDue(c, got.cert, s.now)
    case WritingCert(got) => NotYetDue(c, got.cert, s.now)
    case WritingUid(_) => false
    case Written(_) => false
    case FirstFetch(start) => start <= s.now <= start + c.callBound
    case _ => true
  }

  /** One more failure, or none, still leaves the start before the bound. */
  lemma LaterStart(c: Settings, notAfter: Time, f: nat)
    requires c.retryDelay >= 0 && c.callBound >= 0
    ensures LatestStart(c, notAfter, f + 1) == LatestStart(c, notAfter, f) + Delay(c)
    ensures LatestStart(c, notAfter, 0) == notAfter - Window(c)
    ensures LatestStart(c, notAfter, 0) <= LatestStart(c, notAfter, f)
  {
    assert (f + 1) * Delay(c) == f * Delay(c) + Delay(c);
    assert 0 <= f * Delay(c);
  }

  lemma StartWithin(c: Settings, notAfter: Time, f: nat, k: nat)
    requires SoundSettings(c, k) && f <= k
    ensures LatestStart(c, notAfter, f) + c.callBound < notAfter
  {
    assert f * Delay(c) <= k * Delay(c);
  }

  lemma TimelyAdvance(c: Settings, s: State)
    requires c.retryDelay >= 0 && c.callBound >= 0 && Timely(c, s) && AdvanceFrom(c, s).Some?
    ensures var t := AdvanceFrom(c, s).value;
            WithinBounds(c, t)
  {
    hide LatestStart;
    var t := AdvanceFrom(c, s).value;
    if s.cert.Some? {
      LaterStart(c, NotAfter(s.cert.value), s.failures);
    }
    if t.cert.Some? && Parses(t.cert.value) {
      LaterStart(c, NotAfter(t.cert.value), t.failures);
    }
  }

  lemma TimelyStep(c: Settings, s: State, a: Action)
    requires c.retryDelay >= 0 && c.callBound >= 0 && Timely(c, s)
    requires Next(c, s, a).Some? && FairAnswer(c, s, a)
    ensures Timely(c, Next(c, s, a).value)
  {
    hide LatestStart, Safe, ParsedThroughout, AdvanceFrom, Holding, FirstPhase, FairAnswer, ReadersAfter;
    SafeStep(c, s, a);
    if a.FetchArrives? { FairParses(c, s, a); }
    ParsedStep(c, s, a);
    var t := Next(c, s, a).value;
    CertsParse(s);
    CertsParse(t);
    if a == Advance {
      TimelyAdvance(c, s);
      TokenAfterAdvance(c, s);
    } else {
      TimelyAnswer(c, s, a);
    }
  }

  predicate WithinBounds(c: Settings, s: State) {
    match s.cert
    case Some(cert) => Parses(cert) ==> Holding(c, s, NotAfter(cert))
    case None => FirstPhase(c, s)
  }

  /** Steps other than the goroutine's own keep the certificate, and the bounds. */
  lemma TimelyAnswer(c: Settings, s: State, a: Action)
    requires c.retryDelay >= 0 && c.callBound >= 0 && Timely(c, s)
    requires a != Advance && Next(c, s, a).Some? && FairAnswer(c, s, a)
    ensures var t := Next(c, s, a).value;
            t.token == s.token && t.cert == s.cert && WithinBounds(c, t)
  {
    hide LatestStart, Safe, AdvanceFrom, ParsedThroughout, WithinBounds, Holding, FirstPhase, FairAnswer, MayTick, ReadersAfter;
    match a {
      case Tick(dt) => TimelyTick(c, s, dt);
      case TimerFires => TimelyWake(c, s, a);
      case RenewNow => TimelyWake(c, s, a);
      case SeesCancel => TimelyWake(c, s, a);
      case TokenFails => TimelyFailure(c, s, a);
      case FetchFails => TimelyFailure(c, s, a);
      case TokenArrives(_) => TimelyToken(c, s, a);
      case FetchArrives(got) => TimelyFetch(c, s, got);
      case Cancel => SamePlace(c, s, Next(c, s, a).value);
      case Arrives(_) => SamePlace(c, s, Next(c, s, a).value);
      case Locks(_) => SamePlace(c, s, Next(c, s, a).value);
      case Reads(_) => SamePlace(c, s, Next(c, s, a).value);
      case Unlocks(_) => SamePlace(c, s, Next(c, s, a).value);
    }
  }

  lemma TimelyTick(c: Settings, s: State, dt: Time)
    requires c.callBound >= 0 && Timely(c, s) && Next(c, s, Tick(dt)).Some?
    ensures WithinBounds(c, Next(c, s, Tick(dt)).value)
  {
    hide LatestStart, Safe, AdvanceFrom, ParsedThroughout, Window;
    CertsParse(s);
  }

  lemma TimelyWake(c: Settings, s: State, a: Action)
    requires c.retryDelay >= 0 && c.callBound >= 0 && Timely(c, s) && Next(c, s, a).Some?
    requires a == TimerFires || a == RenewNow || a == SeesCancel
    ensures WithinBounds(c, Next(c, s, a).value)
  {
    hide LatestStart, Safe, AdvanceFrom, ParsedThroughout, Window;
    CertsParse(s);
  }

  lemma TimelyFailure(c: Settings, s: State, a: Action)
    requires c.retryDelay >= 0 && c.callBound >= 0 && Timely(c, s) && Next(c, s, a).Some?
    requires a == TokenFails || a == FetchFails
    ensures WithinBounds(c, Next(c, s, a).value)
  {
    hide LatestStart, Safe, AdvanceFrom, ParsedThroughout, Window;
    CertsParse(s);
    if s.cert.Some? {
      LaterStart(c, NotAfter(s.cert.value), s.failures);
    }
  }

  lemma TimelyToken(c: Settings, s: State, a: Action)
    requires Timely(c, s) && Next(c, s, a).Some? && a.TokenArrives? && FairAnswer(c, s, a)
    ensures WithinBounds(c, Next(c, s, a).value)
  {
    hide LatestStart, Safe, AdvanceFrom, ParsedThroughout, Window;
    CertsParse(s);
  }

  lemma SamePlace(c: Settings, s: State, t: State)
    requires Timely(c, s) && s.(readers := t.readers, cancelled := t.cancelled) == t
    ensures WithinBounds(c, t)
  {
  }

  lemma TimelyFetch(c: Settings, s: State, got: Fetched)
    requires Timely(c, s) && Next(c, s, FetchArrives(got)).Some? && FairAnswer(c, s, FetchArrives(got))
    ensures WithinBounds(c, Next(c, s, FetchArrives(got)).value)
  {
    hide LatestStart, Safe, AdvanceFrom, ParsedThroughout, Window;
    CertsParse(s);
  }

  lemma FairParses(c: Settings, s: State, a: Action)
    requires FairAnswer(c, s, a) && Next(c, s, a).Some? && a.FetchArrives?
    ensures Parses(a.got.cert)
  {
    hide AdvanceFrom;
  }

  lemma CertsParse(s: State)
    requires ParsedThroughout(s)
    ensures s.cert.Some? ==> Parses(s.cert.value)
  {
  }

  lemma TokenAfterAdvance(c: Settings, s: State)
    requires Timely(c, s) && AdvanceFrom(c, s).Some?
    ensures AdvanceFrom(c, s).value.token != ""
  {
  }

  /** The goroutine starts with a token, and with a certificate that is not yet due or with none. */
  predicate StartsFresh(c: Settings, s: State) {
    Initial(s) && s.token != "" && (s.cert.Some? ==> NotYetDue(c, s.cert.value, s.now))
  }

  lemma TimelyInitially(c: Settings, s: State)
    requires StartsFresh(c, s)
    ensures Timely(c, s)
  {
    if s.cert.Some? {
      assert 0 * Delay(c) == 0;
    }
  }

  lemma {:induction false} TimelyAlways(c: Settings, states: seq<State>, actions: seq<Action>, i: nat)
    requires IsRun(c, states, actions) && i < |states| && StartsFresh(c, states[0])
    requires c.retryDelay >= 0 && c.callBound >= 0
    requires forall j :: 0 <= j < |actions| ==> FairAnswer(c, states[j], actions[j])
    ensures Timely(c, states[i])
  {
    hide Timely, Next, StartsFresh, FairAnswer;
    if i == 0 {
      TimelyInitially(c, states[0]);
    } else {
      TimelyAlways(c, states, actions, i - 1);
      assert Next(c, states[i - 1], actions[i - 1]) == Some(states[i - 1 + 1]);
      TimelyStep(c, states[i - 1], actions[i - 1]);
    }
  }

  /**
   No run of the goroutine serves an expired certificate while no more than `k` attempts in a row have failed, with
   renewal on demand allowed at any time and any readers.
   */
  lemma NoExpiredCertificate(c: Settings, k: nat, states: seq<State>, actions: seq<Action>, i: nat)
    requires IsRun(c, states, actions) && i < |states| && StartsFresh(c, states[0]) && SoundSettings(c, k)
    requires forall j :: 0 <= j < |actions| ==> FairAnswer(c, states[j], actions[j])
    requires states[i].failures <= k
    ensures states[i].cert.Some? && !states[i].pc.Finished? ==>
              Parses(states[i].cert.value) && states[i].now < NotAfter(states[i].cert.value)
  {
    hide StartsFresh, FairAnswer, LatestStart, Safe, ParsedThroughout;
    TimelyAlways(c, states, actions, i);
    var s := states[i];
    CertsParse(s);
    if s.cert.Some? {
      StartWithin(c, NotAfter(s.cert.value), s.failures, k);
      StartWithin(c, NotAfter(s.cert.value), 0, k);
    }
  }
}
