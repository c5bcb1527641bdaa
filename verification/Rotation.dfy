/**
 Certificate rotation as a state machine: the rotation goroutine, any number of
 TLS readers, the read-write mutex between them, the clock, and an environment
 that answers calls, asks for renewal and cancels.
 */
module Rotation {
  import opened Text

  /** Nanoseconds, as in Go's durations. */
  type Time = int

  const SECOND: Time := 1_000_000_000
  /** The wait when the renewal time has already passed. */
  const PAST_DUE: Time := 10 * SECOND
  const DEFAULT_WINDOW: Time := 300 * SECOND

  datatype Leaf = Leaf(notAfter: Time, commonName: string)

  /** A TLS certificate: its blocks, each with what parsing it gives. */
  datatype Certificate = Certificate(blocks: seq<Option<Leaf>>)

  /** What a successful fetch returns; `issued` is when the certificate was issued. */
  datatype Fetched = Fetched(cert: Certificate, podUid: string, issued: Time)

  /** The settings of a rotation; `callBound` bounds the token request and the fetch of one attempt together. */
  datatype Settings = Settings(retryDelay: Time, renewalWindow: Time, callBound: Time)

  function Window(c: Settings): Time {
    if c.renewalWindow == 0 then DEFAULT_WINDOW else c.renewalWindow
  }

  // ----- State -----------------------------------------------------------

  /** Where the rotation goroutine is. */
  datatype Pc =
    | Top
    | WantsRead
    | Reading
    | Looked(seen: Option<Certificate>)
    | FirstFetch(start: Time)
    | Sleeping(until: Time)
    | Requesting(start: Time)
    | Storing(start: Time, newToken: string)
    | Fetching(start: Time)
    | WantsWrite(got: Fetched)
    | WritingCert(got: Fetched)
    | WritingUid(got: Fetched)
    | Written(got: Fetched)
    | Retrying(until: Time)
    | Finished

  /** Where a TLS reader is. */
  datatype Reader = Wants | Holds | Has(value: Option<Certificate>) | Returned(value: Option<Certificate>)

  /**
   `writer`, `waiting` and `rotatorReads` are the rotation goroutine's part of
   the mutex; the readers that hold it are those at `Holds` or `Has`.
   The last five fields record history and influence nothing.
   */
  datatype State = State(
    now: Time,
    pc: Pc,
    token: string,
    cert: Option<Certificate>,
    podUid: string,
    cancelled: bool,
    writer: bool,
    waiting: bool,
    rotatorReads: bool,
    readers: map<nat, Reader>,
    published: Option<Fetched>,
    failures: nat,
    fetches: nat,
    requests: nat,
    renewals: nat)

  predicate ReaderHolds(s: State, id: nat) {
    id in s.readers && (s.readers[id].Holds? || s.readers[id].Has?)
  }

  predicate NoReaderHolds(s: State) {
    forall id <- s.readers :: !ReaderHolds(s, id)
  }

  predicate Usable(c: Option<Certificate>) {
    c.Some? && c.value.blocks != []
  }

  // ----- Steps -----------------------------------------------------------

  datatype Action =
    | Tick(dt: Time)
    | Advance
    | TokenArrives(newToken: string)
    | TokenFails
    | FetchArrives(got: Fetched)
    | FetchFails
    | TimerFires
    | RenewNow
    | SeesCancel
    | Cancel
    | Arrives(id: nat)
    | Locks(id: nat)
    | Reads(id: nat)
    | Unlocks(id: nat)

  /** Time passes only while the goroutine waits or is inside a call, and not past a timer or a call's bound. */
  predicate MayTick(c: Settings, s: State, dt: Time) {
    dt > 0
    && match s.pc
       case Sleeping(until) => s.now + dt <= until
       case Retrying(until) => s.now + dt <= until
       case FirstFetch(start) => s.now + dt <= start + c.callBound
       case Requesting(start) => s.now + dt <= start + c.callBound
       case Fetching(start) => s.now + dt <= start + c.callBound
       case Finished => true
       case _ => false
  }

  /** The deadline of the sleep before a renewal. */
  function SleepUntil(c: Settings, leaf: Leaf, now: Time): Time {
    var renewal := leaf.notAfter - Window(c);
    if renewal - now <= 0 then now + PAST_DUE else renewal
  }

  /** The goroutine's next step where it waits for nothing but the mutex. */
  function AdvanceFrom(c: Settings, s: State): Option<State> {
    match s.pc
    case Top =>
      Some(if s.token == "" then s.(pc := Retrying(s.now + c.retryDelay)) else s.(pc := WantsRead))
    case WantsRead =>
      if s.writer || s.waiting then None else Some(s.(pc := Reading, rotatorReads := true))
    case Reading =>
      Some(s.(pc := Looked(s.cert), rotatorReads := false))
    case Looked(seen) =>
      if !Usable(seen) then Some(s.(pc := FirstFetch(s.now), fetches := s.fetches + 1))
      else
        (match seen.value.blocks[0]
         case None => Some(s.(pc := Retrying(s.now + c.retryDelay)))
         case Some(leaf) => Some(s.(pc := Sleeping(SleepUntil(c, leaf, s.now)))))
    case Storing(start, newToken) =>
      Some(s.(pc := Fetching(start), token := newToken, fetches := s.fetches + 1))
    case WantsWrite(got) =>
      if !s.waiting then Some(s.(waiting := true))
      else if s.writer || s.rotatorReads || !NoReaderHolds(s) then None
      else Some(s.(pc := WritingCert(got), writer := true, waiting := false))
    case WritingCert(got) =>
      Some(s.(pc := WritingUid(got), cert := Some(got.cert), failures := 0))
    case WritingUid(got) =>
      Some(s.(pc := Written(got), podUid := got.podUid, published := Some(got)))
    case Written(_) =>
      Some(s.(pc := Top, writer := false))
    case _ => None
  }

  /** The wake-up that leads to a token request. */
  function Wake(s: State): State {
    s.(pc := Requesting(s.now), requests := s.requests + 1)
  }

  function Fail(c: Settings, s: State): State {
    s.(pc := Retrying(s.now + c.retryDelay), failures := s.failures + 1)
  }

  /** The readers after one of their own steps. */
  function ReadersAfter(s: State, a: Action): Option<map<nat, Reader>> {
    match a
    case Arrives(id) =>
      if id in s.readers && !s.readers[id].Returned? then None else Some(s.readers[id := Wants])
    case Locks(id) =>
      if id in s.readers && s.readers[id].Wants? && !s.writer && !s.waiting then Some(s.readers[id := Holds]) else None
    case Reads(id) =>
      if id in s.readers && s.readers[id].Holds? then Some(s.readers[id := Has(s.cert)]) else None
    case Unlocks(id) =>
      if id in s.readers && s.readers[id].Has? then Some(s.readers[id := Returned(s.readers[id].value)]) else None
    case _ => None
  }

  /** One step of the system, or `None` where the action is not possible. */
  function Next(c: Settings, s: State, a: Action): Option<State> {
    match a
    case Tick(dt) => if MayTick(c, s, dt) then Some(s.(now := s.now + dt)) else None
    case Advance => AdvanceFrom(c, s)
    case TokenArrives(newToken) =>
      if s.pc.Requesting? then Some(s.(pc := Storing(s.pc.start, newToken))) else None
    case TokenFails =>
      if s.pc.Requesting? then Some(Fail(c, s)) else None
    case FetchArrives(got) =>
      if s.pc.FirstFetch? || s.pc.Fetching? then Some(s.(pc := WantsWrite(got))) else None
    case FetchFails =>
      if s.pc.Fetching? then Some(Fail(c, s))
      else if s.pc.FirstFetch? then Some(s.(pc := Retrying(s.now + c.retryDelay)))
      else None
    case TimerFires =>
      if s.pc.Sleeping? && s.now >= s.pc.until then Some(Wake(s))
      else if s.pc.Retrying? && s.now >= s.pc.until then Some(s.(pc := Top))
      else None
    case RenewNow =>
      if s.pc.Sleeping? then Some(Wake(s).(renewals := s.renewals + 1)) else None
    case SeesCancel =>
      if s.cancelled && (s.pc.Sleeping? || s.pc.Retrying?) then Some(s.(pc := Finished)) else None
    case Cancel => Some(s.(cancelled := true))
    case _ =>
      match ReadersAfter(s, a)
      case Some(readers) => Some(s.(readers := readers))
      case None => None
  }

  // ----- Runs ------------------------------------------------------------

  /** The states of a run and the actions between them. */
  ghost predicate IsRun(c: Settings, states: seq<State>, actions: seq<Action>) {
    |states| == |actions| + 1
    && forall i :: 0 <= i < |actions| ==> Next(c, states[i], actions[i]) == Some(states[i + 1])
  }

  /** The state in which the proxy starts the goroutine: fresh mutex, a token, and perhaps a first certificate. */
  predicate Initial(s: State) {
    s.pc == Top && !s.writer && !s.waiting && !s.rotatorReads && s.readers == map[] && !s.cancelled
    && s.failures == 0 && s.fetches == 0 && s.requests == 0 && s.renewals == 0
    && match s.published
       case None => s.cert == None
       case Some(f) => s.cert == Some(f.cert) && s.podUid == f.podUid
  }

  /** The fetched result that the goroutine is publishing. */
  function Publishing(pc: Pc): Option<Fetched> {
    match pc
    case WantsWrite(got) => Some(got)
    case WritingCert(got) => Some(got)
    case WritingUid(got) => Some(got)
    case Written(got) => Some(got)
    case _ => None
  }

  lemma AdvanceIsNext(c: Settings, s: State)
    ensures Next(c, s, Advance) == AdvanceFrom(c, s)
  {
  }

  /** What steps other than the goroutine's own can change. */
  lemma AnswerEffect(c: Settings, s: State, a: Action)
    requires a != Advance && Next(c, s, a).Some?
    ensures var t := Next(c, s, a).value;
            && t.cert == s.cert && t.podUid == s.podUid && t.published == s.published && t.token == s.token
            && Publishing(t.pc) == (if a.FetchArrives? then Some(a.got) else Publishing(s.pc))
            && (t.pc.Storing? ==> (a.TokenArrives? && t.pc.newToken == a.newToken) || t.pc == s.pc)
            && (t.pc.Looked? ==> t.pc == s.pc)
  {
    hide AdvanceFrom, ReadersAfter, MayTick, Usable, NoReaderHolds;
    match a {
      case Tick(_) =>
      case TokenArrives(_) =>
      case TokenFails =>
      case FetchArrives(_) =>
      case FetchFails =>
      case TimerFires =>
      case RenewNow =>
      case SeesCancel =>
      case Cancel =>
      case Arrives(_) =>
      case Locks(_) =>
      case Reads(_) =>
      case Unlocks(_) =>
    }
  }

  // ----- Safety under every interleaving ---------------------------------

  predicate InsideLock(pc: Pc) {
    pc.WritingCert? || pc.WritingUid? || pc.Written?
  }

  /** Certificate and pod UID are those of one fetch, except between the two writes. */
  predicate Coherent(s: State) {
    match s.pc
    case WritingUid(got) => s.cert == Some(got.cert)
    case _ =>
      match s.published
      case None => s.cert == None
      case Some(f) => s.cert == Some(f.cert) && s.podUid == f.podUid
  }

  predicate Safe(s: State) {
    && Coherent(s)
    && (s.pc.Written? ==> s.published == Some(s.pc.got))
    // the mutex is held exactly where the program is between taking and releasing it
    && (s.writer <==> InsideLock(s.pc))
    && (s.rotatorReads <==> s.pc.Reading?)
    && (s.waiting ==> s.pc.WantsWrite?)
    // and no reader holds it together with the writer
    && (s.writer ==> NoReaderHolds(s))
    && (s.pc.Looked? ==> s.pc.seen == s.cert)
  }

  lemma SafeInitially(s: State)
    requires Initial(s)
    ensures Safe(s)
  {
  }

  lemma SafeAdvance(c: Settings, s: State)
    requires Safe(s) && AdvanceFrom(c, s).Some?
    ensures Safe(AdvanceFrom(c, s).value)
  {
    hide SleepUntil, Usable;
  }

  lemma SafeReaders(s: State, a: Action)
    requires Safe(s) && ReadersAfter(s, a).Some?
    ensures Safe(s.(readers := ReadersAfter(s, a).value))
  {
  }

  lemma SafeStep(c: Settings, s: State, a: Action)
    requires Safe(s) && Next(c, s, a).Some?
    ensures Safe(Next(c, s, a).value)
  {
    hide AdvanceFrom, ReadersAfter, MayTick;
    if a == Advance {
      SafeAdvance(c, s);
    } else if a.Arrives? || a.Locks? || a.Reads? || a.Unlocks? {
      SafeReaders(s, a);
    }
  }

  lemma {:induction false} SafeAlways(c: Settings, states: seq<State>, actions: seq<Action>, i: nat)
    requires IsRun(c, states, actions) && Initial(states[0]) && i < |states|
    ensures Safe(states[i])
  {
    hide Safe, Next, Initial;
    if i == 0 {
      SafeInitially(states[0]);
    } else {
      SafeAlways(c, states, actions, i - 1);
      assert Next(c, states[i - 1], actions[i - 1]) == Some(states[i - 1 + 1]);
      SafeStep(c, states[i - 1], actions[i - 1]);
    }
  }
}
