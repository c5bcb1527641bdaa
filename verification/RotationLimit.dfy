/**
 How many failures in a row the settings bear: exactly as many as the renewal
 window leaves time for. Beyond that a run that serves an expired certificate is
 constructed.
 */
module RotationLimit {
  import opened Text
  import opened Rotation
  import opened RotationSafety
  import opened RotationTime

  /** A run from a fresh start in which the environment keeps its side. */
  ghost predicate IsFairRun(c: Settings, states: seq<State>, actions: seq<Action>): (r: bool)
    ensures r ==> states != []
  {
    IsRun(c, states, actions) && StartsFresh(c, states[0])
    && forall j :: 0 <= j < |actions| ==> FairAnswer(c, states[j], actions[j])
  }

  /** A certificate that has expired is on display while the goroutine is at work. */
  predicate ServesExpired(s: State) {
    s.cert.Some? && !s.pc.Finished? && (Parses(s.cert.value) ==> s.now >= NotAfter(s.cert.value))
  }

  /** No fair run serves an expired certificate while at most `k` attempts in a row have failed. */
  ghost predicate Bears(c: Settings, k: nat) {
    forall states: seq<State>, actions: seq<Action>, i: int ::
      IsFairRun(c, states, actions) && 0 <= i < |states| && states[i].failures <= k ==> !ServesExpired(states[i])
  }

  // ----- A run of failures -----------------------------------------------

  /** A certificate that falls due at time zero. */
  function DueAtZero(c: Settings): Certificate {
    Certificate([Some(Leaf(Window(c), ""))])
  }

  /** A fresh start one tick before, with a certificate that lives long enough. */
  function JustBefore(c: Settings): State {
    var first := Fetched(DueAtZero(c), "", -c.callBound - 2);
    State(-1, Top, "token", Some(first.cert), "", false, false, false, false, map[], Some(first), 0, 0, 0, 0)
  }

  /** The goroutine runs alone, with its first certificate on display. */
  predicate Alone(c: Settings, s: State) {
    s.token != "" && s.cert == Some(DueAtZero(c)) && s.readers == map[]
    && !s.writer && !s.waiting && !s.rotatorReads
  }

  lemma Extended(c: Settings, states: seq<State>, actions: seq<Action>, a: Action)
    returns (longer: seq<State>, more: seq<Action>)
    requires IsFairRun(c, states, actions) && !a.FetchArrives? && !a.TokenArrives?
    requires Next(c, states[|states| - 1], a).Some?
    ensures IsFairRun(c, longer, more)
    ensures longer[|longer| - 1] == Next(c, states[|states| - 1], a).value
  {
    hide Next, StartsFresh, FairAnswer;
    longer, more := states + [Next(c, states[|states| - 1], a).value], actions + [a];
    NothingToKeep(c, states[|states| - 1], a);
    forall j | 0 <= j < |more|
      ensures Next(c, longer[j], more[j]) == Some(longer[j + 1]) && FairAnswer(c, longer[j], more[j])
    {
      if j < |actions| {
        assert Next(c, states[j], actions[j]) == Some(states[j + 1]);
      }
    }
  }

  lemma NothingToKeep(c: Settings, s: State, a: Action)
    requires !a.FetchArrives? && !a.TokenArrives?
    ensures FairAnswer(c, s, a)
  {
  }

  /** Time passes up to a moment the goroutine may wait for. */
  lemma Waited(c: Settings, states: seq<State>, actions: seq<Action>, until: Time)
    returns (longer: seq<State>, more: seq<Action>)
    requires IsFairRun(c, states, actions)
    requires var s := states[|states| - 1];
             s.now == until || MayTick(c, s, until - s.now)
    ensures IsFairRun(c, longer, more)
    ensures longer[|longer| - 1] == states[|states| - 1].(now := until)
  {
    hide IsFairRun, AdvanceFrom, ReadersAfter;
    var s := states[|states| - 1];
    if s.now == until {
      longer, more := states, actions;
    } else {
      longer, more := Extended(c, states, actions, Tick(until - s.now));
    }
  }

  /** From the top of the loop, through the look at the certificate and the sleep, to the next token request. */
  lemma Attempted(c: Settings, states: seq<State>, actions: seq<Action>)
    returns (longer: seq<State>, more: seq<Action>)
    requires IsFairRun(c, states, actions)
    requires var s := states[|states| - 1]; Alone(c, s) && s.pc == Top
    ensures IsFairRun(c, longer, more)
    ensures var s, t := states[|states| - 1], longer[|longer| - 1];
            Alone(c, t) && t.pc == Requesting(t.now) && t.failures == s.failures
            && t.now == if s.now < 0 then 0 else s.now + PAST_DUE
  {
    hide IsFairRun, ReadersAfter;
    longer, more := Extended(c, states, actions, Advance);
    longer, more := Extended(c, longer, more, Advance);
    longer, more := Extended(c, longer, more, Advance);
    longer, more := Extended(c, longer, more, Advance);
    var s := longer[|longer| - 1];
    assert s.pc == Sleeping(if s.now < 0 then 0 else s.now + PAST_DUE);
    longer, more := Waited(c, longer, more, s.pc.until);
    longer, more := Extended(c, longer, more, TimerFires);
  }

  /** The token request takes as long as it may, fails, and is retried. */
  lemma Failed(c: Settings, states: seq<State>, actions: seq<Action>)
    returns (longer: seq<State>, more: seq<Action>)
    requires IsFairRun(c, states, actions) && c.retryDelay >= 0 && c.callBound >= 0
    requires var s := states[|states| - 1]; Alone(c, s) && s.pc == Requesting(s.now)
    ensures IsFairRun(c, longer, more)
    ensures var s, t := states[|states| - 1], longer[|longer| - 1];
            Alone(c, t) && t.pc == Top && t.failures == s.failures + 1
            && t.now == s.now + c.callBound + c.retryDelay
  {
    hide IsFairRun, ReadersAfter, AdvanceFrom;
    var s := states[|states| - 1];
    longer, more := Waited(c, states, actions, s.now + c.callBound);
    longer, more := Extended(c, longer, more, TokenFails);
    longer, more := Waited(c, longer, more, s.now + c.callBound + c.retryDelay);
    longer, more := Extended(c, longer, more, TimerFires);
  }

  /** After `k` failures in a row the next attempt starts as late as the bound allows. */
  lemma {:induction false} FailedInARow(c: Settings, k: nat) returns (states: seq<State>, actions: seq<Action>)
    requires c.retryDelay >= 0 && c.callBound >= 0
    ensures IsFairRun(c, states, actions)
    ensures var s := states[|states| - 1];
            Alone(c, s) && s.pc == Requesting(s.now) && s.failures == k && s.now == k * Delay(c)
  {
    hide IsFairRun, Next;
    if k == 0 {
      StartsJustBefore(c);
      states, actions := Attempted(c, [JustBefore(c)], []);
    } else {
      states, actions := FailedInARow(c, k - 1);
      assert (k - 1) * Delay(c) + Delay(c) == k * Delay(c);
      NotNegative(k - 1, Delay(c));
      states, actions := Failed(c, states, actions);
      states, actions := Attempted(c, states, actions);
    }
  }

  lemma StartsJustBefore(c: Settings)
    ensures IsFairRun(c, [JustBefore(c)], []) && Alone(c, JustBefore(c)) && JustBefore(c).pc == Top
  {
  }

  lemma NotNegative(k: nat, delay: Time)
    requires delay >= 0
    ensures k * delay >= 0
  {
  }

  /** Where the window is too short for `k` failures, a run with that many serves an expired certificate. */
  lemma ServedExpired(c: Settings, k: nat) returns (states: seq<State>, actions: seq<Action>)
    requires c.retryDelay >= 0 && c.callBound >= 0 && !SoundSettings(c, k)
    ensures IsFairRun(c, states, actions)
    ensures states[|states| - 1].failures == k && ServesExpired(states[|states| - 1])
  {
    hide IsFairRun, Next;
    states, actions := FailedInARow(c, k);
    states, actions := Waited(c, states, actions, states[|states| - 1].now + c.callBound);
  }

  /** The settings bear `k` failures in a row if and only if k(R + 10s + d) + d < W. */
  lemma BearsExactly(c: Settings, k: nat)
    requires c.retryDelay >= 0 && c.callBound >= 0
    ensures Bears(c, k) <==> k * Delay(c) + c.callBound < Window(c)
  {
    hide StartsFresh, FairAnswer, IsRun, ServesExpired;
    if SoundSettings(c, k) {
      forall states: seq<State>, actions: seq<Action>, i: int |
        IsFairRun(c, states, actions) && 0 <= i < |states| && states[i].failures <= k
        ensures !ServesExpired(states[i])
      {
        NotServed(c, k, states, actions, i);
      }
    } else {
      var states, actions := ServedExpired(c, k);
      var last := |states| - 1;
      assert IsFairRun(c, states, actions) && states[last].failures <= k && ServesExpired(states[last]);
    }
  }

  lemma NotServed(c: Settings, k: nat, states: seq<State>, actions: seq<Action>, i: nat)
    requires IsFairRun(c, states, actions) && i < |states| && SoundSettings(c, k) && states[i].failures <= k
    ensures !ServesExpired(states[i])
  {
    hide IsRun, StartsFresh, FairAnswer, SoundSettings;
    NoExpiredCertificate(c, k, states, actions, i);
  }

  /**
   The shipped settings, one minute and five (which is also the window where none is set), bear three failures in a row exactly when calls take under 22.5 seconds,
   and four exactly when they take under 4; and six-minute certificates live long enough for calls under one minute.
   */
  lemma ShippedSettings(callBound: Time)
    requires callBound >= 0
    ensures forall window :: window == 300 * SECOND || window == 0 ==>
            var c := Settings(60 * SECOND, window, callBound);
            && (Bears(c, 3) <==> 2 * callBound < 45 * SECOND)
            && (Bears(c, 4) <==> callBound < 4 * SECOND)
    ensures callBound < 60 * SECOND ==>
              forall got: Fetched, start: Time ::
                Parses(got.cert) && start <= got.issued && NotAfter(got.cert) == got.issued + 360 * SECOND ==>
                  LongLived(Settings(60 * SECOND, 300 * SECOND, callBound), got, start)
  {
    hide Bears;
    forall window | window == 300 * SECOND || window == 0
      ensures var c := Settings(60 * SECOND, window, callBound);
              (Bears(c, 3) <==> 2 * callBound < 45 * SECOND) && (Bears(c, 4) <==> callBound < 4 * SECOND)
    {
      BearsExactly(Settings(60 * SECOND, window, callBound), 3);
      BearsExactly(Settings(60 * SECOND, window, callBound), 4);
    }
  }
}
