/**
 How often the rotation goroutine fetches.
 */
module RotationRate {
  import opened Text
  import opened Rotation
  import opened RotationSafety
  import opened RotationTime

  /** The shortest time between two fetches that no one asked for. */
  function Gap(c: Settings, g: Time): Time {
    if c.retryDelay <= PAST_DUE && c.retryDelay <= g then c.retryDelay
    else if PAST_DUE <= g then PAST_DUE
    else g
  }

  /** The certificate's renewal time is at least `g` away. */
  predicate Far(c: Settings, cert: Certificate, now: Time, g: Time) {
    Parses(cert) && NotAfter(cert) - Window(c) - now >= g
  }

  /** The time that the fetches so far, less those asked for, must have taken. */
  function Owed(s: State, m: Time): Time {
    m * (s.fetches - s.renewals)
  }

  predicate Rated(c: Settings, s: State, t0: Time, g: Time) {
    var m := Gap(c, g);
    && Safe(s)
    && Owed(s, m) - m <= s.now - t0
    && match s.pc
       case Retrying(until) => s.now <= until && Owed(s, m) <= until - t0
       case Sleeping(until) => s.now <= until && Owed(s, m) <= until - t0
       case Requesting(_) => Owed(s, m) <= s.now - t0
       case Storing(_, _) => Owed(s, m) <= s.now - t0
       case FirstFetch(_) => true
       case Fetching(_) => true
       case Finished => true
       case WantsWrite(got) => Far(c, got.cert, s.now, g)
       case WritingCert(got) => Far(c, got.cert, s.now, g)
       case WritingUid(got) => Far(c, got.cert, s.now, g)
       case Written(got) => Far(c, got.cert, s.now, g)
       case _ => Owed(s, m) <= s.now - t0 || (s.cert.Some? && Far(c, s.cert.value, s.now, g))
  }

  lemma OneMore(s: State, t: State, m: Time)
    ensures t.fetches - t.renewals == s.fetches - s.renewals + 1 ==> Owed(t, m) == Owed(s, m) + m
    ensures t.fetches - t.renewals == s.fetches - s.renewals - 1 ==> Owed(t, m) == Owed(s, m) - m
    ensures t.fetches - t.renewals == s.fetches - s.renewals ==> Owed(t, m) == Owed(s, m)
  {
    assert m * (s.fetches - s.renewals + 1) == m * (s.fetches - s.renewals) + m;
    assert m * (s.fetches - s.renewals - 1) == m * (s.fetches - s.renewals) - m;
  }

  lemma RatedAdvance(c: Settings, s: State, t0: Time, g: Time)
    requires g > 0 && c.retryDelay > 0 && Rated(c, s, t0, g) && AdvanceFrom(c, s).Some?
    ensures Rated(c, AdvanceFrom(c, s).value, t0, g)
  {
    SafeStep(c, s, Advance);
    hide Owed;
    OneMore(s, AdvanceFrom(c, s).value, Gap(c, g));
  }

  lemma RatedStep(c: Settings, s: State, a: Action, t0: Time, g: Time)
    requires g > 0 && c.retryDelay > 0 && Rated(c, s, t0, g) && Next(c, s, a).Some?
    requires a.FetchArrives? ==> Far(c, a.got.cert, s.now, g)
    ensures Rated(c, Next(c, s, a).value, t0, g)
  {
    SafeStep(c, s, a);
    hide Owed, Safe, AdvanceFrom, ReadersAfter, Far;
    if a == Advance {
      RatedAdvance(c, s, t0, g);
    } else {
      OneMore(s, Next(c, s, a).value, Gap(c, g));
    }
  }

  lemma {:induction false} RatedAlways(c: Settings, states: seq<State>, actions: seq<Action>, g: Time, i: nat)
    requires IsRun(c, states, actions) && i < |states| && Initial(states[0]) && g > 0 && c.retryDelay > 0
    requires forall j :: 0 <= j < |actions| && actions[j].FetchArrives? ==> Far(c, actions[j].got.cert, states[j].now, g)
    ensures Rated(c, states[i], states[0].now, g)
  {
    hide Next, Far;
    if i == 0 {
    } else {
      RatedAlways(c, states, actions, g, i - 1);
      assert Next(c, states[i - 1], actions[i - 1]) == Some(states[i - 1 + 1]);
      RatedStep(c, states[i - 1], actions[i - 1], states[0].now, g);
    }
  }

  /**
   In every run, also one where every attempt fails, the fetches number at most one, plus the renewals asked for, plus
   one for each gap of the elapsed time.
   */
  lemma FetchesAreBounded(c: Settings, states: seq<State>, actions: seq<Action>, g: Time, i: nat)
    requires IsRun(c, states, actions) && i < |states| && Initial(states[0]) && g > 0 && c.retryDelay > 0
    requires forall j :: 0 <= j < |actions| && actions[j].FetchArrives? ==> Far(c, actions[j].got.cert, states[j].now, g)
    ensures Gap(c, g) > 0
    ensures states[i].fetches <= 1 + states[i].renewals + (states[i].now - states[0].now) / Gap(c, g)
  {
    RatedAlways(c, states, actions, g, i);
    var m, s := Gap(c, g), states[i];
    assert m * (s.fetches - s.renewals - 1) <= s.now - states[0].now;
    QuotientBound(m, s.fetches - s.renewals - 1, s.now - states[0].now);
  }

  lemma QuotientBound(m: Time, n: int, x: Time)
    requires m > 0 && m * n <= x
    ensures n <= x / m
  {
    var q := x / m;
    assert x < m * (q + 1);
    if n >= q + 1 {
      TimesGrows(m, q + 1, n);
    }
  }

  lemma TimesGrows(m: Time, a: int, b: int)
    requires m > 0 && a <= b
    ensures m * a <= m * b
  {
  }
}
