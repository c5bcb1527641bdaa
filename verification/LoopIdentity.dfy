/**
 The rotation loop as the program writes it, and identity: the tokens its
 fetches present are those of the machine's run, so what holds of identity over
 runs holds of the loop's fields.
 */
module LoopIdentity {
  import opened Text
  import opened Rotation
  import opened RotationSafety
  import opened RotationIdentity
  import opened CertManagers
  import Identity

  // ----- The token in a run ----------------------------------------------

  /** The token in use, also just before it is stored. */
  function InUse(s: State): string {
    if s.pc.Storing? then s.pc.newToken else s.token
  }

  lemma InUseStep(c: Settings, s: State, a: Action)
    requires Next(c, s, a).Some?
    ensures InUse(Next(c, s, a).value) == if a.TokenArrives? then a.newToken else InUse(s)
    ensures a.FetchArrives? ==> !s.pc.Storing?
  {
    hide ReadersAfter, MayTick, AdvanceFrom;
    if a == Advance {
      InUseAdvance(c, s);
    }
  }

  lemma InUseAdvance(c: Settings, s: State)
    requires AdvanceFrom(c, s).Some?
    ensures InUse(AdvanceFrom(c, s).value) == InUse(s)
  {
    hide SleepUntil, NoReaderHolds, Usable;
  }

  lemma OutsideStep(actions: seq<Action>, i: nat)
    requires i < |actions|
    ensures Outside(actions[..i + 1])
         == if IsOutside(actions[i]) then Outside(actions[..i]) + [actions[i]] else Outside(actions[..i])
  {
    assert actions[..i + 1][..i] == actions[..i];
  }

  /** At every point of a run the token in use is the last that arrived, or the first. */
  lemma {:induction false} TokenTracked(c: Settings, states: seq<State>, actions: seq<Action>, i: nat)
    requires IsRun(c, states, actions) && i < |states|
    ensures InUse(states[i]) == TokenAfter(InUse(states[0]), Outside(actions[..i]))
  {
    hide Next, InUse, Outside, TokenAfter;
    if i == 0 {
      NothingHeard(InUse(states[0]));
      assert actions[..0] == [];
    } else {
      TokenTracked(c, states, actions, i - 1);
      assert Next(c, states[i - 1], actions[i - 1]) == Some(states[i - 1 + 1]);
      InUseStep(c, states[i - 1], actions[i - 1]);
      OutsideStep(actions, i - 1);
      TokenAfterOne(InUse(states[0]), Outside(actions[..i - 1]), actions[i - 1]);
    }
  }

  lemma NothingHeard(first: string)
    ensures Outside([]) == [] && TokenAfter(first, []) == first
  {
  }

  /** What is heard up to a point of a run is a prefix of what is heard in all of it. */
  lemma {:induction false} HeardInOrder(actions: seq<Action>, i: nat, n: nat)
    requires i <= n <= |actions|
    ensures Outside(actions[..i]) <= Outside(actions[..n])
    ensures i < n && IsOutside(actions[i]) ==> Outside(actions[..i]) + [actions[i]] <= Outside(actions[..n])
    decreases n
  {
    hide Outside;
    if i < n {
      HeardInOrder(actions, i, n - 1);
      OutsideStep(actions, n - 1);
    }
  }

  // ----- An honest world -------------------------------------------------

  /** A token request for the workload's pod. */
  predicate AsksFor(w: Workload, call: Call) {
    call.TokenCall? && call.namespace == w.namespace && call.account == w.account && call.podUid == w.podUid
  }

  /**
   The provider answers for the pod it is asked for, and a fetch returns what the
   control plane issues for the token and the id presented.
   */
  ghost predicate IsHonest(w: Workload, given: seq<Action>, asked: seq<Call>) {
    |asked| == |given|
    && forall i :: 0 <= i < |given| ==>
         && (given[i].TokenArrives? && AsksFor(w, asked[i]) ==> Belongs(w, given[i].newToken))
         && (given[i].FetchArrives? && asked[i].FetchCall? ==>
               Carries(given[i].got,
                       Identity.Answer(w.domain, w.decode, Some(Identity.AuthHeader(asked[i].token)), asked[i].spiffeId,
                                       true, true)))
  }

  /** The program is started for this workload. */
  predicate StartedFor(w: Workload, job: Job) {
    job.namespace == w.namespace && job.account == w.account && job.podUid == w.podUid && job.spiffeId == FixedId(w)
  }

  /** Calls made for the job, honestly answered, make honest answers in the run. */
  lemma RunIsHonest(c: Settings, w: Workload, job: Job, states: seq<State>, actions: seq<Action>, asked: seq<Call>, j: nat)
    requires IsRun(c, states, actions) && j < |actions| && !states[0].pc.Storing? && StartedFor(w, job)
    requires AsksRight(Outside(actions), asked, 0, states[0].token, job)
    requires IsHonest(w, Outside(actions), asked)
    ensures HonestAnswer(w, states[j], actions[j])
  {
    hide Next, Belongs, Carries, Outside, TokenAfter, FixedId;
    var a, given := actions[j], Outside(actions);
    if a.TokenArrives? || a.FetchArrives? {
      assert Next(c, states[j], a) == Some(states[j + 1]);
      InUseStep(c, states[j], a);
      TokenTracked(c, states, actions, j);
      HeardInOrder(actions, j, |actions|);
      assert actions[..|actions|] == actions;
      var before := Outside(actions[..j]);
      var k := |before|;
      assert given[k] == a && given[0..k] == before;
      assert asked[k] == CallFor(job, TokenAfter(states[0].token, given[0..k]), given[k]);
    }
  }

  /**
   The loop keeps identity. Started for a workload, with its token and a
   certificate for it or none, and answered honestly, it is at every moment left
   with a certificate for the workload's account and pod.
   */
  lemma LoopKeepsIdentity(w: Workload, job: Job, m: CertManager, world: World)
    requires m.Valid() && world.Valid() && m.Heard() == world.given
    requires Initial(First(m.trace)) && Belongs(w, First(m.trace).token) && ProperWorkload(w) && StartedFor(w, job)
    requires First(m.trace).published.Some? ==> IsFor(w, First(m.trace).published.value)
    requires AsksRight(world.given, world.asked, 0, First(m.trace).token, job)
    requires IsHonest(w, world.given, world.asked)
    ensures m.currentCert.Some? ==>
              && Parses(m.currentCert.value)
              && m.currentCert.value.blocks[0].value.commonName == w.account
              && m.currentPodUid == w.podUid
  {
    hide Next, Belongs, Outside, AsksRight, IsHonest, HonestAnswer, Follows, StartedFor, IsFor;
    var states, actions := m.trace.states, m.trace.actions;
    forall j | 0 <= j < |actions|
      ensures HonestAnswer(w, states[j], actions[j])
    {
      RunIsHonest(m.settings, w, job, states, actions, world.asked, j);
    }
    IdentityKept(m.settings, w, states, actions, |states| - 1);
  }
}
