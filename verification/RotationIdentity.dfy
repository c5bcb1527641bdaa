/**
 Rotation and identity together: the id fixed at start keeps passing the control
 plane's check, and every certificate installed is for the same account and pod.
 */
module RotationIdentity {
  import opened Text
  import opened Identity
  import opened Rotation
  import opened RotationSafety

  /** One workload and the two sides that serve it. `decode` is what both read from a token. */
  datatype Workload = Workload(domain: string, decode: string -> Option<Claims>, namespace: string, account: string, podUid: string)

  predicate ProperWorkload(w: Workload) {
    w.domain != "" && w.account != "" && '/' !in w.account
  }

  /** The token belongs to this workload's pod. */
  predicate Belongs(w: Workload, token: string) {
    w.decode(TrimSpace(token)) == Some(Claims(w.namespace, w.account, Some(w.podUid)))
  }

  /** The id that the proxy derives from its first token and then keeps. */
  function FixedId(w: Workload): string {
    SpiffeId(w.domain, w.namespace, w.account)
  }

  /** What the control plane says to a fetch made with `token` for the fixed id. */
  function ReplyTo(w: Workload, token: string): Reply {
    Answer(w.domain, w.decode, Some(AuthHeader(token)), FixedId(w), true, true)
  }

  /** A fetched certificate carries what the reply says. */
  predicate Carries(got: Fetched, r: Reply) {
    r.Issued? && Parses(got.cert) && got.cert.blocks[0].value.commonName == r.commonName && got.podUid == r.podUid
  }

  /** Tokens belong to the workload, and fetches return what the control plane issued for the token presented. */
  predicate HonestAnswer(w: Workload, s: State, a: Action) {
    (a.TokenArrives? ==> Belongs(w, a.newToken)) && (a.FetchArrives? ==> Carries(a.got, ReplyTo(w, s.token)))
  }

  predicate IsFor(w: Workload, got: Fetched) {
    Parses(got.cert) && got.cert.blocks[0].value.commonName == w.account && got.podUid == w.podUid
  }

  predicate Kept(w: Workload, s: State) {
    && Belongs(w, s.token)
    && (s.pc.Storing? ==> Belongs(w, s.pc.newToken))
    && (Publishing(s.pc).Some? ==> IsFor(w, Publishing(s.pc).value))
    && (s.published.Some? ==> IsFor(w, s.published.value))
  }

  /** For a token of the workload the guard passes and the certificate is issued for its account and pod. */
  lemma GuardPasses(w: Workload, token: string)
    requires ProperWorkload(w) && Belongs(w, token)
    ensures ReplyTo(w, token) == Issued(w.account, w.podUid)
    ensures GoSpiffeId(w.domain, w.decode(TrimSpace(token)).value) == Some(FixedId(w))
  {
    hide TrimSpace;
    OwnIdentityIsIssued(w.domain, w.decode, token, Claims(w.namespace, w.account, Some(w.podUid)));
  }

  lemma KeptStep(c: Settings, w: Workload, s: State, a: Action)
    requires ProperWorkload(w) && Kept(w, s) && Next(c, s, a).Some? && HonestAnswer(w, s, a)
    ensures Kept(w, Next(c, s, a).value)
  {
    hide Belongs, Next, ReplyTo, ProperWorkload, Parses;
    if a == Advance {
      AdvanceIsNext(c, s);
      KeptAdvance(c, w, s);
    } else {
      GuardPasses(w, s.token);
      AnswerEffect(c, s, a);
    }
  }

  lemma KeptAdvance(c: Settings, w: Workload, s: State)
    requires Kept(w, s) && AdvanceFrom(c, s).Some?
    ensures Kept(w, AdvanceFrom(c, s).value)
  {
    hide Belongs, IsFor, SleepUntil, NoReaderHolds, Usable;
    var t := AdvanceFrom(c, s).value;
    match s.pc {
      case WantsWrite(got) => assert Publishing(t.pc) == Some(got) && t.published == s.published;
      case WritingCert(got) => assert t.pc == WritingUid(got) && t.published == s.published;
      case WritingUid(got) => assert t.pc == Written(got) && t.published == Some(got);
      case Storing(_, newToken) => assert t.token == newToken && t.published == s.published && t.pc.Fetching?;
      case _ =>
    }
  }

  /**
   At every point of every run the token presented passes the guard for the id fixed at start, and the certificate
   on display, once one is published outside the lock, is for the workload's account and comes with its pod UID.
   */
  lemma {:induction false} IdentityKept(c: Settings, w: Workload, states: seq<State>, actions: seq<Action>, i: nat)
    requires IsRun(c, states, actions) && i < |states| && Initial(states[0]) && ProperWorkload(w)
    requires Belongs(w, states[0].token) && (states[0].published.Some? ==> IsFor(w, states[0].published.value))
    requires forall j :: 0 <= j < |actions| ==> HonestAnswer(w, states[j], actions[j])
    ensures Kept(w, states[i]) && ReplyTo(w, states[i].token) == Issued(w.account, w.podUid)
    ensures !states[i].writer && states[i].cert.Some? ==>
              && Parses(states[i].cert.value)
              && states[i].cert.value.blocks[0].value.commonName == w.account
              && states[i].podUid == w.podUid
  {
    hide Next, HonestAnswer, ReplyTo, Belongs;
    if i > 0 {
      IdentityKept(c, w, states, actions, i - 1);
      assert Next(c, states[i - 1], actions[i - 1]) == Some(states[i - 1 + 1]);
      KeptStep(c, w, states[i - 1], actions[i - 1]);
    }
    GuardPasses(w, states[i].token);
    SafeAlways(c, states, actions, i);
  }
}
