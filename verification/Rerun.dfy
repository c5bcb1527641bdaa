/**
 Running the init container again, any number of times and in any modes, on
 tables it has already changed.
 */
module Rerun {
  import opened Text
  import opened Iptables
  import opened InitContainer
  import opened Interception
  import opened RedirectMode
  import opened Policy
  import opened SwitchOver

  function RunAll(chains: Chains, t: Table, cfg: Config): (r: Chains)
    ensures chains.Keys <= r.Keys
  {
    Run(chains, t, Commands(cfg), Unrefused(|Commands(cfg)|))
  }

  // ----- A second run ----------------------------------------------------

  /** The nat table of a second run decides as the second configuration alone: it is flushed first. */
  lemma SecondRunOutbound(nat0: Chains, a: Config, b: Config, p: Packet)
    requires Output in nat0
    ensures Decide(RunAll(RunAll(nat0, Nat, a), Nat, b), Output, p)
            == if b.mode == "TPROXY" then TProxyOutboundPolicy(b, p) else RedirectOutboundPolicy(b, p)
  {
    hide Run, Decide, TProxyCommands, RedirectCommands, TProxyOutboundPolicy, RedirectOutboundPolicy;
    if b.mode == "TPROXY" {
      TProxyOutboundCorrect(RunAll(nat0, Nat, a), b, p);
    } else {
      RedirectOutboundCorrect(RunAll(nat0, Nat, a), b, p);
    }
  }

  /** The rules one configuration puts into the mangle user chain. */
  function InboundBody(names: set<ChainName>, cfg: Config): seq<Rule>
  {
    Added(names, Mangle, SentinelInbound, TProxyMangleExempting(cfg), Unrefused(|TProxyMangleExempting(cfg)|))
    + TProxyTail(cfg, false)
  }

  /** One TPROXY run: nothing in mangle is flushed, so the jump and the body are added behind what is there. */
  lemma MangleAfter(mangle0: Chains, cfg: Config)
    requires cfg.mode == "TPROXY" && Prerouting in mangle0
    ensures var chains := RunAll(mangle0, Mangle, cfg);
            && chains.Keys == mangle0.Keys + {SentinelInbound}
            && chains[Prerouting] == mangle0[Prerouting] + [TcpJump(SentinelInbound)]
            && chains[SentinelInbound] == RulesOf(mangle0, SentinelInbound) + InboundBody(mangle0.Keys + {SentinelInbound}, cfg)
            && forall c <- mangle0 :: c != Prerouting && c != SentinelInbound ==> chains[c] == mangle0[c]
  {
    hide Run, TProxyCommands, TProxyMangleExempting, Added;
    var n := |TProxyCommands(cfg)|;
    TProxyMangleContents(mangle0, cfg, Unrefused(n));
    assert Unrefused(n)[3..n - 5] == Unrefused(|TProxyMangleExempting(cfg)|);
  }

  lemma WalkBody(chains: Chains, names: set<ChainName>, cfg: Config, p: Packet)
    requires p.tcp && SentinelInbound in names
    ensures Walk(chains, InboundBody(names, cfg), p)
            == if TProxyInboundExempt(cfg, p) then Returned
               else if TProxyRule(cfg.inboundPort, cfg.proxyMark).Some? then TProxied(cfg.inboundPort, cfg.proxyMark, MASK)
               else FellOff
  {
    hide Walk, Added, AnyMatches, AllReturn, TProxyMangleExempting, TProxyCommands, Spared, ReturnsOnly, TProxyInboundExempt;
    var pre := TProxyMangleExempting(cfg);
    var n := |TProxyCommands(cfg)|;
    TProxyMangleSplit(cfg);
    MangleSpared(cfg, Unrefused(n), p);
    assert Unrefused(n)[3..n - 5] == Unrefused(|pre|);
    TProxyInboundExemptions(cfg, p);
    AddedReturns(names, Mangle, SentinelInbound, pre, Unrefused(|pre|), p);
    WalkReturnsThen(chains, Added(names, Mangle, SentinelInbound, pre, Unrefused(|pre|)), TProxyTail(cfg, false), p);
    WalkCatchAll(chains, TProxyRule(cfg.inboundPort, cfg.proxyMark).Some?, TProxyRule(cfg.inboundPort, cfg.proxyMark), p);
  }

  // ----- Any number of runs ----------------------------------------------

  /** The tables after running with each configuration in turn. */
  function RunInTurn(chains: Chains, t: Table, cfgs: seq<Config>): (r: Chains)
    ensures chains.Keys <= r.Keys
    decreases |cfgs|
  {
    if cfgs == [] then chains
    else RunAll(RunInTurn(chains, t, cfgs[..|cfgs| - 1]), t, cfgs[|cfgs| - 1])
  }

  /** The configurations among them that write to mangle. */
  function TProxyOnes(cfgs: seq<Config>): seq<Config> {
    if cfgs == [] then []
    else TProxyOnes(cfgs[..|cfgs| - 1])
         + (if cfgs[|cfgs| - 1].mode == "TPROXY" then [cfgs[|cfgs| - 1]] else [])
  }

  /** The rules that the configurations put into the mangle user chain. */
  function Bodies(names: set<ChainName>, cfgs: seq<Config>): seq<Rule> {
    if cfgs == [] then [] else Bodies(names, cfgs[..|cfgs| - 1]) + InboundBody(names, cfgs[|cfgs| - 1])
  }

  function Jumps(n: nat): seq<Rule> {
    if n == 0 then [] else Jumps(n - 1) + [TcpJump(SentinelInbound)]
  }

  /** A configuration settles a packet's fate if it exempts it or has a catch-all. */
  ghost predicate Settles(cfg: Config, p: Packet) {
    TProxyRule(cfg.inboundPort, cfg.proxyMark).Some? || (p.tcp && TProxyInboundExempt(cfg, p))
  }

  /** The inbound policy of the first configuration that settles the packet's fate. */
  ghost function FirstToSettle(cfgs: seq<Config>, p: Packet): Outcome {
    if cfgs == [] then Accepted
    else if Settles(cfgs[0], p) then TProxyInboundPolicy(cfgs[0], p)
    else FirstToSettle(cfgs[1..], p)
  }

  lemma RedirectRunLeavesMangle(mangle: Chains, cfg: Config)
    requires cfg.mode != "TPROXY"
    ensures RunAll(mangle, Mangle, cfg) == mangle
  {
    hide Run, TProxyCommands, RedirectCommands;
    RedirectLeavesMangle(mangle, cfg, Unrefused(|RedirectCommands(cfg)|));
  }

  /** What any runs leave in mangle: a jump and a body for each run in TPROXY mode, in order. */
  lemma {:induction false} MangleInTurn(mangle0: Chains, cfgs: seq<Config>)
    requires Prerouting in mangle0 && SentinelInbound !in mangle0
    ensures var chains, ones, names := RunInTurn(mangle0, Mangle, cfgs), TProxyOnes(cfgs), mangle0.Keys + {SentinelInbound};
            && chains.Keys == (if ones == [] then mangle0.Keys else names)
            && chains[Prerouting] == mangle0[Prerouting] + Jumps(|ones|)
            && (ones != [] ==> chains[SentinelInbound] == Bodies(names, ones))
            && forall c <- mangle0 :: c != Prerouting ==> chains[c] == mangle0[c]
    decreases |cfgs|
  {
    hide RunAll, InboundBody, Bodies;
    if cfgs == [] {
      assert mangle0[Prerouting] + [] == mangle0[Prerouting];
    } else {
      var init, last := cfgs[..|cfgs| - 1], cfgs[|cfgs| - 1];
      MangleInTurn(mangle0, init);
      var before, names := RunInTurn(mangle0, Mangle, init), mangle0.Keys + {SentinelInbound};
      if last.mode == "TPROXY" {
        MangleAfter(before, last);
        assert before.Keys + {SentinelInbound} == names;
        BodiesGrow(names, TProxyOnes(init), last);
        NoBodies(names);
        assert mangle0[Prerouting] + Jumps(|TProxyOnes(init)|) + [TcpJump(SentinelInbound)]
            == mangle0[Prerouting] + Jumps(|TProxyOnes(init)| + 1);
      } else {
        RedirectRunLeavesMangle(before, last);
        assert TProxyOnes(cfgs) == TProxyOnes(init);
      }
    }
  }

  lemma BodiesGrow(names: set<ChainName>, cfgs: seq<Config>, last: Config)
    ensures Bodies(names, cfgs + [last]) == Bodies(names, cfgs) + InboundBody(names, last)
  {
    hide InboundBody;
    assert (cfgs + [last])[..|cfgs|] == cfgs;
  }

  lemma NoBodies(names: set<ChainName>)
    ensures Bodies(names, []) == []
  {
  }

  lemma {:induction false} BodiesConcat(names: set<ChainName>, first: Config, cfgs: seq<Config>)
    ensures Bodies(names, [first] + cfgs) == InboundBody(names, first) + Bodies(names, cfgs)
    decreases |cfgs|
  {
    hide InboundBody;
    if cfgs == [] {
      assert [first] + cfgs == [] + [first];
      BodiesGrow(names, [], first);
      NoBodies(names);
    } else {
      var init, last := cfgs[..|cfgs| - 1], cfgs[|cfgs| - 1];
      BodiesConcat(names, first, init);
      assert [first] + cfgs == ([first] + init) + [last] && cfgs == init + [last];
      BodiesGrow(names, [first] + init, last);
      BodiesGrow(names, init, last);
    }
  }

  lemma {:induction false} WalkBodies(chains: Chains, names: set<ChainName>, cfgs: seq<Config>, p: Packet)
    requires p.tcp && SentinelInbound in names
    ensures Verdict(Walk(chains, Bodies(names, cfgs), p)) == FirstToSettle(cfgs, p)
    ensures !(Walk(chains, Bodies(names, cfgs), p)).Looped?
    decreases |cfgs|
  {
    hide Walk, InboundBody, Bodies, TProxyInboundExempt;
    if cfgs == [] {
      NoBodies(names);
      WalkNothing(chains, p);
    } else {
      assert cfgs == [cfgs[0]] + cfgs[1..];
      BodiesConcat(names, cfgs[0], cfgs[1..]);
      WalkBodies(chains, names, cfgs[1..], p);
      WalkConcat(chains, InboundBody(names, cfgs[0]), Bodies(names, cfgs[1..]), p);
      WalkBody(chains, names, cfgs[0], p);
    }
  }

  /** Jumping again to a chain that let the packet go on changes nothing. */
  lemma {:induction false} WalkJumps(chains: Chains, n: nat, p: Packet)
    requires SentinelInbound in chains
    ensures var o := Walk(chains - {SentinelInbound}, chains[SentinelInbound], p);
            Walk(chains, Jumps(n), p) == if n > 0 && p.tcp && !Continues(o) then o else FellOff
  {
    hide Walk;
    if n == 0 {
      WalkNothing(chains, p);
    } else {
      WalkJumps(chains, n - 1, p);
      WalkConcat(chains, Jumps(n - 1), [TcpJump(SentinelInbound)], p);
      WalkTcpJump(chains, SentinelInbound, p);
    }
  }

  /**
   After any runs in any modes, entering packets are decided in mangle by the first TPROXY configuration that settles
   their fate; later ones and REDIRECT runs change nothing there.
   */
  lemma InboundInTurn(mangle0: Chains, cfgs: seq<Config>, p: Packet)
    requires Prerouting in mangle0 && SentinelInbound !in mangle0 && Closed(mangle0)
    ensures var earlier := Walk(mangle0 - {Prerouting}, mangle0[Prerouting], p);
            Decide(RunInTurn(mangle0, Mangle, cfgs), Prerouting, p)
            == if !earlier.FellOff? then Verdict(earlier) else FirstToSettle(TProxyOnes(cfgs), p)
  {
    hide RunInTurn, Walk, Bodies, Closed, TProxyInboundExempt, TProxyOnes, Jumps;
    var chains, ones := RunInTurn(mangle0, Mangle, cfgs), TProxyOnes(cfgs);
    MangleInTurn(mangle0, cfgs);
    FrameEarlier(mangle0, chains, p);
    var rest := chains - {Prerouting};
    WalkConcat(rest, mangle0[Prerouting], Jumps(|ones|), p);
    if ones == [] {
      NoJumps();
      WalkNothing(rest, p);
    } else {
      WalkJumps(rest, |ones|, p);
      if p.tcp {
        WalkBodies(rest - {SentinelInbound}, mangle0.Keys + {SentinelInbound}, ones, p);
      } else {
        NothingForOthers(ones, p);
      }
    }
  }

  lemma NoJumps()
    ensures Jumps(0) == []
  {
  }

  lemma {:induction false} NothingForOthers(cfgs: seq<Config>, p: Packet)
    requires !p.tcp
    ensures FirstToSettle(cfgs, p) == Accepted
    decreases |cfgs|
  {
    hide TProxyInboundExempt;
    if cfgs != [] {
      NothingForOthers(cfgs[1..], p);
    }
  }

  /**
   An entering packet passes mangle PREROUTING and then nat PREROUTING. After any runs the first decides as the first
   TPROXY configurations say and the second as the last configuration alone: a REDIRECT run behind a TPROXY run leaves
   both diversions in place, a TPROXY run behind a REDIRECT run only its own.
   */
  lemma BothTablesInTurn(nat0: Chains, mangle0: Chains, cfgs: seq<Config>, p: Packet)
    requires Output in nat0 && Prerouting in nat0 && cfgs != []
    requires Prerouting in mangle0 && SentinelInbound !in mangle0 && Closed(mangle0)
    ensures var last, natChains := cfgs[|cfgs| - 1], RunInTurn(nat0, Nat, cfgs);
            var earlier := Walk(mangle0 - {Prerouting}, mangle0[Prerouting], p);
            && Decide(RunInTurn(mangle0, Mangle, cfgs), Prerouting, p)
               == (if !earlier.FellOff? then Verdict(earlier) else FirstToSettle(TProxyOnes(cfgs), p))
            && Decide(natChains, Prerouting, p)
               == (if last.mode == "TPROXY" then Accepted else RedirectInboundPolicy(last, p))
            && Decide(natChains, Output, p)
               == (if last.mode == "TPROXY" then TProxyOutboundPolicy(last, p) else RedirectOutboundPolicy(last, p))
  {
    hide Run, Walk, Decide, Closed, TProxyCommands, RedirectCommands, TProxyInboundExempt, TProxyOnes, FirstToSettle,
      TProxyOutboundPolicy, RedirectOutboundPolicy, RedirectInboundPolicy;
    InboundInTurn(mangle0, cfgs, p);
    var last := cfgs[|cfgs| - 1];
    var before := RunInTurn(nat0, Nat, cfgs[..|cfgs| - 1]);
    if last.mode == "TPROXY" {
      TProxyLeavesPrerouting(before, last, Unrefused(|TProxyCommands(last)|), p);
      TProxyOutboundCorrect(before, last, p);
    } else {
      RedirectInboundCorrect(before, last, p);
      RedirectOutboundCorrect(before, last, p);
    }
  }

  /**
   Two TPROXY runs: if the first configuration's settings are valid, the inbound decisions stay the first one's; if
   not, its body only exempts, and the rest is the second one's. The rule list grows either way.
   */
  lemma SecondRunInbound(mangle0: Chains, a: Config, b: Config, p: Packet)
    requires a.mode == "TPROXY" && b.mode == "TPROXY"
    requires Prerouting in mangle0 && SentinelInbound !in mangle0 && Closed(mangle0)
    ensures var chains := RunAll(RunAll(mangle0, Mangle, a), Mangle, b);
            var earlier := Walk(mangle0 - {Prerouting}, mangle0[Prerouting], p);
            && Decide(chains, Prerouting, p)
               == (if !earlier.FellOff? then Verdict(earlier)
                   else if TProxyRule(a.inboundPort, a.proxyMark).Some? || (p.tcp && TProxyInboundExempt(a, p))
                   then TProxyInboundPolicy(a, p) else TProxyInboundPolicy(b, p))
            && SentinelInbound in chains
            && chains[SentinelInbound]
               == InboundBody(mangle0.Keys + {SentinelInbound}, a) + InboundBody(mangle0.Keys + {SentinelInbound}, b)
  {
    hide RunAll, Walk, InboundBody, Closed, TProxyInboundExempt, Decide, TProxyRule;
    InTurnTwice(mangle0, a, b);
    InboundInTurn(mangle0, [a, b], p);
    assert [a, b][1..] == [b];
    MangleAfter(mangle0, a);
    var names := mangle0.Keys + {SentinelInbound};
    assert RulesOf(mangle0, SentinelInbound) + InboundBody(names, a) == InboundBody(names, a);
    MangleAfter(RunAll(mangle0, Mangle, a), b);
    assert names + {SentinelInbound} == names;
    NothingLeft(b, p);
  }

  lemma InTurnTwice(mangle0: Chains, a: Config, b: Config)
    ensures RunInTurn(mangle0, Mangle, [a, b]) == RunAll(RunAll(mangle0, Mangle, a), Mangle, b)
    ensures a.mode == "TPROXY" && b.mode == "TPROXY" ==> TProxyOnes([a, b]) == [a, b]
  {
    hide RunAll;
    assert [a, b][..1] == [a] && [a][..0] == [];
    assert RunInTurn(mangle0, Mangle, [a]) == RunAll(RunInTurn(mangle0, Mangle, []), Mangle, a);
    assert TProxyOnes([a]) == TProxyOnes([]) + (if a.mode == "TPROXY" then [a] else []);
  }

  /** A configuration that does not settle a packet's fate has the policy of letting it pass. */
  lemma NothingLeft(cfg: Config, p: Packet)
    ensures FirstToSettle([cfg], p) == TProxyInboundPolicy(cfg, p)
  {
    hide TProxyInboundExempt;
    assert [cfg][1..] == [];
  }

  /** Running the same configuration twice changes no inbound decision, although the user chain's rules double. */
  lemma SameConfigTwice(mangle0: Chains, cfg: Config, p: Packet)
    requires cfg.mode == "TPROXY"
    requires Prerouting in mangle0 && SentinelInbound !in mangle0 && Closed(mangle0)
    ensures var once := RunAll(mangle0, Mangle, cfg);
            var twice := RunAll(once, Mangle, cfg);
            && Decide(twice, Prerouting, p) == Decide(once, Prerouting, p)
            && SentinelInbound in once && SentinelInbound in twice
            && twice[SentinelInbound] == once[SentinelInbound] + once[SentinelInbound]
  {
    hide Run, Decide, Walk, InboundBody, Closed, TProxyInboundExempt, TProxyCommands;
    SecondRunInbound(mangle0, cfg, cfg, p);
    TProxyInboundCorrect(mangle0, cfg, p);
    MangleAfter(mangle0, cfg);
    assert RulesOf(mangle0, SentinelInbound) + InboundBody(mangle0.Keys + {SentinelInbound}, cfg)
           == InboundBody(mangle0.Keys + {SentinelInbound}, cfg);
  }
}
