/**
 What holds while the commands run one at a time, and when some of them fail.
 */
module SwitchOver {
  import opened Text
  import opened Iptables
  import opened InitContainer
  import opened Interception
  import opened RedirectMode
  import opened Policy

  // ----- Prefixes of the command list ------------------------------------

  /** The refusals of a run that stops before command `k`. */
  function Cut(refused: seq<bool>, k: nat): seq<bool> {
    seq(|refused|, i requires 0 <= i < |refused| => refused[i] || i >= k)
  }

  /** Stopping before command `k` is the same as having every later command refused. */
  lemma RunCut(chains: Chains, t: Table, cs: seq<Option<Command>>, refused: seq<bool>, k: nat)
    requires |cs| == |refused| && k <= |cs|
    ensures Run(chains, t, cs[..k], refused[..k]) == Run(chains, t, cs, Cut(refused, k))
  {
    hide Run;
    var cut := Cut(refused, k);
    assert cs == cs[..k] + cs[k..] && cut == refused[..k] + cut[k..];
    RunConcat(chains, t, cs[..k], cs[k..], refused[..k], cut[k..]);
    RunElsewhere(Run(chains, t, cs[..k], refused[..k]), t, cs[k..], cut[k..]);
  }

  /**
   TPROXY mode, outbound: up to the last command everything passes, and the last command switches every packet to
   its final decision at once.
   */
  lemma TProxyOutboundSwitch(nat0: Chains, cfg: Config, refused: seq<bool>, k: nat, p: Packet)
    requires |refused| == |TProxyCommands(cfg)| && Output in nat0 && k <= |refused|
    requires (k >= 2 && !refused[1]) || AllEmpty(nat0)
    ensures var cs := TProxyCommands(cfg);
            var partway := Run(nat0, Nat, cs[..k], refused[..k]);
            Output in partway
            && Decide(partway, Output, p)
               == if k < |cs| then Accepted else Decide(Run(nat0, Nat, cs, refused), Output, p)
  {
    hide TProxyCommands, Run, Decide, Spared, AllEmpty, RedirectRule;
    RunCut(nat0, Nat, TProxyCommands(cfg), refused, k);
    TProxyOutbound(nat0, cfg, Cut(refused, k), p);
    if k == |refused| {
      assert Cut(refused, k) == refused;
    }
  }

  /** TPROXY mode, inbound: the catch-all, fifth from the end, switches every packet at once. */
  lemma TProxyInboundSwitch(mangle0: Chains, cfg: Config, refused: seq<bool>, k: nat, p: Packet)
    requires |refused| == |TProxyCommands(cfg)| && k <= |refused|
    requires Prerouting in mangle0 && SentinelInbound !in mangle0 && Closed(mangle0)
    ensures var cs := TProxyCommands(cfg);
            var partway := Run(mangle0, Mangle, cs[..k], refused[..k]);
            Prerouting in partway
            && Decide(partway, Prerouting, p)
               == if k <= |cs| - 5 then Verdict(Walk(mangle0 - {Prerouting}, mangle0[Prerouting], p))
                  else Decide(Run(mangle0, Mangle, cs, refused), Prerouting, p)
  {
    hide TProxyCommands, TProxyMangleExempting, Run, Decide, Walk, Spared, Closed, TProxyRule;
    var n := |refused|;
    RunCut(mangle0, Mangle, TProxyCommands(cfg), refused, k);
    TProxyInbound(mangle0, cfg, Cut(refused, k), p);
    TProxyInbound(mangle0, cfg, refused, p);
    if k > n - 5 {
      MangleSpared(cfg, refused, p);
      MangleSpared(cfg, Cut(refused, k), p);
      assert forall j :: 3 <= j < n - 5 ==> Cut(refused, k)[j] == refused[j];
      assert Cut(refused, k)[3..n - 5] == refused[3..n - 5];
    }
  }

  /** REDIRECT mode, inbound: the inbound catch-all, fifth from the end, switches all traffic at once. */
  lemma RedirectInboundSwitch(nat0: Chains, cfg: Config, refused: seq<bool>, k: nat, p: Packet)
    requires |refused| == |RedirectCommands(cfg)| && Prerouting in nat0 && k <= |refused|
    requires (k >= 1 && !refused[0]) || AllEmpty(nat0)
    ensures var cs := RedirectCommands(cfg);
            var partway := Run(nat0, Nat, cs[..k], refused[..k]);
            Prerouting in partway
            && Decide(partway, Prerouting, p)
               == if k <= |cs| - 5 then Accepted else Decide(Run(nat0, Nat, cs, refused), Prerouting, p)
  {
    hide RedirectCommands, Run, Decide, AllEmpty, RedirectRule;
    RunCut(nat0, Nat, RedirectCommands(cfg), refused, k);
    RedirectInbound(nat0, cfg, Cut(refused, k), p);
    if k > |refused| - 5 {
      RedirectInbound(nat0, cfg, refused, p);
    }
  }

  /** REDIRECT mode, outbound: the last command switches all traffic at once. */
  lemma RedirectOutboundSwitch(nat0: Chains, cfg: Config, refused: seq<bool>, k: nat, p: Packet)
    requires |refused| == |RedirectCommands(cfg)| && Output in nat0 && k <= |refused|
    requires (k >= 1 && !refused[0]) || AllEmpty(nat0)
    ensures var cs := RedirectCommands(cfg);
            var partway := Run(nat0, Nat, cs[..k], refused[..k]);
            Output in partway
            && Decide(partway, Output, p)
               == if k < |cs| then Accepted else Decide(Run(nat0, Nat, cs, refused), Output, p)
  {
    hide RedirectCommands, Run, Decide, Spared, AllEmpty, RedirectRule;
    RunCut(nat0, Nat, RedirectCommands(cfg), refused, k);
    RedirectOutbound(nat0, cfg, Cut(refused, k), p);
    if k == |refused| {
      assert Cut(refused, k) == refused;
    }
  }

  // ----- Continuing after failures ---------------------------------------

  /**
   From empty tables, whatever commands fail and in either mode: no walk loops, only TCP is diverted, and
   only to the configured ports.
   */
  lemma FailuresNeverMisroute(nat0: Chains, mangle0: Chains, cfg: Config, refused: seq<bool>, p: Packet)
    requires |refused| == |Commands(cfg)|
    requires AllEmpty(nat0) && AllEmpty(mangle0)
    requires Output in nat0 && Prerouting in nat0 && Prerouting in mangle0 && SentinelInbound !in mangle0
    ensures var natChains := Run(nat0, Nat, Commands(cfg), refused);
            var mangleChains := Run(mangle0, Mangle, Commands(cfg), refused);
            && Output in natChains && Prerouting in natChains && Prerouting in mangleChains
            && (Decide(natChains, Output, p) == Accepted
                || (p.tcp && cfg.outboundPort > 0 && Decide(natChains, Output, p) == Redirected(cfg.outboundPort)))
            && (Decide(natChains, Prerouting, p) == Accepted
                || (p.tcp && cfg.mode != "TPROXY" && cfg.inboundPort > 0
                    && Decide(natChains, Prerouting, p) == Redirected(cfg.inboundPort)))
            && (Decide(mangleChains, Prerouting, p) == Accepted
                || (p.tcp && cfg.mode == "TPROXY" && cfg.inboundPort >= 0 && cfg.proxyMark >= 0
                    && Decide(mangleChains, Prerouting, p) == TProxied(cfg.inboundPort, cfg.proxyMark, MASK)))
  {
    hide TProxyCommands, RedirectCommands, Run, Decide, Spared, Walk;
    if cfg.mode == "TPROXY" {
      TProxyOutbound(nat0, cfg, refused, p);
      WalkNothing(mangle0 - {Prerouting}, p);
      TProxyInbound(mangle0, cfg, refused, p);
      TProxyLeavesPrerouting(nat0, cfg, refused, p);
    } else {
      RedirectOutbound(nat0, cfg, refused, p);
      RedirectInbound(nat0, cfg, refused, p);
      RedirectLeavesMangle(mangle0, cfg, refused);
      DecideEmpty(mangle0, Prerouting, p);
    }
  }

  lemma DecideEmpty(chains: Chains, hook: ChainName, p: Packet)
    requires hook in chains && chains[hook] == []
    ensures Decide(chains, hook, p) == Accepted
  {
  }

  /** REDIRECT mode does not touch the mangle table. */
  lemma RedirectLeavesMangle(mangle0: Chains, cfg: Config, refused: seq<bool>)
    requires |refused| == |RedirectCommands(cfg)|
    ensures Run(mangle0, Mangle, RedirectCommands(cfg), refused) == mangle0
  {
    hide RedirectCommands, RedirectSetup, Body, Run;
    RedirectSplit(cfg);
    RedirectTables(cfg);
    RunElsewhere(mangle0, Mangle, RedirectCommands(cfg), refused);
  }

  lemma RedirectTables(cfg: Config)
    ensures forall c :: c in RedirectSetup() + Body(cfg) && c.Some? ==> c.value.table == Nat
  {
    hide Exempting;
    assert forall c :: c in Body(cfg) <==> c in Exempting(cfg) || c == OUTBOUND_JUMP || c == OutCatchAll(cfg);
    ExemptingTables(cfg);
  }

  lemma ExemptingTables(cfg: Config)
    ensures forall c :: c in Exempting(cfg) && c.Some? ==> c.value.table == Nat
  {
    hide ExclusionCommands, Split, PortRule, OwnerRule, RedirectRule;
    ExclusionTables(Split(cfg.excludePorts, ','));
  }

  lemma {:induction false} ExclusionTables(entries: seq<string>)
    ensures forall c :: c in ExclusionCommands(entries, REDIRECT_PLACES) && c.Some? ==> c.value.table == Nat
    decreases |entries|
  {
    hide PortRule;
    if entries != [] {
      ExclusionTables(entries[..|entries| - 1]);
    }
  }

  /** TPROXY mode leaves the nat PREROUTING hook empty. */
  lemma TProxyLeavesPrerouting(nat0: Chains, cfg: Config, refused: seq<bool>, p: Packet)
    requires |refused| == |TProxyCommands(cfg)| && Prerouting in nat0
    requires !refused[1] || AllEmpty(nat0)
    ensures var chains := Run(nat0, Nat, TProxyCommands(cfg), refused);
            Prerouting in chains && Decide(chains, Prerouting, p) == Accepted
  {
    hide TProxyCommands, TProxySetup, TProxyNatExempting, Run, Added, AllEmpty, RedirectRule;
    TProxySplit(cfg);
    TProxySetupLength();
    var jump, catchAll := Some(Append(Nat, Output, TcpJump(SentinelOutput))), AppendOf(Nat, SentinelOutput, RedirectRule(cfg.outboundPort));
    var body := TProxyNatExempting(cfg) + [jump] + [catchAll];
    var r0, r1 := refused[..3], refused[3..];
    assert refused == r0 + r1;
    TProxyNatSetup(nat0, r0);
    var start := Run(nat0, Nat, TProxySetup(), r0);
    RunConcat(nat0, Nat, TProxySetup(), body, r0, r1);
    NatAppends(cfg);
    RunAppends(start, Nat, body, r1);
    BodyAvoidsPrerouting(cfg);
    AddedNothing(start.Keys, Nat, Prerouting, body, r1);
    var chains := Run(start, Nat, body, r1);
    assert start[Prerouting] == [] by { EmptyAt(start, Prerouting); }
    DecideEmpty(chains, Prerouting, p);
  }

  lemma EmptyAt(chains: Chains, c: ChainName)
    requires AllEmpty(chains) && c in chains
    ensures chains[c] == []
  {
  }

  lemma BodyAvoidsPrerouting(cfg: Config)
    ensures NeverAppends(TProxyNatExempting(cfg) + [Some(Append(Nat, Output, TcpJump(SentinelOutput)))]
                         + [AppendOf(Nat, SentinelOutput, RedirectRule(cfg.outboundPort))], Nat, Prerouting)
  {
    hide TProxyExemptions, PortRule;
    TProxyExemptionShape(cfg, Nat, Prerouting);
    assert TPROXY_PLACES[0] == (Mangle, SentinelInbound) && TPROXY_PLACES[1] == (Nat, SentinelOutput);
    assert NeverAppends(TProxyInterception(cfg)[..5], Nat, Prerouting);
  }
}
