/**
 What the REDIRECT-mode rules decide, for every set of refused commands: two
 hooks, each through a chain of its own and a chain that holds the catch-all.
 */
module RedirectMode {
  import opened Text
  import opened Iptables
  import opened InitContainer
  import opened Interception

  const PREROUTING_JUMP := Some(Append(Nat, Prerouting, TcpJump(SentinelInbound)))
  const OUTPUT_JUMP := Some(Append(Nat, Output, TcpJump(SentinelOutput)))
  const INBOUND_JUMP := Some(Append(Nat, SentinelInbound, TcpJump(SentinelInRedirect)))
  const OUTBOUND_JUMP := Some(Append(Nat, SentinelOutput, Rule([], Jump(SentinelRedirect))))

  function InCatchAll(cfg: Config): Option<Command> {
    AppendOf(Nat, SentinelInRedirect, RedirectRule(cfg.inboundPort))
  }

  function OutCatchAll(cfg: Config): Option<Command> {
    AppendOf(Nat, SentinelRedirect, RedirectRule(cfg.outboundPort))
  }

  function LateExemptions(cfg: Config): seq<Option<Command>> {
    [AppendOf(Nat, SentinelOutput, OwnerRule(cfg.proxyUid)), Some(Append(Nat, SentinelOutput, ESTABLISHED_RULE))]
  }

  /** The commands that come before the jump out of SENTINEL_OUTPUT. */
  function Exempting(cfg: Config): seq<Option<Command>> {
    RedirectExemptions(cfg) + [PREROUTING_JUMP, OUTPUT_JUMP, INBOUND_JUMP, InCatchAll(cfg)] + LateExemptions(cfg)
  }

  function Body(cfg: Config): seq<Option<Command>> {
    Exempting(cfg) + [OUTBOUND_JUMP] + [OutCatchAll(cfg)]
  }

  lemma RedirectSplit(cfg: Config)
    ensures RedirectCommands(cfg) == RedirectSetup() + Body(cfg)
    ensures |Exempting(cfg)| == |RedirectExemptions(cfg)| + 6
  {
    hide RedirectExemptions, PortRule, OwnerRule, RedirectRule;
  }

  lemma ExemptionShape(cfg: Config, chain: ChainName)
    ensures ReturnsOnly(RedirectExemptions(cfg), Nat, chain)
    ensures chain != SentinelOutput ==> NeverAppends(RedirectExemptions(cfg), Nat, chain)
  {
    hide PortRule, Split, ExclusionCommands;
    PortRulesReturn();
    var fixed := RedirectExemptions(cfg)[..1];
    var exclusions := ExclusionCommands(Split(cfg.excludePorts, ','), REDIRECT_PLACES);
    ExclusionShape(Split(cfg.excludePorts, ','), REDIRECT_PLACES, Nat, chain);
    assert RedirectExemptions(cfg) == fixed + exclusions;
    ReturnsOnlyConcat(fixed, exclusions, Nat, chain);
    if chain != SentinelOutput {
      assert REDIRECT_PLACES[0] == (Nat, SentinelOutput);
      NeverAppendsConcat(fixed, exclusions, Nat, chain);
    }
  }

  lemma LateShape(cfg: Config, chain: ChainName)
    ensures ReturnsOnly(LateExemptions(cfg), Nat, chain)
    ensures chain != SentinelOutput ==> NeverAppends(LateExemptions(cfg), Nat, chain)
  {
  }

  lemma ExemptingShape(cfg: Config)
    ensures ReturnsOnly(Exempting(cfg), Nat, SentinelOutput)
    ensures NeverAppends(Exempting(cfg), Nat, SentinelRedirect)
    ensures OnlyAppends(Body(cfg), Nat)
  {
    hide RedirectExemptions, LateExemptions, RedirectRule;
    var middle := [PREROUTING_JUMP, OUTPUT_JUMP, INBOUND_JUMP, InCatchAll(cfg)];
    ExemptionShape(cfg, SentinelOutput);
    ExemptionShape(cfg, SentinelRedirect);
    LateShape(cfg, SentinelOutput);
    LateShape(cfg, SentinelRedirect);
    ReturnsOnlyConcat(RedirectExemptions(cfg), middle, Nat, SentinelOutput);
    ReturnsOnlyConcat(RedirectExemptions(cfg) + middle, LateExemptions(cfg), Nat, SentinelOutput);
    NeverAppendsConcat(RedirectExemptions(cfg), middle, Nat, SentinelRedirect);
    NeverAppendsConcat(RedirectExemptions(cfg) + middle, LateExemptions(cfg), Nat, SentinelRedirect);
  }

  /** A chain that only the middle commands, the jumps and the inbound catch-all, append to. */
  lemma MiddleAdded(cfg: Config, names: set<ChainName>, chain: ChainName, i: nat, refused: seq<bool>)
    requires |refused| == |Body(cfg)| && i < 4
    requires chain != SentinelOutput && chain != SentinelRedirect
    requires var middle := [PREROUTING_JUMP, OUTPUT_JUMP, INBOUND_JUMP, InCatchAll(cfg)];
             forall j :: 0 <= j < 4 && j != i && middle[j].Some? ==> middle[j].value.chain != chain
    ensures |refused| >= 8
    ensures var x := [PREROUTING_JUMP, OUTPUT_JUMP, INBOUND_JUMP, InCatchAll(cfg)][i];
            Added(names, Nat, chain, Body(cfg), refused)
            == if Adds(names, Nat, chain, x, refused[|refused| - 8 + i]) then [x.value.rule] else []
  {
    hide RedirectExemptions, LateExemptions, RedirectRule, Added;
    var middle := [PREROUTING_JUMP, OUTPUT_JUMP, INBOUND_JUMP, InCatchAll(cfg)];
    var a := RedirectExemptions(cfg) + middle[..i];
    var late := LateExemptions(cfg) + [OUTBOUND_JUMP] + [OutCatchAll(cfg)];
    var b := middle[i + 1..] + late;
    assert |LateExemptions(cfg)| == 2 by { LateLength(cfg); }
    assert Body(cfg) == a + [middle[i]] + b;
    ExemptionShape(cfg, chain);
    LateShape(cfg, chain);
    NeverAppendsConcat(RedirectExemptions(cfg), middle[..i], Nat, chain);
    NeverAppendsConcat(LateExemptions(cfg) + [OUTBOUND_JUMP], [OutCatchAll(cfg)], Nat, chain);
    NeverAppendsConcat(middle[i + 1..], late, Nat, chain);
    AddedSingle(names, Nat, chain, a, middle[i], b, refused);
  }

  lemma LateLength(cfg: Config)
    ensures |LateExemptions(cfg)| == 2
  {
  }

  /** After the flush and the four new chains, every chain is empty. */
  lemma RedirectNatSetup(nat0: Chains, refused: seq<bool>)
    requires |refused| == 5 && (!refused[0] || AllEmpty(nat0))
    ensures var chains := Run(nat0, Nat, RedirectSetup(), refused);
            AllEmpty(chains)
            && chains.Keys == nat0.Keys + (if refused[1] then {} else {SentinelInbound})
                              + (if refused[2] then {} else {SentinelRedirect})
                              + (if refused[3] then {} else {SentinelOutput})
                              + (if refused[4] then {} else {SentinelInRedirect})
  {
    var cs := RedirectSetup();
    var s0 := Step(nat0, Nat, cs[0], refused[0]);
    assert AllEmpty(s0) && s0.Keys == nat0.Keys;
    assert Run(nat0, Nat, cs, refused) == Run(s0, Nat, cs[1..], refused[1..]);
    NewChains(s0, [SentinelInbound, SentinelRedirect, SentinelOutput, SentinelInRedirect], cs[1..], refused[1..]);
  }

  /** Creating two chains in a table of empty chains. */
  lemma NewPair(chains: Chains, names: seq<ChainName>, cs: seq<Option<Command>>, refused: seq<bool>)
    requires |names| == |cs| == |refused| == 2 && AllEmpty(chains)
    requires forall i :: 0 <= i < 2 ==> cs[i] == Some(NewChain(Nat, names[i]))
    ensures AllEmpty(Run(chains, Nat, cs, refused))
    ensures Run(chains, Nat, cs, refused).Keys
            == chains.Keys + (if refused[0] then {} else {names[0]}) + (if refused[1] then {} else {names[1]})
  {
    NewChainStep(chains, names[0], refused[0]);
    var s1 := Step(chains, Nat, cs[0], refused[0]);
    NewChainStep(s1, names[1], refused[1]);
    var s2 := Step(s1, Nat, cs[1], refused[1]);
    hide Step;
    assert Run(chains, Nat, cs, refused) == Run(s1, Nat, cs[1..], refused[1..]);
    assert cs[1..] == [cs[1]] && refused[1..] == [refused[1]];
    assert Run(s1, Nat, [cs[1]], [refused[1]]) == Run(s2, Nat, [cs[1]][1..], [refused[1]][1..]);
  }

  /** Creating four chains in a table of empty chains. */
  lemma NewChains(chains: Chains, names: seq<ChainName>, cs: seq<Option<Command>>, refused: seq<bool>)
    requires |names| == |cs| == |refused| == 4 && AllEmpty(chains)
    requires forall i :: 0 <= i < 4 ==> cs[i] == Some(NewChain(Nat, names[i]))
    ensures AllEmpty(Run(chains, Nat, cs, refused))
    ensures Run(chains, Nat, cs, refused).Keys
            == chains.Keys + (if refused[0] then {} else {names[0]}) + (if refused[1] then {} else {names[1]})
               + (if refused[2] then {} else {names[2]}) + (if refused[3] then {} else {names[3]})
  {
    hide Run, AllEmpty;
    NewPair(chains, names[..2], cs[..2], refused[..2]);
    var mid := Run(chains, Nat, cs[..2], refused[..2]);
    NewPair(mid, names[2..], cs[2..], refused[2..]);
    assert cs == cs[..2] + cs[2..] && refused == refused[..2] + refused[2..];
    RunConcat(chains, Nat, cs[..2], cs[2..], refused[..2], refused[2..]);
  }

  lemma NewChainStep(chains: Chains, name: ChainName, refused: bool)
    requires AllEmpty(chains)
    ensures var next := Step(chains, Nat, Some(NewChain(Nat, name)), refused);
            AllEmpty(next) && next.Keys == chains.Keys + (if refused then {} else {name})
  {
  }

  /** A run starts its body from empty chains. */
  lemma RedirectStart(nat0: Chains, cfg: Config, refused: seq<bool>) returns (start: Chains)
    requires |refused| == |RedirectCommands(cfg)| && (!refused[0] || AllEmpty(nat0))
    ensures |Body(cfg)| == |refused| - 5
    ensures AllEmpty(start) && Run(nat0, Nat, RedirectCommands(cfg), refused) == Run(start, Nat, Body(cfg), refused[5..])
    ensures nat0.Keys <= start.Keys
    ensures SentinelInbound in start <==> SentinelInbound in nat0 || !refused[1]
    ensures SentinelRedirect in start <==> SentinelRedirect in nat0 || !refused[2]
    ensures SentinelOutput in start <==> SentinelOutput in nat0 || !refused[3]
    ensures SentinelInRedirect in start <==> SentinelInRedirect in nat0 || !refused[4]
  {
    hide RedirectCommands, RedirectSetup, Body, Run;
    RedirectSplit(cfg);
    SetupLength();
    var r0, r1 := refused[..5], refused[5..];
    assert refused == r0 + r1;
    RedirectNatSetup(nat0, r0);
    start := Run(nat0, Nat, RedirectSetup(), r0);
    RunConcat(nat0, Nat, RedirectSetup(), Body(cfg), r0, r1);
  }

  lemma SetupLength()
    ensures |RedirectSetup()| == 5
  {
  }

  function CatchAllRules(port: int, refused: bool): seq<Rule> {
    if !refused && RedirectRule(port).Some? then [RedirectRule(port).value] else []
  }

  lemma MiddleContents(start: Chains, cfg: Config, chain: ChainName, i: nat, refused: seq<bool>)
    requires |refused| == |Body(cfg)| && i < 4 && AllEmpty(start) && chain in start
    requires chain != SentinelOutput && chain != SentinelRedirect
    requires var middle := [PREROUTING_JUMP, OUTPUT_JUMP, INBOUND_JUMP, InCatchAll(cfg)];
             forall j :: 0 <= j < 4 && j != i && middle[j].Some? ==> middle[j].value.chain != chain
    ensures |refused| >= 8
    ensures var x := [PREROUTING_JUMP, OUTPUT_JUMP, INBOUND_JUMP, InCatchAll(cfg)][i];
            var chains := Run(start, Nat, Body(cfg), refused);
            chains.Keys == start.Keys
            && chains[chain] == if Adds(start.Keys, Nat, chain, x, refused[|refused| - 8 + i]) then [x.value.rule] else []
  {
    hide Body, Run, Added, Adds, InCatchAll;
    ExemptingShape(cfg);
    RunAppends(start, Nat, Body(cfg), refused);
    MiddleAdded(cfg, start.Keys, chain, i, refused);
  }

  lemma InboundContents(start: Chains, cfg: Config, refused: seq<bool>)
    requires |refused| == |Body(cfg)| && AllEmpty(start) && Prerouting in start
    ensures |refused| >= 8
    ensures var chains, n := Run(start, Nat, Body(cfg), refused), |refused|;
            && chains.Keys == start.Keys
            && chains[Prerouting] == Optionally(SentinelInbound in start && !refused[n - 8], TcpJump(SentinelInbound))
            && (SentinelInbound in start ==>
                  chains[SentinelInbound] == Optionally(SentinelInRedirect in start && !refused[n - 6], TcpJump(SentinelInRedirect)))
            && (SentinelInRedirect in start ==> chains[SentinelInRedirect] == CatchAllRules(cfg.inboundPort, refused[n - 5]))
  {
    hide Body, Run;
    MiddleContents(start, cfg, Prerouting, 0, refused);
    if SentinelInbound in start {
      MiddleContents(start, cfg, SentinelInbound, 2, refused);
    }
    if SentinelInRedirect in start {
      MiddleContents(start, cfg, SentinelInRedirect, 3, refused);
    }
  }

  lemma ExemptingLength(cfg: Config)
    ensures |Exempting(cfg)| == |Body(cfg)| - 2
  {
    hide Exempting;
  }

  lemma OutputContents(start: Chains, cfg: Config, refused: seq<bool>)
    requires |refused| == |Body(cfg)| && AllEmpty(start) && SentinelOutput in start
    ensures |Exempting(cfg)| == |refused| - 2
    ensures var chains, n := Run(start, Nat, Body(cfg), refused), |refused|;
            SentinelOutput in chains
            && chains[SentinelOutput]
               == Added(start.Keys, Nat, SentinelOutput, Exempting(cfg), refused[..n - 2])
                  + Optionally(SentinelRedirect in start && !refused[n - 2], Rule([], Jump(SentinelRedirect)))
  {
    hide Exempting, Run, Added;
    ExemptingShape(cfg);
    RunAppends(start, Nat, Body(cfg), refused);
    AddedInThree(start.Keys, Nat, SentinelOutput, Exempting(cfg), OUTBOUND_JUMP, OutCatchAll(cfg), refused);
  }

  lemma OutCatchAllContents(start: Chains, cfg: Config, refused: seq<bool>)
    requires |refused| == |Body(cfg)| && AllEmpty(start) && SentinelRedirect in start
    ensures |refused| >= 2
    ensures var chains, n := Run(start, Nat, Body(cfg), refused), |refused|;
            SentinelRedirect in chains && chains[SentinelRedirect] == CatchAllRules(cfg.outboundPort, refused[n - 1])
  {
    hide Exempting, Run, Added;
    ExemptingShape(cfg);
    RunAppends(start, Nat, Body(cfg), refused);
    NeverAppendsConcat(Exempting(cfg), [OUTBOUND_JUMP], Nat, SentinelRedirect);
    assert Body(cfg) == Exempting(cfg) + [OUTBOUND_JUMP] + [OutCatchAll(cfg)] + [];
    AddedSingle(start.Keys, Nat, SentinelRedirect, Exempting(cfg) + [OUTBOUND_JUMP], OutCatchAll(cfg), [], refused);
  }

  lemma OutboundContents(start: Chains, cfg: Config, refused: seq<bool>)
    requires |refused| == |Body(cfg)| && AllEmpty(start) && Output in start
    ensures |refused| >= 8 && |Exempting(cfg)| == |refused| - 2
    ensures var chains, n := Run(start, Nat, Body(cfg), refused), |refused|;
            && chains.Keys == start.Keys
            && chains[Output] == Optionally(SentinelOutput in start && !refused[n - 7], TcpJump(SentinelOutput))
            && (SentinelOutput in start ==>
                  chains[SentinelOutput]
                  == Added(start.Keys, Nat, SentinelOutput, Exempting(cfg), refused[..n - 2])
                     + Optionally(SentinelRedirect in start && !refused[n - 2], Rule([], Jump(SentinelRedirect))))
            && (SentinelRedirect in start ==> chains[SentinelRedirect] == CatchAllRules(cfg.outboundPort, refused[n - 1]))
  {
    hide Body, Run, Added, Exempting;
    ExemptingLength(cfg);
    MiddleContents(start, cfg, Output, 1, refused);
    if SentinelOutput in start {
      OutputContents(start, cfg, refused);
    }
    if SentinelRedirect in start {
      OutCatchAllContents(start, cfg, refused);
    }
  }

  lemma WalkCatchAllRules(chains: Chains, port: int, refused: bool, p: Packet)
    ensures Walk(chains, CatchAllRules(port, refused), p)
            == if !refused && RedirectRule(port).Some? && p.tcp then Redirected(port) else FellOff
  {
    hide Walk;
    WalkCatchAll(chains, !refused && RedirectRule(port).Some?, RedirectRule(port), p);
  }

  /**
   Inbound traffic in REDIRECT mode, for every set of refused commands: TCP goes to the inbound port exactly when both
   chains, both jumps and the catch-all are in place; nothing else is diverted.
   */
  lemma RedirectInbound(nat0: Chains, cfg: Config, refused: seq<bool>, p: Packet)
    requires |refused| == |RedirectCommands(cfg)| && Prerouting in nat0
    requires !refused[0] || AllEmpty(nat0)
    ensures var chains, n := Run(nat0, Nat, RedirectCommands(cfg), refused), |refused|;
            Prerouting in chains
            && Decide(chains, Prerouting, p)
               == if p.tcp && (SentinelInbound in nat0 || !refused[1]) && (SentinelInRedirect in nat0 || !refused[4])
                     && !refused[n - 8] && !refused[n - 6] && !refused[n - 5] && RedirectRule(cfg.inboundPort).Some?
                  then Redirected(cfg.inboundPort) else Accepted
  {
    hide RedirectCommands, Body, Run, Decide, RedirectRule, CatchAllRules;
    var start := RedirectStart(nat0, cfg, refused);
    var r, n := refused[5..], |refused|;
    InboundContents(start, cfg, r);
    var chains := Run(start, Nat, Body(cfg), r);
    InboundDecision(chains, SentinelInbound in start && !r[|r| - 8], SentinelInRedirect in start && !r[|r| - 6],
                    cfg.inboundPort, r[|r| - 5], p);
  }

  lemma InboundDecision(chains: Chains, jump1: bool, jump2: bool, port: int, refused: bool, p: Packet)
    requires Prerouting in chains && chains[Prerouting] == Optionally(jump1, TcpJump(SentinelInbound))
    requires jump1 ==> SentinelInbound in chains && chains[SentinelInbound] == Optionally(jump2, TcpJump(SentinelInRedirect))
    requires jump2 ==> SentinelInRedirect in chains && chains[SentinelInRedirect] == CatchAllRules(port, refused)
    ensures Decide(chains, Prerouting, p)
            == if p.tcp && jump1 && jump2 && !refused && RedirectRule(port).Some? then Redirected(port) else Accepted
  {
    hide Walk, RedirectRule, CatchAllRules, AnyMatches;
    NoneMatch(p);
    var inner := Optionally(jump2, TcpJump(SentinelInRedirect));
    DecideThrough(chains, Prerouting, SentinelInbound, jump1, [], [], inner, p);
    var rest := chains - {Prerouting} - {SentinelInbound};
    WalkThrough(rest, SentinelInRedirect, jump2, [], CatchAllRules(port, refused), p);
    WalkCatchAllRules(rest - {SentinelInRedirect}, port, refused, p);
  }

  /**
   Outbound traffic in REDIRECT mode, for every set of refused commands: TCP goes to the outbound port exactly when
   both chains, both jumps and the catch-all are in place and no surviving rule exempts it.
   */
  lemma RedirectOutbound(nat0: Chains, cfg: Config, refused: seq<bool>, p: Packet)
    requires |refused| == |RedirectCommands(cfg)| && Output in nat0
    requires !refused[0] || AllEmpty(nat0)
    ensures var cs, n := RedirectCommands(cfg), |refused|;
            var chains := Run(nat0, Nat, cs, refused);
            Output in chains
            && Decide(chains, Output, p)
               == if p.tcp && (SentinelOutput in nat0 || !refused[3]) && (SentinelRedirect in nat0 || !refused[2])
                     && !refused[n - 7] && !refused[n - 2] && !refused[n - 1] && RedirectRule(cfg.outboundPort).Some?
                     && !Spared(cs, refused, Nat, SentinelOutput, p)
                  then Redirected(cfg.outboundPort) else Accepted
  {
    hide RedirectCommands, Body, Exempting, Run, Decide, RedirectRule, CatchAllRules, Added, AnyMatches, AllReturn, Spared, ReturnsOnly;
    var start := RedirectStart(nat0, cfg, refused);
    var r, n := refused[5..], |refused|;
    OutboundContents(start, cfg, r);
    var chains := Run(start, Nat, Body(cfg), r);
    var exempting := Added(start.Keys, Nat, SentinelOutput, Exempting(cfg), r[..|r| - 2]);
    OutboundSpared(cfg, refused, p);
    if SentinelOutput in start {
      ExemptingShape(cfg);
      AddedReturns(start.Keys, Nat, SentinelOutput, Exempting(cfg), r[..|r| - 2], p);
    }
    OutboundDecision(chains, SentinelOutput in start && !r[|r| - 7], SentinelRedirect in start && !r[|r| - 2],
                     exempting, cfg.outboundPort, r[|r| - 1], p);
  }

  lemma OutboundDecision(chains: Chains, jump1: bool, jump2: bool, exempting: seq<Rule>, port: int, refused: bool, p: Packet)
    requires Output in chains && chains[Output] == Optionally(jump1, TcpJump(SentinelOutput))
    requires jump1 ==> SentinelOutput in chains && AllReturn(exempting)
                       && chains[SentinelOutput] == exempting + Optionally(jump2, Rule([], Jump(SentinelRedirect)))
    requires jump2 ==> SentinelRedirect in chains && chains[SentinelRedirect] == CatchAllRules(port, refused)
    ensures Decide(chains, Output, p)
            == if p.tcp && jump1 && jump2 && !AnyMatches(exempting, p) && !refused && RedirectRule(port).Some?
               then Redirected(port) else Accepted
  {
    hide Walk, RedirectRule, CatchAllRules, AnyMatches;
    NoneMatch(p);
    var inner := Optionally(jump2, Rule([], Jump(SentinelRedirect)));
    DecideThrough(chains, Output, SentinelOutput, jump1, [], exempting, inner, p);
    var rest := chains - {Output} - {SentinelOutput};
    if jump2 {
      WalkBareJump(rest, SentinelRedirect, p);
    } else {
      WalkNothing(rest, p);
    }
    WalkCatchAllRules(rest - {SentinelRedirect}, port, refused, p);
  }

  lemma NoneMatch(p: Packet)
    ensures AllReturn([]) && !AnyMatches([], p)
  {
  }

  lemma OutboundSpared(cfg: Config, refused: seq<bool>, p: Packet)
    requires |refused| == |RedirectCommands(cfg)|
    ensures |Exempting(cfg)| == |refused| - 7
    ensures Spared(RedirectCommands(cfg), refused, Nat, SentinelOutput, p)
            <==> Spared(Exempting(cfg), refused[5..][..|refused| - 7], Nat, SentinelOutput, p)
  {
    hide RedirectCommands, RedirectSetup, Exempting, Spared;
    RedirectSplit(cfg);
    SetupLength();
    var r0, r1 := refused[..5], refused[5..];
    assert refused == r0 + r1;
    SetupExemptsNothing(p);
    SparedByPrefix(RedirectSetup(), Exempting(cfg), OUTBOUND_JUMP, OutCatchAll(cfg), r0, r1, Nat, SentinelOutput, p);
  }

  lemma SetupExemptsNothing(p: Packet)
    ensures forall i :: 0 <= i < |RedirectSetup()| ==> !Spares(RedirectSetup()[i], Nat, SentinelOutput, p)
  {
  }
}
