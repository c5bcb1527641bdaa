/**
 What the installed rules decide, for every set of refused commands. The
 statements cover any flags, any packet and any earlier contents of the tables.
 */
module Interception {
  import opened Text
  import opened Iptables
  import opened InitContainer

  // ----- Lists of commands -----------------------------------------------

  predicate AllEmpty(chains: Chains) {
    forall c <- chains :: chains[c] == []
  }

  /** The command exempts packet `p` by a RETURN rule in `chain`. */
  predicate Spares(c: Option<Command>, t: Table, chain: ChainName, p: Packet) {
    c.Some? && c.value.Append? && c.value.table == t && c.value.chain == chain
    && c.value.rule.target == Return && Matches(c.value.rule, p)
  }

  /** Some command that was not refused exempts packet `p` in `chain`. */
  ghost predicate Spared(cs: seq<Option<Command>>, refused: seq<bool>, t: Table, chain: ChainName, p: Packet)
    requires |cs| == |refused|
  {
    exists i :: 0 <= i < |cs| && !refused[i] && Spares(cs[i], t, chain, p)
  }

  lemma SparedConcat(a: seq<Option<Command>>, b: seq<Option<Command>>, ra: seq<bool>, rb: seq<bool>,
                     t: Table, chain: ChainName, p: Packet)
    requires |a| == |ra| && |b| == |rb|
    ensures Spared(a + b, ra + rb, t, chain, p) <==> Spared(a, ra, t, chain, p) || Spared(b, rb, t, chain, p)
  {
    hide Spares;
    var cs, refused := a + b, ra + rb;
    if Spared(cs, refused, t, chain, p) {
      var i :| 0 <= i < |cs| && !refused[i] && Spares(cs[i], t, chain, p);
      if i >= |a| { assert !rb[i - |a|] && Spares(b[i - |a|], t, chain, p); }
    }
    if Spared(a, ra, t, chain, p) {
      var i :| 0 <= i < |a| && !ra[i] && Spares(a[i], t, chain, p);
      assert !refused[i] && Spares(cs[i], t, chain, p);
    }
    if Spared(b, rb, t, chain, p) {
      var i :| 0 <= i < |b| && !rb[i] && Spares(b[i], t, chain, p);
      assert !refused[|a| + i] && Spares(cs[|a| + i], t, chain, p);
    }
  }

  /** Commands on `chain` of table `t` only append RETURN rules. */
  predicate ReturnsOnly(cs: seq<Option<Command>>, t: Table, chain: ChainName) {
    forall i :: 0 <= i < |cs| && cs[i].Some? && cs[i].value.table == t ==>
                  cs[i].value.Append? && (cs[i].value.chain == chain ==> cs[i].value.rule.target == Return)
  }

  /** What RETURN rules of a list do to a chain that exists. */
  lemma AddedReturns(names: set<ChainName>, t: Table, chain: ChainName, cs: seq<Option<Command>>, refused: seq<bool>, p: Packet)
    requires |cs| == |refused| && ReturnsOnly(cs, t, chain) && chain in names
    ensures AllReturn(Added(names, t, chain, cs, refused))
    ensures AnyMatches(Added(names, t, chain, cs, refused), p) <==> Spared(cs, refused, t, chain, p)
  {
    var rules := Added(names, t, chain, cs, refused);
    forall k | 0 <= k < |rules|
      ensures rules[k].target == Return
      ensures Matches(rules[k], p) ==> Spared(cs, refused, t, chain, p)
    {
      AddedMember(names, t, chain, cs, refused, rules[k]);
      var i :| 0 <= i < |cs| && Adds(names, t, chain, cs[i], refused[i]) && cs[i].value.rule == rules[k];
      assert Matches(rules[k], p) ==> !refused[i] && Spares(cs[i], t, chain, p);
    }
    if Spared(cs, refused, t, chain, p) {
      var i :| 0 <= i < |cs| && !refused[i] && Spares(cs[i], t, chain, p);
      AddedMember(names, t, chain, cs, refused, cs[i].value.rule);
      assert Adds(names, t, chain, cs[i], refused[i]);
    }
  }

  function Optionally(present: bool, r: Rule): seq<Rule> {
    if present then [r] else []
  }

  lemma AddedOne(names: set<ChainName>, t: Table, chain: ChainName, c: Option<Command>, refused: bool)
    ensures Added(names, t, chain, [c], [refused])
            == if Adds(names, t, chain, c, refused) then [c.value.rule] else []
  {
    assert Added(names, t, chain, [c][1..], [refused][1..]) == [];
  }

  // ----- Walking the shapes that occur -----------------------------------

  lemma WalkReturnsThen(chains: Chains, exempting: seq<Rule>, tail: seq<Rule>, p: Packet)
    requires AllReturn(exempting)
    ensures Walk(chains, exempting + tail, p) == if AnyMatches(exempting, p) then Returned else Walk(chains, tail, p)
  {
    hide Walk, AnyMatches;
    WalkReturns(chains, exempting, p);
    WalkConcat(chains, exempting, tail, p);
  }

  lemma WalkTcpJump(chains: Chains, to: ChainName, p: Packet)
    requires to in chains
    ensures Walk(chains, [TcpJump(to)], p)
            == if p.tcp && !Continues(Walk(chains - {to}, chains[to], p)) then Walk(chains - {to}, chains[to], p) else FellOff
  {
    assert Matches(TcpJump(to), p) <==> MatchHolds(TcpJump(to).matches[0], p);
    assert [TcpJump(to)][1..] == [];
  }

  lemma WalkBareJump(chains: Chains, to: ChainName, p: Packet)
    requires to in chains
    ensures Walk(chains, [Rule([], Jump(to))], p)
            == if Continues(Walk(chains - {to}, chains[to], p)) then FellOff else Walk(chains - {to}, chains[to], p)
  {
    assert [Rule([], Jump(to))][1..] == [];
  }

  lemma WalkDivert(chains: Chains, r: Rule, p: Packet)
    requires r.matches == [Tcp] && (r.target.Redirect? || r.target.TProxy?)
    ensures Walk(chains, [r], p) == if p.tcp then Diverted(r.target) else FellOff
  {
    assert Matches(r, p) <==> MatchHolds(r.matches[0], p);
    assert [r][1..] == [];
  }

  function Diverted(t: Target): Outcome
    requires t.Redirect? || t.TProxy?
  {
    if t.Redirect? then Redirected(t.port) else TProxied(t.onPort, t.mark, t.mask)
  }

  // ----- Outbound in TPROXY mode -----------------------------------------

  /** No command of the list puts a rule into `chain`. */
  predicate NeverAppends(cs: seq<Option<Command>>, t: Table, chain: ChainName) {
    forall i :: 0 <= i < |cs| && cs[i].Some? && cs[i].value.table == t ==>
                  cs[i].value.Append? && cs[i].value.chain != chain
  }

  lemma EntryShape(port: string, places: seq<(Table, ChainName)>, t: Table, chain: ChainName)
    ensures ReturnsOnly(EntryCommands(port, places), t, chain)
    ensures (t, chain) !in places ==> NeverAppends(EntryCommands(port, places), t, chain)
  {
    hide NamedPort;
    var cs := EntryCommands(port, places);
    forall i | 0 <= i < |cs|
      ensures cs[i] == AppendOf(places[i].0, places[i].1, PortRule(port)) && (places[i].0, places[i].1) in places
    {
      assert places[i] == (places[i].0, places[i].1);
    }
  }

  lemma {:induction false} ExclusionShape(entries: seq<string>, places: seq<(Table, ChainName)>, t: Table, chain: ChainName)
    ensures ReturnsOnly(ExclusionCommands(entries, places), t, chain)
    ensures (t, chain) !in places ==> NeverAppends(ExclusionCommands(entries, places), t, chain)
    decreases |entries|
  {
    hide EntryCommands;
    if entries != [] {
      ExclusionShape(entries[..|entries| - 1], places, t, chain);
      EntryShape(entries[|entries| - 1], places, t, chain);
    }
  }

  lemma ReturnsOnlyConcat(a: seq<Option<Command>>, b: seq<Option<Command>>, t: Table, chain: ChainName)
    requires ReturnsOnly(a, t, chain) && ReturnsOnly(b, t, chain)
    ensures ReturnsOnly(a + b, t, chain)
  {
  }

  lemma PortRulesReturn()
    ensures forall text :: PortRule(text).Some? ==> PortRule(text).value.target == Return
    ensures forall uid :: OwnerRule(uid).Some? ==> OwnerRule(uid).value.target == Return
  {
    hide NamedPort;
  }

  /** The nat commands of TPROXY mode that only exempt traffic. */
  function TProxyNatExempting(cfg: Config): seq<Option<Command>> {
    TProxyExemptions(cfg) + TProxyInterception(cfg)[..5]
  }

  lemma TProxySplit(cfg: Config)
    ensures TProxyCommands(cfg) == TProxySetup() + (TProxyNatExempting(cfg)
                                                    + [Some(Append(Nat, Output, TcpJump(SentinelOutput)))]
                                                    + [AppendOf(Nat, SentinelOutput, RedirectRule(cfg.outboundPort))])
    ensures ReturnsOnly(TProxyNatExempting(cfg), Nat, Output)
    ensures ReturnsOnly(TProxyNatExempting(cfg), Nat, SentinelOutput)
  {
    hide PortRule, OwnerRule, Split, ExclusionCommands;
    forall chain | chain == Output || chain == SentinelOutput
      ensures ReturnsOnly(TProxyNatExempting(cfg), Nat, chain)
    {
      PortRulesReturn();
      var fixed := TProxyExemptions(cfg)[..6];
      var exclusions := ExclusionCommands(Split(cfg.excludePorts, ','), TPROXY_PLACES);
      ExclusionShape(Split(cfg.excludePorts, ','), TPROXY_PLACES, Nat, chain);
      ReturnsOnlyConcat(fixed, exclusions, Nat, chain);
      ReturnsOnlyConcat(fixed + exclusions, TProxyInterception(cfg)[..5], Nat, chain);
      assert TProxyExemptions(cfg) == fixed + exclusions;
    }
  }

  /** A successful flush, or a table that was empty, leaves empty chains for the rest of the run. */
  lemma TProxyNatSetup(nat0: Chains, refused: seq<bool>)
    requires |refused| == 3 && (!refused[1] || AllEmpty(nat0))
    ensures var chains := Run(nat0, Nat, TProxySetup(), refused);
            AllEmpty(chains) && chains.Keys == nat0.Keys + (if refused[2] then {} else {SentinelOutput})
  {
    var cs := TProxySetup();
    var s1 := Step(nat0, Nat, cs[0], refused[0]);
    var s2 := Step(s1, Nat, cs[1], refused[1]);
    var s3 := Step(s2, Nat, cs[2], refused[2]);
    assert s1 == nat0 && AllEmpty(s2) && s2.Keys == nat0.Keys;
    assert cs[1..][1..][1..] == [] && refused[1..][1..][1..] == [];
    assert Run(nat0, Nat, cs, refused) == Run(s3, Nat, cs[1..][1..][1..], refused[1..][1..][1..]);
  }

  /** The chains after a list that appends exempting rules, then `x`, then `y`. */
  lemma AddedInThree(names: set<ChainName>, t: Table, chain: ChainName,
                     pre: seq<Option<Command>>, x: Option<Command>, y: Option<Command>, refused: seq<bool>)
    requires |refused| == |pre| + 2
    ensures Added(names, t, chain, pre + [x] + [y], refused)
            == Added(names, t, chain, pre, refused[..|pre|])
               + (if Adds(names, t, chain, x, refused[|pre|]) then [x.value.rule] else [])
               + (if Adds(names, t, chain, y, refused[|pre| + 1]) then [y.value.rule] else [])
  {
    hide Added, Adds;
    var n := |pre|;
    assert refused == refused[..n] + [refused[n]] + [refused[n + 1]];
    AddedConcat(names, t, chain, pre + [x], [y], refused[..n] + [refused[n]], [refused[n + 1]]);
    AddedConcat(names, t, chain, pre, [x], refused[..n], [refused[n]]);
    AddedOne(names, t, chain, x, refused[n]);
    AddedOne(names, t, chain, y, refused[n + 1]);
  }

  /** Perhaps a jump for TCP into `user`, whose rules are `exempting` and then `tail`. */
  lemma WalkThrough(chains: Chains, user: ChainName, jump: bool, exempting: seq<Rule>, tail: seq<Rule>, p: Packet)
    requires jump ==> user in chains && chains[user] == exempting + tail && AllReturn(exempting)
    ensures Verdict(Walk(chains, Optionally(jump, TcpJump(user)), p))
            == if jump && p.tcp && !AnyMatches(exempting, p) then Verdict(Walk(chains - {user}, tail, p)) else Accepted
  {
    hide Walk, AnyMatches;
    if jump {
      WalkTcpJump(chains, user, p);
      WalkReturnsThen(chains - {user}, exempting, tail, p);
    } else {
      WalkNothing(chains, p);
    }
  }

  /** The same behind the rules `hookExempting` of a built-in chain. */
  lemma DecideThrough(chains: Chains, hook: ChainName, user: ChainName, jump: bool,
                      hookExempting: seq<Rule>, exempting: seq<Rule>, tail: seq<Rule>, p: Packet)
    requires hook in chains && hook != user && AllReturn(hookExempting)
    requires chains[hook] == hookExempting + Optionally(jump, TcpJump(user))
    requires jump ==> user in chains && chains[user] == exempting + tail && AllReturn(exempting)
    ensures Decide(chains, hook, p)
            == if jump && p.tcp && !AnyMatches(hookExempting, p) && !AnyMatches(exempting, p)
               then Verdict(Walk(chains - {hook} - {user}, tail, p)) else Accepted
  {
    hide Walk, AnyMatches;
    WalkReturnsThen(chains - {hook}, hookExempting, Optionally(jump, TcpJump(user)), p);
    WalkThrough(chains - {hook}, user, jump, exempting, tail, p);
  }

  lemma WalkNothing(chains: Chains, p: Packet)
    ensures Walk(chains, [], p) == FellOff
  {
  }

  /** The rule of a catch-all diverts TCP. */
  lemma WalkCatchAll(chains: Chains, present: bool, r: Option<Rule>, p: Packet)
    requires present ==> r.Some? && r.value.matches == [Tcp] && (r.value.target.Redirect? || r.value.target.TProxy?)
    ensures Walk(chains, if present then [r.value] else [], p)
            == if present && p.tcp then Diverted(r.value.target) else FellOff
  {
    if present { WalkDivert(chains, r.value, p); } else { WalkNothing(chains, p); }
  }

  /**
   Outbound traffic in TPROXY mode, for every set of refused commands: a TCP packet is redirected exactly when
   the user chain, the jump into it and its catch-all are in place and no surviving rule exempts the packet.
   */
  lemma TProxyOutbound(nat0: Chains, cfg: Config, refused: seq<bool>, p: Packet)
    requires |refused| == |TProxyCommands(cfg)| && Output in nat0
    requires !refused[1] || AllEmpty(nat0)
    ensures var cs, n := TProxyCommands(cfg), |refused|;
            var chains := Run(nat0, Nat, cs, refused);
            Output in chains
            && Decide(chains, Output, p)
               == if p.tcp && (SentinelOutput in nat0 || !refused[2]) && !refused[n - 2]
                     && !refused[n - 1] && RedirectRule(cfg.outboundPort).Some?
                     && !Spared(cs, refused, Nat, Output, p) && !Spared(cs, refused, Nat, SentinelOutput, p)
                  then Redirected(cfg.outboundPort) else Accepted
  {
    hide TProxyCommands, TProxySetup, TProxyNatExempting, Run, Added, Decide, AnyMatches, ReturnsOnly, AllReturn, Spared, Walk;
    var cs, n := TProxyCommands(cfg), |refused|;
    TProxySplit(cfg);
    var setup, pre := TProxySetup(), TProxyNatExempting(cfg);
    var jump, catchAll := Some(Append(Nat, Output, TcpJump(SentinelOutput))), AppendOf(Nat, SentinelOutput, RedirectRule(cfg.outboundPort));
    TProxySetupLength();
    var r0, r1 := refused[..3], refused[3..];
    assert refused == r0 + r1;
    TProxyNatSetup(nat0, r0);
    var start := Run(nat0, Nat, setup, r0);
    RunConcat(nat0, Nat, setup, pre + [jump] + [catchAll], r0, r1);
    NatAppends(cfg);
    RunAppends(start, Nat, pre + [jump] + [catchAll], r1);
    var chains := Run(nat0, Nat, cs, refused);
    AddedInThree(start.Keys, Nat, Output, pre, jump, catchAll, r1);
    AddedInThree(start.Keys, Nat, SentinelOutput, pre, jump, catchAll, r1);
    var rp := r1[..|pre|];
    var hookExempting := Added(start.Keys, Nat, Output, pre, rp);
    AddedReturns(start.Keys, Nat, Output, pre, rp, p);
    TProxySetupExemptsNothing(Nat, Output, p);
    TProxySetupExemptsNothing(Nat, SentinelOutput, p);
    SparedByPrefix(setup, pre, jump, catchAll, r0, r1, Nat, Output, p);
    SparedByPrefix(setup, pre, jump, catchAll, r0, r1, Nat, SentinelOutput, p);
    var jumps := !refused[n - 2] && SentinelOutput in start;
    var diverts := !refused[n - 1] && catchAll.Some?;
    var tail := if diverts then [RedirectRule(cfg.outboundPort).value] else [];
    if SentinelOutput in start {
      AddedReturns(start.Keys, Nat, SentinelOutput, pre, rp, p);
    }
    var exempting := Added(start.Keys, Nat, SentinelOutput, pre, rp);
    assert chains[Output] == hookExempting + Optionally(jumps, TcpJump(SentinelOutput));
    assert SentinelOutput in start ==> chains[SentinelOutput] == exempting + tail;
    DecideThrough(chains, Output, SentinelOutput, jumps, hookExempting, exempting, tail, p);
    WalkCatchAll(chains - {Output} - {SentinelOutput}, diverts, RedirectRule(cfg.outboundPort), p);
  }

  lemma TProxySetupLength()
    ensures |TProxySetup()| == 3
  {
  }

  lemma NatAppends(cfg: Config)
    ensures OnlyAppends(TProxyNatExempting(cfg)
                        + [Some(Append(Nat, Output, TcpJump(SentinelOutput)))]
                        + [AppendOf(Nat, SentinelOutput, RedirectRule(cfg.outboundPort))], Nat)
  {
    hide TProxyNatExempting, TProxyCommands;
    TProxySplit(cfg);
  }

  lemma SparedNone(cs: seq<Option<Command>>, refused: seq<bool>, t: Table, chain: ChainName, p: Packet)
    requires |cs| == |refused|
    requires forall i :: 0 <= i < |cs| ==> !Spares(cs[i], t, chain, p)
    ensures !Spared(cs, refused, t, chain, p)
  {
  }

  /** Only the exempting commands of a list exempt anything. */
  lemma SparedByPrefix(setup: seq<Option<Command>>, pre: seq<Option<Command>>, x: Option<Command>, y: Option<Command>,
                       r0: seq<bool>, r1: seq<bool>, t: Table, chain: ChainName, p: Packet)
    requires |r0| == |setup| && |r1| == |pre| + 2
    requires forall i :: 0 <= i < |setup| ==> !Spares(setup[i], t, chain, p)
    requires !Spares(x, t, chain, p) && !Spares(y, t, chain, p)
    ensures Spared(setup + (pre + [x] + [y]), r0 + r1, t, chain, p) <==> Spared(pre, r1[..|pre|], t, chain, p)
  {
    hide Spared, Spares;
    var n := |pre|;
    SparedNone(setup, r0, t, chain, p);
    SparedNone([x], [r1[n]], t, chain, p);
    SparedNone([y], [r1[n + 1]], t, chain, p);
    assert r1 == r1[..n] + [r1[n]] + [r1[n + 1]];
    SparedConcat(setup, pre + [x] + [y], r0, r1, t, chain, p);
    SparedConcat(pre + [x], [y], r1[..n] + [r1[n]], [r1[n + 1]], t, chain, p);
    SparedConcat(pre, [x], r1[..n], [r1[n]], t, chain, p);
  }

  lemma TProxySetupExemptsNothing(t: Table, chain: ChainName, p: Packet)
    ensures forall i :: 0 <= i < |TProxySetup()| ==> !Spares(TProxySetup()[i], t, chain, p)
  {
  }

  // ----- Inbound in TPROXY mode ------------------------------------------

  /** Every jump leads to a chain of the table, as iptables guarantees. */
  predicate Closed(chains: Chains) {
    forall c <- chains :: JumpsWithin(chains[c], chains.Keys)
  }

  /** The mangle commands of TPROXY mode before the catch-all. */
  function TProxyMangleExempting(cfg: Config): seq<Option<Command>> {
    TProxyExemptions(cfg)
    + [Some(Append(Mangle, Prerouting, TcpJump(SentinelInbound)))]
    + [Some(Append(Mangle, SentinelInbound, ESTABLISHED_RULE))]
  }

  function TProxyNatRest(cfg: Config): seq<Option<Command>> {
    TProxyInterception(cfg)[3..]
  }

  lemma NeverAppendsConcat(a: seq<Option<Command>>, b: seq<Option<Command>>, t: Table, chain: ChainName)
    requires NeverAppends(a, t, chain) && NeverAppends(b, t, chain)
    ensures NeverAppends(a + b, t, chain)
  {
  }

  lemma TProxyExemptionShape(cfg: Config, t: Table, chain: ChainName)
    ensures ReturnsOnly(TProxyExemptions(cfg), t, chain)
    ensures (t, chain) !in TPROXY_PLACES ==> NeverAppends(TProxyExemptions(cfg), t, chain)
  {
    hide PortRule, OwnerRule, Split, ExclusionCommands;
    PortRulesReturn();
    var fixed := TProxyExemptions(cfg)[..6];
    var exclusions := ExclusionCommands(Split(cfg.excludePorts, ','), TPROXY_PLACES);
    ExclusionShape(Split(cfg.excludePorts, ','), TPROXY_PLACES, t, chain);
    assert TProxyExemptions(cfg) == fixed + exclusions;
    ReturnsOnlyConcat(fixed, exclusions, t, chain);
    if (t, chain) !in TPROXY_PLACES {
      assert TPROXY_PLACES[0] == (Mangle, SentinelInbound) && TPROXY_PLACES[1] == (Nat, SentinelOutput);
      NeverAppendsConcat(fixed, exclusions, t, chain);
    }
  }

  lemma TProxyMangleSplit(cfg: Config)
    ensures TProxyCommands(cfg) == TProxySetup()
                                   + (TProxyMangleExempting(cfg)
                                      + [AppendOf(Mangle, SentinelInbound, TProxyRule(cfg.inboundPort, cfg.proxyMark))])
                                   + TProxyNatRest(cfg)
    ensures ReturnsOnly(TProxyMangleExempting(cfg), Mangle, SentinelInbound)
    ensures |TProxyNatRest(cfg)| == 4 && |TProxyMangleExempting(cfg)| >= 2
    ensures forall i :: 0 <= i < 4 && TProxyNatRest(cfg)[i].Some? ==> TProxyNatRest(cfg)[i].value.table == Nat
  {
    hide PortRule, TProxyRule, RedirectRule, TProxyExemptions;
    TProxyExemptionShape(cfg, Mangle, SentinelInbound);
  }

  /** What the run adds to each mangle chain. */
  lemma TProxyMangleAdded(cfg: Config, names: set<ChainName>, refused: seq<bool>)
    requires |refused| == |TProxyMangleExempting(cfg)| + 1
    ensures var k := |refused| - 3;
            var cs := TProxyMangleExempting(cfg) + [AppendOf(Mangle, SentinelInbound, TProxyRule(cfg.inboundPort, cfg.proxyMark))];
            && OnlyAppends(cs, Mangle)
            && Added(names, Mangle, Prerouting, cs, refused)
               == Optionally(Prerouting in names && SentinelInbound in names && !refused[k], TcpJump(SentinelInbound))
            && (forall c :: c != Prerouting && c != SentinelInbound ==> Added(names, Mangle, c, cs, refused) == [])
  {
    hide TProxyExemptions, TProxyRule, Added;
    var k := |refused| - 3;
    var e := TProxyExemptions(cfg);
    var jump := Some(Append(Mangle, Prerouting, TcpJump(SentinelInbound)));
    var est := Some(Append(Mangle, SentinelInbound, ESTABLISHED_RULE));
    var last := AppendOf(Mangle, SentinelInbound, TProxyRule(cfg.inboundPort, cfg.proxyMark));
    TProxyExemptionShape(cfg, Mangle, SentinelInbound);
    assert e + [jump] + [est] + [last] == e + [jump] + [est, last];
    TProxyExemptionShape(cfg, Mangle, Prerouting);
    AddedSingle(names, Mangle, Prerouting, e, jump, [est, last], refused);
    forall c | c != Prerouting && c != SentinelInbound
      ensures Added(names, Mangle, c, e + [jump] + [est, last], refused) == []
    {
      TProxyExemptionShape(cfg, Mangle, c);
      AddedSingle(names, Mangle, c, e, jump, [est, last], refused);
    }
  }

  /** A chain that at most one command of a list appends to. */
  lemma AddedSingle(names: set<ChainName>, t: Table, chain: ChainName,
                    a: seq<Option<Command>>, x: Option<Command>, b: seq<Option<Command>>, refused: seq<bool>)
    requires |refused| == |a| + 1 + |b| && NeverAppends(a, t, chain) && NeverAppends(b, t, chain)
    ensures Added(names, t, chain, a + [x] + b, refused)
            == if Adds(names, t, chain, x, refused[|a|]) then [x.value.rule] else []
  {
    hide Added;
    var n := |a|;
    assert refused == refused[..n] + [refused[n]] + refused[n + 1..];
    AddedConcat(names, t, chain, a + [x], b, refused[..n] + [refused[n]], refused[n + 1..]);
    AddedConcat(names, t, chain, a, [x], refused[..n], [refused[n]]);
    AddedOne(names, t, chain, x, refused[n]);
    AddedNothing(names, t, chain, a, refused[..n]);
    AddedNothing(names, t, chain, b, refused[n + 1..]);
  }

  lemma TProxyMangleSetup(mangle0: Chains, refused: seq<bool>)
    requires |refused| == 3
    ensures Run(mangle0, Mangle, TProxySetup(), refused)
            == if refused[0] || SentinelInbound in mangle0 then mangle0 else mangle0[SentinelInbound := []]
  {
    var cs := TProxySetup();
    var s1 := Step(mangle0, Mangle, cs[0], refused[0]);
    RunElsewhere(s1, Mangle, cs[1..], refused[1..]);
  }

  function RulesOf(chains: Chains, c: ChainName): seq<Rule> {
    if c in chains then chains[c] else []
  }

  function TProxyTail(cfg: Config, refused: bool): seq<Rule> {
    if !refused && TProxyRule(cfg.inboundPort, cfg.proxyMark).Some?
    then [TProxyRule(cfg.inboundPort, cfg.proxyMark).value] else []
  }

  /** The mangle chains after a run of the TPROXY commands: nothing is flushed, so earlier rules stay in front. */
  lemma TProxyMangleContents(mangle0: Chains, cfg: Config, refused: seq<bool>)
    requires |refused| == |TProxyCommands(cfg)| && Prerouting in mangle0
    ensures |TProxyMangleExempting(cfg)| == |refused| - 8
    ensures var chains, n := Run(mangle0, Mangle, TProxyCommands(cfg), refused), |refused|;
            var created := SentinelInbound in mangle0 || !refused[0];
            && chains.Keys == mangle0.Keys + (if created then {SentinelInbound} else {})
            && (forall c <- mangle0 :: c != Prerouting && c != SentinelInbound ==> chains[c] == mangle0[c])
            && chains[Prerouting] == mangle0[Prerouting] + Optionally(created && !refused[n - 7], TcpJump(SentinelInbound))
            && (created ==>
                  chains[SentinelInbound]
                  == RulesOf(mangle0, SentinelInbound)
                     + (Added(mangle0.Keys + {SentinelInbound}, Mangle, SentinelInbound, TProxyMangleExempting(cfg), refused[3..n - 5])
                        + TProxyTail(cfg, refused[n - 5])))
  {
    hide TProxyCommands, TProxySetup, TProxyMangleExempting, TProxyNatRest, Run, Added;
    var n := |refused|;
    TProxyMangleSplit(cfg);
    TProxySetupLength();
    var pre, rest := TProxyMangleExempting(cfg), TProxyNatRest(cfg);
    var catchAll := AppendOf(Mangle, SentinelInbound, TProxyRule(cfg.inboundPort, cfg.proxyMark));
    var k := |pre|;
    var r0, r1, r2 := refused[..3], refused[3..k + 4], refused[k + 4..];
    assert refused == r0 + r1 + r2;
    var start := Run(mangle0, Mangle, TProxySetup(), r0);
    TProxyMangleSetup(mangle0, r0);
    RunConcat(mangle0, Mangle, TProxySetup() + (pre + [catchAll]), rest, r0 + r1, r2);
    RunConcat(mangle0, Mangle, TProxySetup(), pre + [catchAll], r0, r1);
    var chains := Run(start, Mangle, pre + [catchAll], r1);
    RunElsewhere(chains, Mangle, rest, r2);
    TProxyMangleAdded(cfg, start.Keys, r1);
    RunAppends(start, Mangle, pre + [catchAll], r1);
    assert r1 == refused[3..n - 5] + [refused[n - 5]] && r1[k - 2] == refused[n - 7];
    if SentinelInbound in mangle0 || !refused[0] {
      assert start.Keys == mangle0.Keys + {SentinelInbound};
      AddedConcat(start.Keys, Mangle, SentinelInbound, pre, [catchAll], refused[3..n - 5], [refused[n - 5]]);
      AddedOne(start.Keys, Mangle, SentinelInbound, catchAll, refused[n - 5]);
    }
  }

  /**
   Inbound traffic in TPROXY mode, for every set of refused commands and any mangle table without the user chain:
   what the earlier PREROUTING rules decide stands; what they leave undecided is diverted exactly when it is TCP, the
   user chain, the jump into it and its catch-all are in place, and no surviving rule exempts it.
   */
  lemma TProxyInbound(mangle0: Chains, cfg: Config, refused: seq<bool>, p: Packet)
    requires |refused| == |TProxyCommands(cfg)|
    requires Prerouting in mangle0 && SentinelInbound !in mangle0 && Closed(mangle0)
    ensures var cs, n := TProxyCommands(cfg), |refused|;
            var chains := Run(mangle0, Mangle, cs, refused);
            var earlier := Walk(mangle0 - {Prerouting}, mangle0[Prerouting], p);
            Prerouting in chains
            && Decide(chains, Prerouting, p)
               == if !earlier.FellOff? then Verdict(earlier)
                  else if p.tcp && !refused[0] && !refused[n - 7]
                          && !refused[n - 5] && TProxyRule(cfg.inboundPort, cfg.proxyMark).Some?
                          && !Spared(cs, refused, Mangle, SentinelInbound, p)
                  then TProxied(cfg.inboundPort, cfg.proxyMark, MASK) else Accepted
  {
    hide TProxyCommands, TProxyMangleExempting, Run, Added, AnyMatches, ReturnsOnly, AllReturn, Spared, Walk, Closed;
    var n := |refused|;
    var chains := Run(mangle0, Mangle, TProxyCommands(cfg), refused);
    TProxyMangleContents(mangle0, cfg, refused);
    FrameEarlier(mangle0, chains, p);
    var jumps := !refused[0] && !refused[n - 7];
    WalkConcat(chains - {Prerouting}, mangle0[Prerouting], Optionally(jumps, TcpJump(SentinelInbound)), p);
    var pre := TProxyMangleExempting(cfg);
    var names := mangle0.Keys + {SentinelInbound};
    var exempting := Added(names, Mangle, SentinelInbound, pre, refused[3..n - 5]);
    var diverts := !refused[n - 5] && TProxyRule(cfg.inboundPort, cfg.proxyMark).Some?;
    var tail := TProxyTail(cfg, refused[n - 5]);
    assert jumps ==> chains[SentinelInbound] == exempting + tail;
    TProxyMangleSplit(cfg);
    AddedReturns(names, Mangle, SentinelInbound, pre, refused[3..n - 5], p);
    MangleSpared(cfg, refused, p);
    WalkThrough(chains - {Prerouting}, SentinelInbound, jumps, exempting, tail, p);
    WalkCatchAll(chains - {Prerouting} - {SentinelInbound}, diverts, TProxyRule(cfg.inboundPort, cfg.proxyMark), p);
  }

  /** Rules that were there before do not see the new chain. */
  lemma FrameEarlier(before: Chains, after: Chains, p: Packet)
    requires Prerouting in before && Closed(before) && before.Keys <= after.Keys
    requires forall c <- before :: c != Prerouting ==> after[c] == before[c]
    ensures Walk(before - {Prerouting}, before[Prerouting], p) == Walk(after - {Prerouting}, before[Prerouting], p)
  {
    hide Walk;
    WalkFrame(before - {Prerouting}, after - {Prerouting}, before.Keys, before[Prerouting], p);
  }

  lemma MangleSpared(cfg: Config, refused: seq<bool>, p: Packet)
    requires |refused| == |TProxyCommands(cfg)|
    ensures |TProxyCommands(cfg)| == |TProxyMangleExempting(cfg)| + 8
    ensures Spared(TProxyCommands(cfg), refused, Mangle, SentinelInbound, p)
            <==> Spared(TProxyMangleExempting(cfg), refused[3..|refused| - 5], Mangle, SentinelInbound, p)
  {
    hide TProxyCommands, TProxySetup, TProxyMangleExempting, TProxyNatRest, Spared;
    TProxyMangleSplit(cfg);
    TProxySetupLength();
    var pre, rest := TProxyMangleExempting(cfg), TProxyNatRest(cfg);
    var catchAll := AppendOf(Mangle, SentinelInbound, TProxyRule(cfg.inboundPort, cfg.proxyMark));
    var k := |pre|;
    var r0, r1, r2 := refused[..3], refused[3..k + 4], refused[k + 4..];
    assert refused == r0 + r1 + r2 && r1 == r1[..k] + [r1[k]];
    SparedConcat(TProxySetup() + (pre + [catchAll]), rest, r0 + r1, r2, Mangle, SentinelInbound, p);
    SparedConcat(TProxySetup(), pre + [catchAll], r0, r1, Mangle, SentinelInbound, p);
    SparedConcat(pre, [catchAll], r1[..k], [r1[k]], Mangle, SentinelInbound, p);
    TProxySetupExemptsNothing(Mangle, SentinelInbound, p);
    SparedNone(TProxySetup(), r0, Mangle, SentinelInbound, p);
    SparedNone([catchAll], [r1[k]], Mangle, SentinelInbound, p);
    SparedNone(rest, r2, Mangle, SentinelInbound, p);
    assert refused[3..|refused| - 5] == r1[..k];
  }
}
