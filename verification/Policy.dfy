/**
 The interception policy in short form, and the theorems that the installed
 rules decide every packet exactly as it says.
 */
module Policy {
  import opened Text
  import opened Iptables
  import opened InitContainer
  import opened Interception
  import opened RedirectMode

  // ----- The policy ------------------------------------------------------

  /** The exclusion flag names `port`. */
  ghost predicate Excluded(cfg: Config, port: nat) {
    exists entry :: entry in Split(cfg.excludePorts, ',') && NamedPort(entry) == Some(port)
  }

  /** The packet was sent by the proxy's user. */
  predicate FromProxy(cfg: Config, p: Packet) {
    0 <= cfg.proxyUid <= 0xFFFF_FFFE && p.uid == Some(cfg.proxyUid)
  }

  ghost predicate TProxyOutboundExempt(cfg: Config, p: Packet) {
    FromProxy(cfg, p) || p.established || p.port == 443 || p.port == 9090
    || NamedPort(cfg.servicePort) == Some(p.port) || Excluded(cfg, p.port)
  }

  ghost predicate TProxyInboundExempt(cfg: Config, p: Packet) {
    p.established || p.port == 443 || p.port == 9090 || Excluded(cfg, p.port)
  }

  ghost predicate RedirectOutboundExempt(cfg: Config, p: Packet) {
    FromProxy(cfg, p) || p.established || p.port == 9090 || Excluded(cfg, p.port)
  }

  ghost function TProxyOutboundPolicy(cfg: Config, p: Packet): Outcome {
    if p.tcp && 1 <= cfg.outboundPort <= 65535 && !TProxyOutboundExempt(cfg, p) then Redirected(cfg.outboundPort)
    else Accepted
  }

  ghost function TProxyInboundPolicy(cfg: Config, p: Packet): Outcome {
    if p.tcp && 0 <= cfg.inboundPort <= 65535 && 0 <= cfg.proxyMark <= 0xFFFF_FFFF && !TProxyInboundExempt(cfg, p)
    then TProxied(cfg.inboundPort, cfg.proxyMark, 0xfff)
    else Accepted
  }

  ghost function RedirectOutboundPolicy(cfg: Config, p: Packet): Outcome {
    if p.tcp && 1 <= cfg.outboundPort <= 65535 && !RedirectOutboundExempt(cfg, p) then Redirected(cfg.outboundPort)
    else Accepted
  }

  function RedirectInboundPolicy(cfg: Config, p: Packet): Outcome {
    if p.tcp && 1 <= cfg.inboundPort <= 65535 then Redirected(cfg.inboundPort) else Accepted
  }

  // ----- Which packets the exempting commands exempt ---------------------

  /** No command is refused. */
  function Unrefused(n: nat): seq<bool> {
    seq(n, _ => false)
  }

  /** Some command of the list exempts the packet. */
  ghost predicate SparedBySome(cs: seq<Option<Command>>, t: Table, chain: ChainName, p: Packet) {
    exists c :: c in cs && Spares(c, t, chain, p)
  }

  lemma SparedUnrefused(cs: seq<Option<Command>>, t: Table, chain: ChainName, p: Packet)
    ensures Spared(cs, Unrefused(|cs|), t, chain, p) <==> SparedBySome(cs, t, chain, p)
  {
    hide Spares;
    if c :| c in cs && Spares(c, t, chain, p) {
      var i :| 0 <= i < |cs| && cs[i] == c;
      assert !Unrefused(|cs|)[i];
    }
  }

  lemma SparedBySomeConcat(a: seq<Option<Command>>, b: seq<Option<Command>>, t: Table, chain: ChainName, p: Packet)
    ensures SparedBySome(a + b, t, chain, p) <==> SparedBySome(a, t, chain, p) || SparedBySome(b, t, chain, p)
  {
    hide Spares;
  }

  lemma PortSpares(t: Table, chain: ChainName, text: string, p: Packet)
    ensures Spares(AppendOf(t, chain, PortRule(text)), t, chain, p) <==> p.tcp && NamedPort(text) == Some(p.port)
  {
    hide NamedPort;
    if NamedPort(text).Some? {
      var r := PortRule(text).value;
      assert Matches(r, p) <==> MatchHolds(r.matches[0], p) && MatchHolds(r.matches[1], p);
    }
  }

  lemma OwnerSpares(t: Table, chain: ChainName, cfg: Config, p: Packet)
    ensures Spares(AppendOf(t, chain, OwnerRule(cfg.proxyUid)), t, chain, p) <==> FromProxy(cfg, p)
  {
    if OwnerRule(cfg.proxyUid).Some? {
      var r := OwnerRule(cfg.proxyUid).value;
      assert Matches(r, p) <==> MatchHolds(r.matches[0], p);
    }
  }

  lemma EstablishedSpares(t: Table, chain: ChainName, p: Packet)
    ensures Spares(Some(Append(t, chain, ESTABLISHED_RULE)), t, chain, p) <==> p.established
  {
    assert Matches(ESTABLISHED_RULE, p) <==> MatchHolds(ESTABLISHED_RULE.matches[0], p);
  }

  lemma EntrySpares(port: string, places: seq<(Table, ChainName)>, t: Table, chain: ChainName, p: Packet)
    ensures SparedBySome(EntryCommands(port, places), t, chain, p)
            <==> (t, chain) in places && p.tcp && NamedPort(port) == Some(p.port)
  {
    hide NamedPort, Spares;
    var cs := EntryCommands(port, places);
    NoPortNamed();
    PortSpares(t, chain, port, p);
    forall i | 0 <= i < |cs|
      ensures Spares(cs[i], t, chain, p) ==> places[i] == (t, chain)
    {
      SparesPlace(cs[i], t, chain, p);
      assert cs[i] == AppendOf(places[i].0, places[i].1, PortRule(port));
    }
    if (t, chain) in places && port != "" {
      var i :| 0 <= i < |places| && places[i] == (t, chain);
      assert cs[i] == AppendOf(t, chain, PortRule(port)) && cs[i] in cs;
    }
  }

  lemma SparesPlace(c: Option<Command>, t: Table, chain: ChainName, p: Packet)
    ensures Spares(c, t, chain, p) ==> c.Some? && c.value.Append? && c.value.table == t && c.value.chain == chain
  {
  }

  lemma NoPortNamed()
    ensures NamedPort("") == None
  {
  }

  ghost predicate NamedBySome(entries: seq<string>, port: nat) {
    exists entry :: entry in entries && NamedPort(entry) == Some(port)
  }

  lemma {:induction false} ExclusionsSpare(entries: seq<string>, places: seq<(Table, ChainName)>,
                                           t: Table, chain: ChainName, p: Packet)
    ensures SparedBySome(ExclusionCommands(entries, places), t, chain, p)
            <==> (t, chain) in places && p.tcp && NamedBySome(entries, p.port)
    decreases |entries|
  {
    hide NamedPort, SparedBySome, EntryCommands;
    if entries == [] {
      NothingSpares(t, chain, p);
    } else {
      var init, last := entries[..|entries| - 1], entries[|entries| - 1];
      ExclusionsSpare(init, places, t, chain, p);
      EntrySpares(last, places, t, chain, p);
      SparedBySomeConcat(ExclusionCommands(init, places), EntryCommands(last, places), t, chain, p);
      assert entries == init + [last];
      assert forall e :: e in entries <==> e in init || e == last;
    }
  }

  lemma NothingSpares(t: Table, chain: ChainName, p: Packet)
    ensures !SparedBySome([], t, chain, p)
  {
  }

  lemma LiteralPorts()
    ensures NamedPort("443") == Some(443) && NamedPort("9090") == Some(9090)
  {
    LiteralHttps();
    LiteralProxyPort();
    hide NamedPort;
  }

  lemma LiteralHttps()
    ensures NamedPort("443") == Some(443)
  {
    FieldsWord("443");
    assert "443"[..2] == "44" && "44"[..1] == "4" && "4"[..0] == "";
    assert DigitsValue("4") == 4 && DigitsValue("44") == 44;
  }

  lemma LiteralProxyPort()
    ensures NamedPort("9090") == Some(9090)
  {
    FieldsWord("9090");
    assert "9090"[..3] == "909" && "909"[..2] == "90" && "90"[..1] == "9" && "9"[..0] == "";
    assert DigitsValue("9") == 9 && DigitsValue("90") == 90 && DigitsValue("909") == 909;
  }

  function TProxyFixed(cfg: Config): seq<Option<Command>> {
    TProxyExemptions(cfg)[..6]
  }

  lemma TProxyParts(cfg: Config)
    ensures TProxyCommands(cfg)
            == TProxySetup() + TProxyFixed(cfg) + ExclusionCommands(Split(cfg.excludePorts, ','), TPROXY_PLACES)
               + TProxyInterception(cfg)
    ensures |TProxySetup()| == 3 && |TProxyFixed(cfg)| == 6 && |TProxyInterception(cfg)| == 7
  {
    hide PortRule, OwnerRule, RedirectRule, TProxyRule, ExclusionCommands, Split;
  }

  /** The lists around the exclusions, one element at a time. */
  lemma TProxyFixedSpares(cfg: Config, t: Table, chain: ChainName, p: Packet)
    ensures SparedBySome(TProxyFixed(cfg), t, chain, p)
            <==> ((t, chain) == (Nat, SentinelOutput)
                  && (FromProxy(cfg, p) || (p.tcp && (NamedPort(cfg.servicePort) == Some(p.port) || p.port == 443 || p.port == 9090))))
                 || ((t, chain) == (Mangle, SentinelInbound) && p.tcp && (p.port == 443 || p.port == 9090))
  {
    hide NamedPort, Spares, OwnerRule, PortRule, AppendOf, FromProxy;
    var cs := TProxyFixed(cfg);
    LiteralPorts();
    OwnerSpares(Nat, SentinelOutput, cfg, p);
    PortSpares(Mangle, SentinelInbound, "443", p);
    PortSpares(Mangle, SentinelInbound, "9090", p);
    PortSpares(Nat, SentinelOutput, cfg.servicePort, p);
    PortSpares(Nat, SentinelOutput, "443", p);
    PortSpares(Nat, SentinelOutput, "9090", p);
    forall i | 0 <= i < 6
      ensures Spares(cs[i], t, chain, p) ==> (t, chain) == if i == 1 || i == 2 then (Mangle, SentinelInbound) else (Nat, SentinelOutput)
    {
      AppendPlace(cs[i], t, chain, p);
    }
    SomeOfSix(cs, t, chain, p);
  }

  lemma SomeOfSix(cs: seq<Option<Command>>, t: Table, chain: ChainName, p: Packet)
    requires |cs| == 6
    ensures SparedBySome(cs, t, chain, p)
            <==> Spares(cs[0], t, chain, p) || Spares(cs[1], t, chain, p) || Spares(cs[2], t, chain, p)
                 || Spares(cs[3], t, chain, p) || Spares(cs[4], t, chain, p) || Spares(cs[5], t, chain, p)
  {
    hide Spares;
    assert cs[0] in cs && cs[1] in cs && cs[2] in cs && cs[3] in cs && cs[4] in cs && cs[5] in cs;
  }

  lemma AppendPlace(c: Option<Command>, t: Table, chain: ChainName, p: Packet)
    ensures forall t', chain', r :: c == AppendOf(t', chain', r) && Spares(c, t, chain, p) ==> t == t' && chain == chain'
  {
  }

  lemma TProxyInterceptionSpares(cfg: Config, t: Table, chain: ChainName, p: Packet)
    ensures SparedBySome(TProxyInterception(cfg), t, chain, p)
            <==> (((t, chain) == (Mangle, SentinelInbound) || (t, chain) == (Nat, SentinelOutput)) && p.established)
                 || ((t, chain) == (Nat, Output) && p.tcp && p.port == 443)
  {
    hide NamedPort;
    var cs := TProxyInterception(cfg);
    LiteralPorts();
    EstablishedSpares(Mangle, SentinelInbound, p);
    EstablishedSpares(Nat, SentinelOutput, p);
    PortSpares(Nat, Output, "443", p);
    assert cs[1] in cs && cs[3] in cs && cs[4] in cs;
  }

  lemma TProxySpared(cfg: Config, t: Table, chain: ChainName, p: Packet)
    requires (t, chain) in {(Nat, Output), (Nat, SentinelOutput), (Mangle, SentinelInbound)}
    ensures SparedBySome(TProxyCommands(cfg), t, chain, p)
            <==> SparedBySome(TProxyFixed(cfg), t, chain, p)
                 || SparedBySome(TProxyInterception(cfg), t, chain, p)
                 || (chain != Output && p.tcp && Excluded(cfg, p.port))
  {
    hide SparedBySome, TProxyCommands, TProxySetup, TProxyFixed, TProxyInterception, ExclusionCommands, Split, NamedPort;
    TProxyParts(cfg);
    var entries := Split(cfg.excludePorts, ',');
    var exclusions := ExclusionCommands(entries, TPROXY_PLACES);
    ExclusionsSpare(entries, TPROXY_PLACES, t, chain, p);
    SparedBySomeConcat(TProxySetup() + TProxyFixed(cfg) + exclusions, TProxyInterception(cfg), t, chain, p);
    SparedBySomeConcat(TProxySetup() + TProxyFixed(cfg), exclusions, t, chain, p);
    SparedBySomeConcat(TProxySetup(), TProxyFixed(cfg), t, chain, p);
    SetupSparesNothing(t, chain, p);
    PlacesOfTProxy();
  }

  lemma PlacesOfTProxy()
    ensures (Nat, Output) !in TPROXY_PLACES && (Nat, SentinelOutput) in TPROXY_PLACES && (Mangle, SentinelInbound) in TPROXY_PLACES
  {
    assert TPROXY_PLACES[0] == (Mangle, SentinelInbound) && TPROXY_PLACES[1] == (Nat, SentinelOutput);
  }

  lemma SetupSparesNothing(t: Table, chain: ChainName, p: Packet)
    ensures !SparedBySome(TProxySetup(), t, chain, p) && !SparedBySome(RedirectSetup(), t, chain, p)
  {
  }

  // ----- Compiler correctness --------------------------------------------

  /**
   TPROXY mode, outbound: whatever the nat table held, the installed rules
   decide every packet as the policy does.
   */
  lemma TProxyOutboundCorrect(nat0: Chains, cfg: Config, p: Packet)
    requires Output in nat0
    ensures var cs := TProxyCommands(cfg);
            var chains := Run(nat0, Nat, cs, Unrefused(|cs|));
            Output in chains && Decide(chains, Output, p) == TProxyOutboundPolicy(cfg, p)
  {
    hide TProxyCommands, Run, Decide, Spared, SparedBySome, NamedPort, Excluded, TProxyFixed, TProxyInterception;
    var cs := TProxyCommands(cfg);
    TProxyOutbound(nat0, cfg, Unrefused(|cs|), p);
    SparedUnrefused(cs, Nat, Output, p);
    SparedUnrefused(cs, Nat, SentinelOutput, p);
    TProxySpared(cfg, Nat, Output, p);
    TProxySpared(cfg, Nat, SentinelOutput, p);
    TProxyFixedSpares(cfg, Nat, Output, p);
    TProxyFixedSpares(cfg, Nat, SentinelOutput, p);
    TProxyInterceptionSpares(cfg, Nat, Output, p);
    TProxyInterceptionSpares(cfg, Nat, SentinelOutput, p);
  }

  lemma TProxyInboundExemptions(cfg: Config, p: Packet)
    requires p.tcp
    ensures Spared(TProxyCommands(cfg), Unrefused(|TProxyCommands(cfg)|), Mangle, SentinelInbound, p)
            <==> TProxyInboundExempt(cfg, p)
  {
    hide TProxyCommands, Spared, SparedBySome, NamedPort, Excluded, TProxyFixed, TProxyInterception;
    SparedUnrefused(TProxyCommands(cfg), Mangle, SentinelInbound, p);
    TProxySpared(cfg, Mangle, SentinelInbound, p);
    TProxyFixedSpares(cfg, Mangle, SentinelInbound, p);
    TProxyInterceptionSpares(cfg, Mangle, SentinelInbound, p);
  }

  /**
   TPROXY mode, inbound: in any mangle table without the user chain, what the
   earlier PREROUTING rules leave undecided is decided as the policy does.
   */
  lemma TProxyInboundCorrect(mangle0: Chains, cfg: Config, p: Packet)
    requires Prerouting in mangle0 && SentinelInbound !in mangle0 && Closed(mangle0)
    ensures var cs := TProxyCommands(cfg);
            var chains := Run(mangle0, Mangle, cs, Unrefused(|cs|));
            var earlier := Walk(mangle0 - {Prerouting}, mangle0[Prerouting], p);
            Prerouting in chains
            && Decide(chains, Prerouting, p) == if earlier.FellOff? then TProxyInboundPolicy(cfg, p) else Verdict(earlier)
  {
    hide TProxyCommands, Run, Decide, Walk, Spared, TProxyInboundExempt;
    var cs := TProxyCommands(cfg);
    TProxyInbound(mangle0, cfg, Unrefused(|cs|), p);
    if p.tcp {
      TProxyInboundExemptions(cfg, p);
    }
  }

  /** REDIRECT mode, inbound: every TCP packet goes to the inbound port, whatever the nat table held. */
  lemma RedirectInboundCorrect(nat0: Chains, cfg: Config, p: Packet)
    requires Prerouting in nat0
    ensures var cs := RedirectCommands(cfg);
            var chains := Run(nat0, Nat, cs, Unrefused(|cs|));
            Prerouting in chains && Decide(chains, Prerouting, p) == RedirectInboundPolicy(cfg, p)
  {
    hide RedirectCommands, Run, Decide;
    RedirectInbound(nat0, cfg, Unrefused(|RedirectCommands(cfg)|), p);
  }

  lemma RedirectParts(cfg: Config)
    ensures RedirectCommands(cfg)
            == RedirectSetup() + [AppendOf(Nat, SentinelOutput, PortRule("9090"))]
               + ExclusionCommands(Split(cfg.excludePorts, ','), REDIRECT_PLACES) + RedirectInterception(cfg)
  {
    hide PortRule, RedirectInterception, ExclusionCommands, Split;
  }

  lemma RedirectInterceptionSpares(cfg: Config, p: Packet)
    ensures SparedBySome(RedirectInterception(cfg), Nat, SentinelOutput, p) <==> FromProxy(cfg, p) || p.established
  {
    hide FromProxy;
    var cs := RedirectInterception(cfg);
    EstablishedSpares(Nat, SentinelOutput, p);
    OwnerSpares(Nat, SentinelOutput, cfg, p);
    assert cs[4] in cs && cs[5] in cs;
  }

  lemma RedirectSpared(cfg: Config, p: Packet)
    requires p.tcp
    ensures SparedBySome(RedirectCommands(cfg), Nat, SentinelOutput, p) <==> RedirectOutboundExempt(cfg, p)
  {
    hide SparedBySome, RedirectCommands, RedirectSetup, RedirectInterception, ExclusionCommands, Split, NamedPort,
      PortRule, AppendOf, FromProxy;
    RedirectParts(cfg);
    LiteralPorts();
    var entries := Split(cfg.excludePorts, ',');
    var exclusions := ExclusionCommands(entries, REDIRECT_PLACES);
    var fixed := [AppendOf(Nat, SentinelOutput, PortRule("9090"))];
    ExclusionsSpare(entries, REDIRECT_PLACES, Nat, SentinelOutput, p);
    assert REDIRECT_PLACES[0] == (Nat, SentinelOutput);
    SparedBySomeConcat(RedirectSetup() + fixed + exclusions, RedirectInterception(cfg), Nat, SentinelOutput, p);
    SparedBySomeConcat(RedirectSetup() + fixed, exclusions, Nat, SentinelOutput, p);
    SparedBySomeConcat(RedirectSetup(), fixed, Nat, SentinelOutput, p);
    SetupSparesNothing(Nat, SentinelOutput, p);
    PortSpares(Nat, SentinelOutput, "9090", p);
    OneSpares(fixed[0], Nat, SentinelOutput, p);
    RedirectInterceptionSpares(cfg, p);
  }

  lemma OneSpares(c: Option<Command>, t: Table, chain: ChainName, p: Packet)
    ensures SparedBySome([c], t, chain, p) <==> Spares(c, t, chain, p)
  {
    hide Spares;
    assert c in [c];
  }

  /** REDIRECT mode, outbound. */
  lemma RedirectOutboundCorrect(nat0: Chains, cfg: Config, p: Packet)
    requires Output in nat0
    ensures var cs := RedirectCommands(cfg);
            var chains := Run(nat0, Nat, cs, Unrefused(|cs|));
            Output in chains && Decide(chains, Output, p) == RedirectOutboundPolicy(cfg, p)
  {
    hide RedirectCommands, Run, Decide, Spared, SparedBySome, RedirectOutboundExempt;
    var cs := RedirectCommands(cfg);
    RedirectOutbound(nat0, cfg, Unrefused(|cs|), p);
    SparedUnrefused(cs, Nat, SentinelOutput, p);
    if p.tcp {
      RedirectSpared(cfg, p);
    }
  }
}
