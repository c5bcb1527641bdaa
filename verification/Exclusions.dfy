/**
 What it costs when only commands that come from the exclusion flag fail: which
 packets are then decided differently.
 */
module Exclusions {
  import opened Text
  import opened Iptables
  import opened InitContainer
  import opened Interception
  import opened RedirectMode
  import opened Policy

  /** Where the mode excludes a port. */
  function PlacesOf(cfg: Config): seq<(Table, ChainName)> {
    if cfg.mode == "TPROXY" then TPROXY_PLACES else REDIRECT_PLACES
  }

  function ExclusionsOf(cfg: Config): seq<Option<Command>> {
    ExclusionCommands(Split(cfg.excludePorts, ','), PlacesOf(cfg))
  }

  /** The first exclusion command, and how many commands follow the last one. */
  function Before(cfg: Config): nat { if cfg.mode == "TPROXY" then 9 else 6 }

  function After(cfg: Config): nat { if cfg.mode == "TPROXY" then 7 else 8 }

  /** Only exclusion commands are refused. */
  predicate OnlyExclusionsRefused(cfg: Config, refused: seq<bool>) {
    |refused| == |Commands(cfg)|
    && forall i :: 0 <= i < |refused| && refused[i] ==> Before(cfg) <= i < |refused| - After(cfg)
  }

  /** The configuration with nothing excluded. */
  function Bare(cfg: Config): Config {
    cfg.(excludePorts := "")
  }

  function Exclusion(t: Table, chain: ChainName, port: nat): Option<Command> {
    Some(Append(t, chain, Rule([Tcp, DestPort(port)], Return)))
  }

  /** The command stands, unrefused, at one of the positions `from` to `to`. */
  ghost predicate Stands(cs: seq<Option<Command>>, refused: seq<bool>, from: nat, to: int, c: Option<Command>)
    requires |cs| == |refused| && to <= |cs|
  {
    exists i :: from <= i < to && !refused[i] && cs[i] == c
  }

  /** An exclusion of `port` in `chain` was not refused. */
  ghost predicate Survives(cfg: Config, refused: seq<bool>, t: Table, chain: ChainName, port: nat)
    requires |refused| == |Commands(cfg)|
  {
    Stands(Commands(cfg), refused, Before(cfg), |refused| - After(cfg), Exclusion(t, chain, port))
  }

  // ----- The form of exclusion commands ----------------------------------

  /** Nothing, or a rule that lets TCP to one port return. */
  predicate IsExclusion(c: Option<Command>) {
    c.Some? ==> c.value.Append? && c.value.rule.target == Return
                && |c.value.rule.matches| == 2 && c.value.rule.matches[0] == Tcp && c.value.rule.matches[1].DestPort?
  }

  lemma {:induction false} AreExclusions(entries: seq<string>, places: seq<(Table, ChainName)>)
    ensures forall c :: c in ExclusionCommands(entries, places) ==> IsExclusion(c)
    decreases |entries|
  {
    hide NamedPort, IsExclusion;
    if entries != [] {
      var init, last := entries[..|entries| - 1], entries[|entries| - 1];
      AreExclusions(init, places);
      var cs := EntryCommands(last, places);
      forall i | 0 <= i < |cs|
        ensures IsExclusion(cs[i])
      {
        PortIsExclusion(places[i].0, places[i].1, last);
      }
      assert forall c :: c in ExclusionCommands(entries, places) ==> c in ExclusionCommands(init, places) || c in cs;
    }
  }

  lemma PortIsExclusion(t: Table, chain: ChainName, text: string)
    ensures IsExclusion(AppendOf(t, chain, PortRule(text)))
  {
    hide NamedPort;
  }

  lemma ExclusionSpares(c: Option<Command>, t: Table, chain: ChainName, p: Packet)
    requires IsExclusion(c)
    ensures Spares(c, t, chain, p) <==> p.tcp && c == Exclusion(t, chain, p.port)
  {
    if c.Some? {
      var r := c.value.rule;
      assert Matches(r, p) <==> MatchHolds(r.matches[0], p) && MatchHolds(r.matches[1], p);
      assert r.matches == [Tcp, r.matches[1]];
    }
  }

  // ----- Commands around the exclusions ----------------------------------

  /** If only the middle commands can be refused, the others exempt as always. */
  lemma SparedAround(a: seq<Option<Command>>, b: seq<Option<Command>>, d: seq<Option<Command>>, refused: seq<bool>,
                     t: Table, chain: ChainName, p: Packet)
    requires |refused| == |a + b + d|
    requires forall i :: 0 <= i < |refused| && refused[i] ==> |a| <= i < |a + b|
    ensures Spared(a + b + d, refused, t, chain, p)
            <==> SparedBySome(a, t, chain, p) || SparedBySome(d, t, chain, p)
                 || Spared(b, refused[|a|..|a + b|], t, chain, p)
  {
    hide Spared, SparedBySome;
    var middle := refused[|a|..|a + b|];
    assert refused == Unrefused(|a|) + middle + Unrefused(|d|);
    SparedConcat(a + b, d, Unrefused(|a|) + middle, Unrefused(|d|), t, chain, p);
    SparedConcat(a, b, Unrefused(|a|), middle, t, chain, p);
    SparedUnrefused(a, t, chain, p);
    SparedUnrefused(d, t, chain, p);
  }

  /** The commands before the exclusions. */
  function Early(cfg: Config): seq<Option<Command>> {
    if cfg.mode == "TPROXY" then TProxySetup() + TProxyFixed(cfg)
    else RedirectSetup() + [AppendOf(Nat, SentinelOutput, PortRule("9090"))]
  }

  /** The commands behind them. */
  function Late(cfg: Config): seq<Option<Command>> {
    if cfg.mode == "TPROXY" then TProxyInterception(cfg) else RedirectInterception(cfg)
  }

  lemma ThreeParts(cfg: Config)
    ensures Commands(cfg) == Early(cfg) + ExclusionsOf(cfg) + Late(cfg)
    ensures |Early(cfg)| == Before(cfg) && |Late(cfg)| == After(cfg)
  {
    hide TProxyCommands, TProxyFixed, ExclusionCommands, Split, PortRule, OwnerRule, RedirectRule, TProxyRule, AppendOf;
    TProxyParts(cfg);
    RedirectParts(cfg);
  }

  /** Among exclusions only those of the packet's port exempt it. */
  lemma SparedByExclusions(cs: seq<Option<Command>>, refused: seq<bool>, from: nat, to: nat,
                           t: Table, chain: ChainName, p: Packet)
    requires |cs| == |refused| && from <= to <= |cs|
    requires forall c :: c in cs[from..to] ==> IsExclusion(c)
    ensures Spared(cs[from..to], refused[from..to], t, chain, p)
            <==> p.tcp && Stands(cs, refused, from, to, Exclusion(t, chain, p.port))
  {
    hide Spares, IsExclusion, Exclusion;
    var b, middle, c := cs[from..to], refused[from..to], Exclusion(t, chain, p.port);
    forall i | 0 <= i < |b|
      ensures Spares(b[i], t, chain, p) <==> p.tcp && b[i] == c
    {
      ExclusionSpares(b[i], t, chain, p);
    }
    if p.tcp && Stands(cs, refused, from, to, c) {
      var i :| from <= i < to && !refused[i] && cs[i] == c;
      assert !middle[i - from] && b[i - from] == c;
    }
    if Spared(b, middle, t, chain, p) {
      var i :| 0 <= i < |b| && !middle[i] && Spares(b[i], t, chain, p);
      assert !refused[from + i] && cs[from + i] == c;
    }
  }

  lemma SparedWithFailures(cfg: Config, refused: seq<bool>, t: Table, chain: ChainName, p: Packet)
    requires OnlyExclusionsRefused(cfg, refused)
    ensures Spared(Commands(cfg), refused, t, chain, p)
            <==> SparedBySome(Early(cfg), t, chain, p) || SparedBySome(Late(cfg), t, chain, p)
                 || (p.tcp && Survives(cfg, refused, t, chain, p.port))
  {
    hide Commands, Early, Late, ExclusionsOf, Before, After, SparedBySome, Spared, Stands;
    ThreeParts(cfg);
    var a, b, d := Early(cfg), ExclusionsOf(cfg), Late(cfg);
    SparedAround(a, b, d, refused, t, chain, p);
    ExclusionsOfAre(cfg);
    assert Commands(cfg)[|a|..|a + b|] == b;
    SparedByExclusions(Commands(cfg), refused, |a|, |a + b|, t, chain, p);
  }

  lemma ExclusionsOfAre(cfg: Config)
    ensures forall c :: c in ExclusionsOf(cfg) ==> IsExclusion(c)
  {
    hide ExclusionCommands, Split, IsExclusion;
    AreExclusions(Split(cfg.excludePorts, ','), PlacesOf(cfg));
  }

  lemma NothingExcluded(cfg: Config, port: nat)
    ensures !Excluded(Bare(cfg), port)
  {
    NoPortNamed();
  }

  lemma EarlySpares(cfg: Config, t: Table, chain: ChainName, p: Packet)
    ensures cfg.mode == "TPROXY" ==>
              (SparedBySome(Early(cfg), t, chain, p) <==> SparedBySome(TProxyFixed(cfg), t, chain, p))
    ensures cfg.mode != "TPROXY" ==>
              (SparedBySome(Early(cfg), t, chain, p)
               <==> Spares(AppendOf(Nat, SentinelOutput, PortRule("9090")), t, chain, p))
  {
    hide SparedBySome, TProxySetup, RedirectSetup, TProxyFixed, PortRule, AppendOf, Spares;
    SetupSparesNothing(t, chain, p);
    SparedBySomeConcat(TProxySetup(), TProxyFixed(cfg), t, chain, p);
    var port := AppendOf(Nat, SentinelOutput, PortRule("9090"));
    SparedBySomeConcat(RedirectSetup(), [port], t, chain, p);
    OneSpares(port, t, chain, p);
  }

  // ----- Decisions -------------------------------------------------------

  /**
   TPROXY mode, outbound: if only exclusion commands fail, what was excluded is redirected unless something else
   exempts it or an exclusion of its port survived; and exactly those packets change decision.
   */
  lemma FailedExclusions(nat0: Chains, cfg: Config, refused: seq<bool>, p: Packet)
    requires cfg.mode == "TPROXY" && OnlyExclusionsRefused(cfg, refused) && Output in nat0
    ensures var survives := Survives(cfg, refused, Nat, SentinelOutput, p.port);
            var redirects := p.tcp && 1 <= cfg.outboundPort <= MAX_PORT && !TProxyOutboundExempt(Bare(cfg), p);
            var decision := Decide(Run(nat0, Nat, Commands(cfg), refused), Output, p);
            && decision == (if redirects && !survives then Redirected(cfg.outboundPort) else Accepted)
            && (decision != Decide(Run(nat0, Nat, Commands(cfg), Unrefused(|refused|)), Output, p)
                <==> redirects && Excluded(cfg, p.port) && !survives)
  {
    hide TProxyCommands, RedirectCommands, Run, Decide, Spared, SparedBySome, Survives, NamedPort, Excluded, Early, Late;
    AtOutput(cfg, refused, p);
    NothingExcluded(cfg, p.port);
    TProxyOutbound(nat0, cfg, refused, p);
    TProxyOutboundCorrect(nat0, cfg, p);
    SurvivorsAreExcluded(cfg, refused, Nat, SentinelOutput, p.port);
  }

  /** What exempts leaving packets when only exclusions fail. */
  lemma AtOutput(cfg: Config, refused: seq<bool>, p: Packet)
    requires cfg.mode == "TPROXY" && OnlyExclusionsRefused(cfg, refused)
    ensures var cs := TProxyCommands(cfg);
            p.tcp ==>
              (Spared(cs, refused, Nat, Output, p) || Spared(cs, refused, Nat, SentinelOutput, p)
               <==> TProxyOutboundExempt(Bare(cfg), p) || Survives(cfg, refused, Nat, SentinelOutput, p.port))
  {
    hide TProxyCommands, RedirectCommands, Spared, SparedBySome, Survives, TProxyFixed, TProxyInterception, NamedPort, Excluded,
      Early;
    NothingExcluded(cfg, p.port);
    SparedWithFailures(cfg, refused, Nat, Output, p);
    SparedWithFailures(cfg, refused, Nat, SentinelOutput, p);
    EarlySpares(cfg, Nat, Output, p);
    EarlySpares(cfg, Nat, SentinelOutput, p);
    SurvivorsAreExcluded(cfg, refused, Nat, Output, p.port);
    PlacesOfTProxy();
    TProxyFixedSpares(cfg, Nat, Output, p);
    TProxyFixedSpares(cfg, Nat, SentinelOutput, p);
    TProxyInterceptionSpares(cfg, Nat, Output, p);
    TProxyInterceptionSpares(cfg, Nat, SentinelOutput, p);
  }

  /** A surviving exclusion is in one of the places, and of a port the flag names. */
  lemma SurvivorsAreExcluded(cfg: Config, refused: seq<bool>, t: Table, chain: ChainName, port: nat)
    requires |refused| == |Commands(cfg)|
    ensures Survives(cfg, refused, t, chain, port) ==>
              Excluded(cfg, port) && (t, chain) in PlacesOf(cfg)
  {
    hide Commands, Early, Late, ExclusionCommands, Split, Before, After, NamedPort, SparedBySome, PlacesOf;
    ThreeParts(cfg);
    var cs, exclusions := Commands(cfg), ExclusionsOf(cfg);
    if Survives(cfg, refused, t, chain, port) {
      var i :| Before(cfg) <= i < |cs| - After(cfg) && !refused[i]
               && cs[i] == Exclusion(t, chain, port);
      var c := exclusions[i - Before(cfg)];
      assert c == cs[i] && c in exclusions;
      var p := Packet(true, port, None, false);
      SparesOne(c, exclusions, t, chain, p);
      ExclusionsSpare(Split(cfg.excludePorts, ','), PlacesOf(cfg), t, chain, p);
    }
  }

  lemma SparesOne(c: Option<Command>, cs: seq<Option<Command>>, t: Table, chain: ChainName, p: Packet)
    requires c in cs && p.tcp && c == Exclusion(t, chain, p.port)
    ensures SparedBySome(cs, t, chain, p)
  {
    ExclusionSpares(c, t, chain, p);
  }

  /** The same for inbound traffic, which neither the service port nor the proxy's user exempts. */
  lemma FailedExclusionsInbound(mangle0: Chains, cfg: Config, refused: seq<bool>, p: Packet)
    requires cfg.mode == "TPROXY" && OnlyExclusionsRefused(cfg, refused)
    requires Prerouting in mangle0 && AllEmpty(mangle0) && SentinelInbound !in mangle0
    ensures var survives := Survives(cfg, refused, Mangle, SentinelInbound, p.port);
            var diverts := p.tcp && 0 <= cfg.inboundPort <= MAX_PORT && 0 <= cfg.proxyMark <= MAX_MARK
                           && !TProxyInboundExempt(Bare(cfg), p);
            var decision := Decide(Run(mangle0, Mangle, Commands(cfg), refused), Prerouting, p);
            && decision == (if diverts && !survives then TProxied(cfg.inboundPort, cfg.proxyMark, MASK) else Accepted)
            && (decision != Decide(Run(mangle0, Mangle, Commands(cfg), Unrefused(|refused|)), Prerouting, p)
                <==> diverts && Excluded(cfg, p.port) && !survives)
  {
    hide TProxyCommands, RedirectCommands, Run, Decide, Walk, Spared, SparedBySome, Survives, NamedPort, Excluded,
      TProxyFixed, TProxyInterception, Early;
    NothingExcluded(cfg, p.port);
    WalkNothing(mangle0 - {Prerouting}, p);
    TProxyInbound(mangle0, cfg, refused, p);
    TProxyInboundCorrect(mangle0, cfg, p);
    SparedWithFailures(cfg, refused, Mangle, SentinelInbound, p);
    EarlySpares(cfg, Mangle, SentinelInbound, p);
    TProxyFixedSpares(cfg, Mangle, SentinelInbound, p);
    TProxyInterceptionSpares(cfg, Mangle, SentinelInbound, p);
    SurvivorsAreExcluded(cfg, refused, Mangle, SentinelInbound, p.port);
  }

  /** The same for outbound traffic in REDIRECT mode. */
  lemma FailedExclusionsRedirect(nat0: Chains, cfg: Config, refused: seq<bool>, p: Packet)
    requires cfg.mode != "TPROXY" && OnlyExclusionsRefused(cfg, refused) && Output in nat0
    ensures var survives := Survives(cfg, refused, Nat, SentinelOutput, p.port);
            var redirects := p.tcp && 1 <= cfg.outboundPort <= MAX_PORT && !RedirectOutboundExempt(Bare(cfg), p);
            var decision := Decide(Run(nat0, Nat, Commands(cfg), refused), Output, p);
            && decision == (if redirects && !survives then Redirected(cfg.outboundPort) else Accepted)
            && (decision != Decide(Run(nat0, Nat, Commands(cfg), Unrefused(|refused|)), Output, p)
                <==> redirects && Excluded(cfg, p.port) && !survives)
  {
    hide TProxyCommands, RedirectCommands, RedirectInterception, Run, Decide, Spared, SparedBySome, Spares, Survives, NamedPort,
      PortRule, AppendOf, Excluded, Early;
    NothingExcluded(cfg, p.port);
    RedirectOutbound(nat0, cfg, refused, p);
    RedirectOutboundCorrect(nat0, cfg, p);
    SparedWithFailures(cfg, refused, Nat, SentinelOutput, p);
    EarlySpares(cfg, Nat, SentinelOutput, p);
    LiteralPorts();
    PortSpares(Nat, SentinelOutput, "9090", p);
    RedirectInterceptionSpares(cfg, p);
    SurvivorsAreExcluded(cfg, refused, Nat, SentinelOutput, p.port);
  }
}
