/**
 What the text of the exclusion flag amounts to, and when every command
 succeeds.
 */
module ExclusionFlag {
  import opened Text
  import opened Iptables
  import opened InitContainer
  import opened Interception
  import opened RedirectMode
  import opened Policy
  import opened SwitchOver
  import opened Rerun

  // ----- The text of the exclusion flag ----------------------------------

  /** An entry of the exclusion flag: nothing, or a port number with blanks around it. */
  datatype Entry = Nothing | Port(left: string, port: nat, right: string)

  predicate ValidEntry(e: Entry) {
    e.Port? ==> IsBlank(e.left) && IsBlank(e.right) && e.port <= MAX_PORT
  }

  function EntryText(e: Entry): string {
    match e
    case Nothing => ""
    case Port(left, port, right) => left + Decimal(port) + right
  }

  function FlagText(entries: seq<Entry>): string
    requires entries != []
  {
    Join(seq(|entries|, i requires 0 <= i < |entries| => EntryText(entries[i])), ',')
  }

  lemma EntryNames(e: Entry)
    requires ValidEntry(e)
    ensures NamedPort(EntryText(e)) == (if e.Port? then Some(e.port) else None)
    ensures ',' !in EntryText(e)
  {
    match e {
      case Nothing => NoPortNamed();
      case Port(left, port, right) =>
        DecimalIsWord(port);
        ParseDecimalRoundTrip(port);
        FieldsPadded(left, Decimal(port), right);
        DigitsRead(port);
    }
  }

  lemma FlagSplits(entries: seq<Entry>)
    requires entries != [] && forall i :: 0 <= i < |entries| ==> ValidEntry(entries[i])
    ensures Split(FlagText(entries), ',') == seq(|entries|, i requires 0 <= i < |entries| => EntryText(entries[i]))
  {
    hide EntryText;
    var texts := seq(|entries|, i requires 0 <= i < |entries| => EntryText(entries[i]));
    forall i | 0 <= i < |entries|
      ensures ',' !in texts[i]
    {
      EntryNames(entries[i]);
    }
    SplitJoin(texts, ',');
  }

  /**
   For a flag made of decimal ports with empty entries, blanks, repeats and any order, the excluded ports are exactly
   the ones written.
   */
  lemma FlagExcludes(cfg: Config, entries: seq<Entry>, port: nat)
    requires entries != [] && forall i :: 0 <= i < |entries| ==> ValidEntry(entries[i])
    requires cfg.excludePorts == FlagText(entries)
    ensures Excluded(cfg, port) <==> exists i :: 0 <= i < |entries| && entries[i].Port? && entries[i].port == port
  {
    hide EntryText, NamedPort, FlagText;
    FlagSplits(entries);
    var texts := Split(cfg.excludePorts, ',');
    forall i | 0 <= i < |entries|
      ensures NamedPort(texts[i]) == if entries[i].Port? then Some(entries[i].port) else None
    {
      EntryNames(entries[i]);
    }
    if i :| 0 <= i < |entries| && entries[i].Port? && entries[i].port == port {
      assert texts[i] in texts;
    }
  }

  /** The decisions depend on the exclusion flag only through the ports it names. */
  lemma OnlyNamedPortsMatter(nat0: Chains, mangle0: Chains, a: Config, b: Config, p: Packet)
    requires a == b.(excludePorts := a.excludePorts)
    requires forall port: nat :: Excluded(a, port) <==> Excluded(b, port)
    requires Output in nat0 && Prerouting in nat0
    requires Prerouting in mangle0 && SentinelInbound !in mangle0 && Closed(mangle0)
    ensures Decide(RunAll(nat0, Nat, a), Output, p) == Decide(RunAll(nat0, Nat, b), Output, p)
    ensures Decide(RunAll(nat0, Nat, a), Prerouting, p) == Decide(RunAll(nat0, Nat, b), Prerouting, p)
    ensures Decide(RunAll(mangle0, Mangle, a), Prerouting, p) == Decide(RunAll(mangle0, Mangle, b), Prerouting, p)
  {
    hide Run, Decide, Walk, Closed, TProxyCommands, RedirectCommands, NamedPort;
    if a.mode == "TPROXY" {
      TProxyOutboundCorrect(nat0, a, p);
      TProxyOutboundCorrect(nat0, b, p);
      TProxyInboundCorrect(mangle0, a, p);
      TProxyInboundCorrect(mangle0, b, p);
      TProxyLeavesPrerouting(nat0, a, Unrefused(|TProxyCommands(a)|), p);
      TProxyLeavesPrerouting(nat0, b, Unrefused(|TProxyCommands(b)|), p);
    } else {
      RedirectOutboundCorrect(nat0, a, p);
      RedirectOutboundCorrect(nat0, b, p);
      RedirectInboundCorrect(nat0, a, p);
      RedirectInboundCorrect(nat0, b, p);
      RedirectRunLeavesMangle(mangle0, a);
      RedirectRunLeavesMangle(mangle0, b);
    }
  }

  // ----- Every command succeeds ------------------------------------------

  /** Each line is a command, and iptables carries each one out. */
  predicate AllSucceed(natChains: Chains, mangleChains: Chains, cs: seq<Option<Command>>)
    decreases |cs|
  {
    cs == []
    || (cs[0].Some?
        && Acceptable((if cs[0].value.table == Nat then natChains else mangleChains).Keys, cs[0].value)
        && AllSucceed(Step(natChains, Nat, cs[0], false), Step(mangleChains, Mangle, cs[0], false), cs[1..]))
  }

  lemma {:induction false} AllSucceedConcat(natChains: Chains, mangleChains: Chains, a: seq<Option<Command>>, b: seq<Option<Command>>)
    requires AllSucceed(natChains, mangleChains, a)
    requires AllSucceed(Run(natChains, Nat, a, Unrefused(|a|)), Run(mangleChains, Mangle, a, Unrefused(|a|)), b)
    ensures AllSucceed(natChains, mangleChains, a + b)
    decreases |a|
  {
    if a == [] {
      assert a + b == b;
    } else {
      assert (a + b)[1..] == a[1..] + b;
      assert Unrefused(|a|)[1..] == Unrefused(|a[1..]|);
      AllSucceedConcat(Step(natChains, Nat, a[0], false), Step(mangleChains, Mangle, a[0], false), a[1..], b);
    }
  }

  /** Commands that append to chains that exist, with jumps to chains that exist. */
  predicate AppendsTo(natNames: set<ChainName>, mangleNames: set<ChainName>, c: Option<Command>) {
    c.Some? && c.value.Append? && Acceptable(if c.value.table == Nat then natNames else mangleNames, c.value)
  }

  lemma {:induction false} AppendsSucceed(natChains: Chains, mangleChains: Chains, cs: seq<Option<Command>>)
    requires forall c :: c in cs ==> AppendsTo(natChains.Keys, mangleChains.Keys, c)
    ensures AllSucceed(natChains, mangleChains, cs)
    decreases |cs|
  {
    if cs != [] {
      assert cs[0] in cs && forall c :: c in cs[1..] ==> c in cs;
      var n, m := Step(natChains, Nat, cs[0], false), Step(mangleChains, Mangle, cs[0], false);
      assert n.Keys == natChains.Keys && m.Keys == mangleChains.Keys;
      AppendsSucceed(n, m, cs[1..]);
    }
  }

  /** The numeric flags that both modes use are in the ranges iptables takes. */
  predicate ValidSettings(cfg: Config) {
    1 <= cfg.inboundPort <= MAX_PORT && 1 <= cfg.outboundPort <= MAX_PORT && 0 <= cfg.proxyUid <= MAX_UID
  }

  /** So are the two that only TPROXY mode uses. */
  predicate ValidTProxySettings(cfg: Config) {
    0 <= cfg.proxyMark <= MAX_MARK && NamedPort(cfg.servicePort).Some?
  }

  /** Every entry of the exclusion flag is empty or names a port. */
  predicate ValidExclusions(entries: seq<string>) {
    forall e :: e in entries && e != "" ==> NamedPort(e).Some?
  }

  lemma {:induction false} ExclusionsAppend(entries: seq<string>, places: seq<(Table, ChainName)>,
                                            natNames: set<ChainName>, mangleNames: set<ChainName>)
    requires ValidExclusions(entries)
    requires forall i :: 0 <= i < |places| ==> places[i].1 in (if places[i].0 == Nat then natNames else mangleNames)
    ensures forall c :: c in ExclusionCommands(entries, places) ==> AppendsTo(natNames, mangleNames, c)
    decreases |entries|
  {
    hide NamedPort;
    if entries != [] {
      var init, last := entries[..|entries| - 1], entries[|entries| - 1];
      assert last in entries && forall e :: e in init ==> e in entries;
      ExclusionsAppend(init, places, natNames, mangleNames);
      var cs := EntryCommands(last, places);
      forall i | 0 <= i < |cs|
        ensures AppendsTo(natNames, mangleNames, cs[i])
      {
        assert cs[i] == AppendOf(places[i].0, places[i].1, PortRule(last));
      }
      assert forall c :: c in ExclusionCommands(entries, places) ==> c in ExclusionCommands(init, places) || c in cs;
    }
  }

  /** On tables without the program's chains, valid flags make every command succeed, in TPROXY mode. */
  lemma TProxySucceeds(nat0: Chains, mangle0: Chains, cfg: Config)
    requires Output in nat0 && Prerouting in mangle0 && SentinelOutput !in nat0 && SentinelInbound !in mangle0
    requires ValidSettings(cfg) && ValidTProxySettings(cfg) && ValidExclusions(Split(cfg.excludePorts, ','))
    ensures AllSucceed(nat0, mangle0, TProxyCommands(cfg))
  {
    hide TProxyCommands, NamedPort, ExclusionCommands, Split, ValidExclusions;
    var setup := TProxySetup();
    var body := TProxyFixed(cfg) + ExclusionCommands(Split(cfg.excludePorts, ','), TPROXY_PLACES) + TProxyInterception(cfg);
    TProxyParts(cfg);
    assert TProxyCommands(cfg) == setup + body;
    var n1 := Run(nat0, Nat, setup, Unrefused(3));
    var m1 := Run(mangle0, Mangle, setup, Unrefused(3));
    TProxyNatSetup(nat0, Unrefused(3));
    TProxyMangleSetup(mangle0, Unrefused(3));
    TProxySetupSucceeds(nat0, mangle0);
    ExclusionsAppend(Split(cfg.excludePorts, ','), TPROXY_PLACES, n1.Keys, m1.Keys);
    TProxyBodyAppends(cfg, n1.Keys, m1.Keys);
    AppendsSucceed(n1, m1, body);
    AllSucceedConcat(nat0, mangle0, setup, body);
  }

  lemma TProxySetupSucceeds(nat0: Chains, mangle0: Chains)
    requires SentinelOutput !in nat0 && SentinelInbound !in mangle0
    ensures AllSucceed(nat0, mangle0, TProxySetup())
  {
    var cs := TProxySetup();
    var m1 := Step(mangle0, Mangle, cs[0], false);
    var n2 := Step(nat0, Nat, cs[1], false);
    assert n2.Keys == nat0.Keys;
    var n3 := Step(n2, Nat, cs[2], false);
    assert AllSucceed(n3, m1, cs[3..]);
    assert cs[1..][1..][1..] == cs[3..];
    assert AllSucceed(n2, m1, cs[1..][1..]);
    assert AllSucceed(nat0, m1, cs[1..]);
  }

  lemma TProxyBodyAppends(cfg: Config, natNames: set<ChainName>, mangleNames: set<ChainName>)
    requires ValidSettings(cfg) && ValidTProxySettings(cfg) && {Output, SentinelOutput} <= natNames && {Prerouting, SentinelInbound} <= mangleNames
    ensures forall c :: c in TProxyFixed(cfg) || c in TProxyInterception(cfg) ==> AppendsTo(natNames, mangleNames, c)
  {
    hide NamedPort, ExclusionCommands;
    LiteralPorts();
  }

  /** The same for REDIRECT mode. */
  lemma RedirectSucceeds(nat0: Chains, mangle0: Chains, cfg: Config)
    requires Output in nat0 && Prerouting in nat0
    requires {SentinelInbound, SentinelOutput, SentinelRedirect, SentinelInRedirect} !! nat0.Keys
    requires ValidSettings(cfg) && ValidExclusions(Split(cfg.excludePorts, ','))
    ensures AllSucceed(nat0, mangle0, RedirectCommands(cfg))
  {
    hide RedirectCommands, RedirectSetup, RedirectInterception, NamedPort, ExclusionCommands, Split, ValidExclusions;
    var fixed := [AppendOf(Nat, SentinelOutput, PortRule("9090"))];
    var body := fixed + ExclusionCommands(Split(cfg.excludePorts, ','), REDIRECT_PLACES) + RedirectInterception(cfg);
    RedirectParts(cfg);
    SetupLength();
    assert RedirectCommands(cfg) == RedirectSetup() + body;
    var n1 := Run(nat0, Nat, RedirectSetup(), Unrefused(5));
    RedirectNatSetup(nat0, Unrefused(5));
    RedirectSetupSucceeds(nat0, mangle0);
    var m1 := Run(mangle0, Mangle, RedirectSetup(), Unrefused(5));
    ExclusionsAppend(Split(cfg.excludePorts, ','), REDIRECT_PLACES, n1.Keys, m1.Keys);
    RedirectBodyAppends(cfg, n1.Keys, m1.Keys);
    AppendsSucceed(n1, m1, body);
    AllSucceedConcat(nat0, mangle0, RedirectSetup(), body);
  }

  lemma RedirectSetupSucceeds(nat0: Chains, mangle0: Chains)
    requires {SentinelInbound, SentinelOutput, SentinelRedirect, SentinelInRedirect} !! nat0.Keys
    ensures AllSucceed(nat0, mangle0, RedirectSetup())
  {
    var cs := RedirectSetup();
    var n1 := Step(nat0, Nat, cs[0], false);
    assert n1.Keys == nat0.Keys;
    NewChainsSucceed(n1, mangle0, [SentinelInbound, SentinelRedirect, SentinelOutput, SentinelInRedirect], cs[1..]);
    assert Step(mangle0, Mangle, cs[0], false) == mangle0;
  }

  lemma {:induction false} NewChainsSucceed(natChains: Chains, mangleChains: Chains, names: seq<ChainName>, cs: seq<Option<Command>>)
    requires |names| == |cs| && forall i :: 0 <= i < |cs| ==> cs[i] == Some(NewChain(Nat, names[i]))
    requires forall i :: 0 <= i < |names| ==> names[i] !in natChains
    requires forall i, j :: 0 <= i < j < |names| ==> names[i] != names[j]
    ensures AllSucceed(natChains, mangleChains, cs)
    decreases |cs|
  {
    if cs != [] {
      NewChainsSucceed(Step(natChains, Nat, cs[0], false), mangleChains, names[1..], cs[1..]);
    }
  }

  lemma RedirectBodyAppends(cfg: Config, natNames: set<ChainName>, mangleNames: set<ChainName>)
    requires ValidSettings(cfg)
    requires {Output, Prerouting, SentinelInbound, SentinelOutput, SentinelRedirect, SentinelInRedirect} <= natNames
    ensures AppendsTo(natNames, mangleNames, AppendOf(Nat, SentinelOutput, PortRule("9090")))
    ensures forall c :: c in RedirectInterception(cfg) ==> AppendsTo(natNames, mangleNames, c)
  {
    hide NamedPort;
    LiteralPorts();
  }

  /**
   A flag of decimal ports, however padded, repeated and ordered, makes no command fail: with valid settings and on
   tables without the program's chains, every command of either mode succeeds.
   */
  lemma FlagSucceeds(nat0: Chains, mangle0: Chains, cfg: Config, entries: seq<Entry>)
    requires entries != [] && forall i :: 0 <= i < |entries| ==> ValidEntry(entries[i])
    requires cfg.excludePorts == FlagText(entries)
    requires ValidSettings(cfg) && (cfg.mode == "TPROXY" ==> ValidTProxySettings(cfg))
    requires Output in nat0 && Prerouting in nat0 && Prerouting in mangle0 && SentinelInbound !in mangle0
    requires {SentinelInbound, SentinelOutput, SentinelRedirect, SentinelInRedirect} !! nat0.Keys
    ensures AllSucceed(nat0, mangle0, Commands(cfg))
  {
    hide EntryText, NamedPort, FlagText, Split, AllSucceed, TProxyCommands, RedirectCommands;
    FlagSplits(entries);
    var texts := Split(cfg.excludePorts, ',');
    forall e | e in texts && e != ""
      ensures NamedPort(e).Some?
    {
      var i :| 0 <= i < |texts| && texts[i] == e;
      EntryNames(entries[i]);
      NothingIsEmpty(entries[i]);
    }
    if cfg.mode == "TPROXY" {
      TProxySucceeds(nat0, mangle0, cfg);
    } else {
      RedirectSucceeds(nat0, mangle0, cfg);
    }
  }

  lemma NothingIsEmpty(e: Entry)
    ensures e.Nothing? ==> EntryText(e) == ""
  {
  }
}
