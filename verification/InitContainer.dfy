/**
 The init container: the command lines it builds from its flags, the loop that
 runs them one at a time and carries on past failures, and the commands those
 lines amount to.
 */
module InitContainer {
  import opened Text
  import opened Iptables

  /** The command-line flags. Numbers are whatever integers the flags were given. */
  datatype Config = Config(
    mode: string,
    inboundPort: int,
    outboundPort: int,
    servicePort: string,
    proxyUid: int,
    proxyMark: int,
    excludePorts: string,
    dryRun: bool)

  // ----- The command lines -----------------------------------------------

  function NewChainLine(t: Table, c: ChainName): string {
    Line(["iptables", "-t", TableText(t), "-N", ChainText(c)])
  }

  function FlushLine(t: Table): string {
    Line(["iptables", "-t", TableText(t), "-F"])
  }

  /** Appends the rule that `spec` writes down to chain `c`. */
  function AppendLine(t: Table, c: ChainName, spec: seq<string>): string {
    Line(["iptables", "-t", TableText(t), "-A", ChainText(c)] + spec)
  }

  function ExcludeLine(t: Table, c: ChainName, port: string): string {
    AppendLine(t, c, ["-p", "tcp", "--dport"]) + " " + port + " " + Line(["-j", "RETURN"])
  }

  function OwnerLine(t: Table, c: ChainName, uid: int): string {
    AppendLine(t, c, ["-m", "owner", "--uid-owner", Decimal(uid), "-j", "RETURN"])
  }

  function EstablishedLine(t: Table, c: ChainName): string {
    AppendLine(t, c, ["-m", "conntrack", "--ctstate", "ESTABLISHED,RELATED", "-j", "RETURN"])
  }

  function TcpJumpLine(t: Table, from: ChainName, to: ChainName): string {
    AppendLine(t, from, ["-p", "tcp", "-j", ChainText(to)])
  }

  function JumpLine(t: Table, from: ChainName, to: ChainName): string {
    AppendLine(t, from, ["-j", ChainText(to)])
  }

  function RedirectLine(t: Table, c: ChainName, port: int): string {
    AppendLine(t, c, ["-p", "tcp", "-j", "REDIRECT", "--to-ports", Decimal(port)])
  }

  function TProxyLine(t: Table, c: ChainName, port: int, mark: int): string {
    AppendLine(t, c, ["-p", "tcp", "-j", "TPROXY", "--on-port", Decimal(port),
          "--on-ip", "0.0.0.0", "--tproxy-mark", "0x" + Hex(mark) + "/0xfff"])
  }

  /** One exempting line for each port of a list. */
  function PortLines(t: Table, c: ChainName, ports: seq<string>): seq<string> {
    seq(|ports|, i requires 0 <= i < |ports| => ExcludeLine(t, c, ports[i]))
  }

  lemma PortLinesStep(t: Table, c: ChainName, ports: seq<string>, i: nat)
    requires i < |ports|
    ensures PortLines(t, c, ports[..i + 1]) == PortLines(t, c, ports[..i]) + [ExcludeLine(t, c, ports[i])]
  {
    hide ExcludeLine;
  }

  /** The lines for one entry of the exclusion flag, one for each of `places`; none for an empty entry. */
  function EntryLines(port: string, places: seq<(Table, ChainName)>): seq<string> {
    if port == "" then []
    else seq(|places|, i requires 0 <= i < |places| => ExcludeLine(places[i].0, places[i].1, port))
  }

  function ExclusionLines(entries: seq<string>, places: seq<(Table, ChainName)>): seq<string> {
    if entries == [] then []
    else ExclusionLines(entries[..|entries| - 1], places) + EntryLines(entries[|entries| - 1], places)
  }

  lemma ExclusionLinesStep(ports: seq<string>, i: nat, places: seq<(Table, ChainName)>)
    requires i < |ports|
    ensures ExclusionLines(ports[..i + 1], places) == ExclusionLines(ports[..i], places) + EntryLines(ports[i], places)
  {
    hide EntryLines;
    assert ports[..i + 1][..i] == ports[..i];
  }

  const TPROXY_PLACES := [(Mangle, SentinelInbound), (Nat, SentinelOutput)]
  const REDIRECT_PLACES := [(Nat, SentinelOutput)]

  function TProxySetupLines(): seq<string> {
    [NewChainLine(Mangle, SentinelInbound),
     FlushLine(Nat),
     NewChainLine(Nat, SentinelOutput)]
  }

  function TProxyExemptionLines(cfg: Config): seq<string> {
    [OwnerLine(Nat, SentinelOutput, cfg.proxyUid)]
    + PortLines(Mangle, SentinelInbound, ["443", "9090"])
    + PortLines(Nat, SentinelOutput, [cfg.servicePort, "443", "9090"])
    + ExclusionLines(Split(cfg.excludePorts, ','), TPROXY_PLACES)
  }

  function TProxyInterceptionLines(cfg: Config): seq<string> {
    [TcpJumpLine(Mangle, Prerouting, SentinelInbound),
     EstablishedLine(Mangle, SentinelInbound),
     TProxyLine(Mangle, SentinelInbound, cfg.inboundPort, cfg.proxyMark),
     EstablishedLine(Nat, SentinelOutput),
     ExcludeLine(Nat, Output, "443"),
     TcpJumpLine(Nat, Output, SentinelOutput),
     RedirectLine(Nat, SentinelOutput, cfg.outboundPort)]
  }

  function TProxyLines(cfg: Config): seq<string> {
    TProxySetupLines() + TProxyExemptionLines(cfg) + TProxyInterceptionLines(cfg)
  }

  function RedirectSetupLines(): seq<string> {
    [FlushLine(Nat),
     NewChainLine(Nat, SentinelInbound),
     NewChainLine(Nat, SentinelRedirect),
     NewChainLine(Nat, SentinelOutput),
     NewChainLine(Nat, SentinelInRedirect)]
  }

  function RedirectExemptionLines(cfg: Config): seq<string> {
    PortLines(Nat, SentinelOutput, ["9090"]) + ExclusionLines(Split(cfg.excludePorts, ','), REDIRECT_PLACES)
  }

  function RedirectInterceptionLines(cfg: Config): seq<string> {
    [TcpJumpLine(Nat, Prerouting, SentinelInbound),
     TcpJumpLine(Nat, Output, SentinelOutput),
     TcpJumpLine(Nat, SentinelInbound, SentinelInRedirect),
     RedirectLine(Nat, SentinelInRedirect, cfg.inboundPort),
     OwnerLine(Nat, SentinelOutput, cfg.proxyUid),
     EstablishedLine(Nat, SentinelOutput),
     JumpLine(Nat, SentinelOutput, SentinelRedirect),
     RedirectLine(Nat, SentinelRedirect, cfg.outboundPort)]
  }

  function RedirectLines(cfg: Config): seq<string> {
    RedirectSetupLines() + RedirectExemptionLines(cfg) + RedirectInterceptionLines(cfg)
  }

  lemma NoLines()
    ensures forall t, c :: PortLines(t, c, []) == []
    ensures forall places :: ExclusionLines([], places) == []
  {
  }

  method BuildTProxyRules(cfg: Config) returns (rules: seq<string>)
    ensures rules == TProxyLines(cfg)
  {
    hide NewChainLine, FlushLine, ExcludeLine, OwnerLine, EstablishedLine, TcpJumpLine, JumpLine, RedirectLine, TProxyLine,
      PortLines, ExclusionLines, Split;
    rules := [NewChainLine(Mangle, SentinelInbound)];
    rules := rules + [FlushLine(Nat)];
    rules := rules + [NewChainLine(Nat, SentinelOutput)];
    rules := rules + [OwnerLine(Nat, SentinelOutput, cfg.proxyUid)];

    var inboundExcludePorts := ["443", "9090"];
    ghost var base := rules;
    NoLines();
    for i := 0 to |inboundExcludePorts|
      invariant rules == base + PortLines(Mangle, SentinelInbound, inboundExcludePorts[..i])
    {
      PortLinesStep(Mangle, SentinelInbound, inboundExcludePorts, i);
      rules := rules + [ExcludeLine(Mangle, SentinelInbound, inboundExcludePorts[i])];
    }
    assert inboundExcludePorts[..|inboundExcludePorts|] == inboundExcludePorts;
    var outboundExcludePorts := [cfg.servicePort, "443", "9090"];
    base := rules;
    NoLines();
    for i := 0 to |outboundExcludePorts|
      invariant rules == base + PortLines(Nat, SentinelOutput, outboundExcludePorts[..i])
    {
      PortLinesStep(Nat, SentinelOutput, outboundExcludePorts, i);
      rules := rules + [ExcludeLine(Nat, SentinelOutput, outboundExcludePorts[i])];
    }
    assert outboundExcludePorts[..|outboundExcludePorts|] == outboundExcludePorts;
    var ports := Split(cfg.excludePorts, ',');
    base := rules;
    for i := 0 to |ports|
      invariant rules == base + ExclusionLines(ports[..i], TPROXY_PLACES)
    {
      ExclusionLinesStep(ports, i, TPROXY_PLACES);
      if ports[i] == "" { continue; }
      rules := rules + [ExcludeLine(Mangle, SentinelInbound, ports[i])];
      rules := rules + [ExcludeLine(Nat, SentinelOutput, ports[i])];
    }
    assert ports[..|ports|] == ports;
    rules := rules + [TcpJumpLine(Mangle, Prerouting, SentinelInbound)];
    rules := rules + [EstablishedLine(Mangle, SentinelInbound)];
    rules := rules + [TProxyLine(Mangle, SentinelInbound, cfg.inboundPort, cfg.proxyMark)];
    rules := rules + [EstablishedLine(Nat, SentinelOutput)];
    rules := rules + [ExcludeLine(Nat, Output, "443")];
    rules := rules + [TcpJumpLine(Nat, Output, SentinelOutput)];
    rules := rules + [RedirectLine(Nat, SentinelOutput, cfg.outboundPort)];
  }

  method BuildRedirectRules(cfg: Config) returns (rules: seq<string>)
    ensures rules == RedirectLines(cfg)
  {
    hide NewChainLine, FlushLine, ExcludeLine, OwnerLine, EstablishedLine, TcpJumpLine, JumpLine, RedirectLine, TProxyLine,
      PortLines, ExclusionLines, Split;
    rules := [FlushLine(Nat)];
    rules := rules + [NewChainLine(Nat, SentinelInbound)];
    rules := rules + [NewChainLine(Nat, SentinelRedirect)];
    rules := rules + [NewChainLine(Nat, SentinelOutput)];
    rules := rules + [NewChainLine(Nat, SentinelInRedirect)];

    var defaultExcludePorts := ["9090"];
    ghost var base := rules;
    NoLines();
    for i := 0 to |defaultExcludePorts|
      invariant rules == base + PortLines(Nat, SentinelOutput, defaultExcludePorts[..i])
    {
      PortLinesStep(Nat, SentinelOutput, defaultExcludePorts, i);
      rules := rules + [ExcludeLine(Nat, SentinelOutput, defaultExcludePorts[i])];
    }
    assert defaultExcludePorts[..|defaultExcludePorts|] == defaultExcludePorts;
    var ports := Split(cfg.excludePorts, ',');
    base := rules;
    for i := 0 to |ports|
      invariant rules == base + ExclusionLines(ports[..i], REDIRECT_PLACES)
    {
      ExclusionLinesStep(ports, i, REDIRECT_PLACES);
      if ports[i] == "" { continue; }
      rules := rules + [ExcludeLine(Nat, SentinelOutput, ports[i])];
    }
    assert ports[..|ports|] == ports;
    rules := rules + [TcpJumpLine(Nat, Prerouting, SentinelInbound)];
    rules := rules + [TcpJumpLine(Nat, Output, SentinelOutput)];
    rules := rules + [TcpJumpLine(Nat, SentinelInbound, SentinelInRedirect)];
    rules := rules + [RedirectLine(Nat, SentinelInRedirect, cfg.inboundPort)];
    rules := rules + [OwnerLine(Nat, SentinelOutput, cfg.proxyUid)];
    rules := rules + [EstablishedLine(Nat, SentinelOutput)];
    rules := rules + [JumpLine(Nat, SentinelOutput, SentinelRedirect)];
    rules := rules + [RedirectLine(Nat, SentinelRedirect, cfg.outboundPort)];
  }

  // ----- The commands the lines amount to --------------------------------

  function AppendOf(t: Table, chain: ChainName, r: Option<Rule>): Option<Command> {
    match r
    case Some(rule) => Some(Append(t, chain, rule))
    case None => None
  }

  /** The port a piece of flag text names: exactly one word, a decimal port number. */
  function NamedPort(text: string): Option<nat> {
    var ws := Fields(text);
    if |ws| == 1 then ParseRange(ws[0], 0, MAX_PORT) else None
  }

  function PortRule(text: string): Option<Rule> {
    match NamedPort(text)
    case Some(n) => Some(Rule([Tcp, DestPort(n)], Return))
    case None => None
  }

  function OwnerRule(uid: int): Option<Rule> {
    if 0 <= uid <= MAX_UID then Some(Rule([OwnerUid(uid)], Return)) else None
  }

  function RedirectRule(port: int): Option<Rule> {
    if 1 <= port <= MAX_PORT then Some(Rule([Tcp], Redirect(port))) else None
  }

  const MASK := 0xfff

  function TProxyRule(port: int, mark: int): Option<Rule> {
    if 0 <= port <= MAX_PORT && 0 <= mark <= MAX_MARK then Some(Rule([Tcp], TProxy(port, mark, MASK))) else None
  }

  const ESTABLISHED_RULE := Rule([Established], Return)

  function TcpJump(to: ChainName): Rule { Rule([Tcp], Jump(to)) }

  function EntryCommands(port: string, places: seq<(Table, ChainName)>): seq<Option<Command>> {
    if port == "" then []
    else seq(|places|, i requires 0 <= i < |places| => AppendOf(places[i].0, places[i].1, PortRule(port)))
  }

  function ExclusionCommands(entries: seq<string>, places: seq<(Table, ChainName)>): seq<Option<Command>> {
    if entries == [] then []
    else ExclusionCommands(entries[..|entries| - 1], places) + EntryCommands(entries[|entries| - 1], places)
  }

  function TProxySetup(): seq<Option<Command>> {
    [Some(NewChain(Mangle, SentinelInbound)), Some(Flush(Nat)), Some(NewChain(Nat, SentinelOutput))]
  }

  function TProxyExemptions(cfg: Config): seq<Option<Command>> {
    [AppendOf(Nat, SentinelOutput, OwnerRule(cfg.proxyUid)),
     AppendOf(Mangle, SentinelInbound, PortRule("443")), AppendOf(Mangle, SentinelInbound, PortRule("9090")),
     AppendOf(Nat, SentinelOutput, PortRule(cfg.servicePort)),
     AppendOf(Nat, SentinelOutput, PortRule("443")), AppendOf(Nat, SentinelOutput, PortRule("9090"))]
    + ExclusionCommands(Split(cfg.excludePorts, ','), TPROXY_PLACES)
  }

  function TProxyInterception(cfg: Config): seq<Option<Command>> {
    [Some(Append(Mangle, Prerouting, TcpJump(SentinelInbound))),
     Some(Append(Mangle, SentinelInbound, ESTABLISHED_RULE)),
     AppendOf(Mangle, SentinelInbound, TProxyRule(cfg.inboundPort, cfg.proxyMark)),
     Some(Append(Nat, SentinelOutput, ESTABLISHED_RULE)),
     AppendOf(Nat, Output, PortRule("443")),
     Some(Append(Nat, Output, TcpJump(SentinelOutput))),
     AppendOf(Nat, SentinelOutput, RedirectRule(cfg.outboundPort))]
  }

  function TProxyCommands(cfg: Config): (cs: seq<Option<Command>>)
    ensures |cs| >= 16
  {
    TProxySetup() + TProxyExemptions(cfg) + TProxyInterception(cfg)
  }

  function RedirectSetup(): seq<Option<Command>> {
    [Some(Flush(Nat)), Some(NewChain(Nat, SentinelInbound)), Some(NewChain(Nat, SentinelRedirect)),
     Some(NewChain(Nat, SentinelOutput)), Some(NewChain(Nat, SentinelInRedirect))]
  }

  function RedirectExemptions(cfg: Config): seq<Option<Command>> {
    [AppendOf(Nat, SentinelOutput, PortRule("9090"))]
    + ExclusionCommands(Split(cfg.excludePorts, ','), REDIRECT_PLACES)
  }

  function RedirectInterception(cfg: Config): seq<Option<Command>> {
    [Some(Append(Nat, Prerouting, TcpJump(SentinelInbound))),
     Some(Append(Nat, Output, TcpJump(SentinelOutput))),
     Some(Append(Nat, SentinelInbound, TcpJump(SentinelInRedirect))),
     AppendOf(Nat, SentinelInRedirect, RedirectRule(cfg.inboundPort)),
     AppendOf(Nat, SentinelOutput, OwnerRule(cfg.proxyUid)),
     Some(Append(Nat, SentinelOutput, ESTABLISHED_RULE)),
     Some(Append(Nat, SentinelOutput, Rule([], Jump(SentinelRedirect)))),
     AppendOf(Nat, SentinelRedirect, RedirectRule(cfg.outboundPort))]
  }

  function RedirectCommands(cfg: Config): (cs: seq<Option<Command>>)
    ensures |cs| >= 14
  {
    RedirectSetup() + RedirectExemptions(cfg) + RedirectInterception(cfg)
  }

  function Lines(cfg: Config): seq<string> {
    if cfg.mode == "TPROXY" then TProxyLines(cfg) else RedirectLines(cfg)
  }

  function Commands(cfg: Config): seq<Option<Command>> {
    if cfg.mode == "TPROXY" then TProxyCommands(cfg) else RedirectCommands(cfg)
  }

  // ----- Each line reads back as its command -----------------------------

  function Parsed(lines: seq<string>): seq<Option<Command>> {
    seq(|lines|, i requires 0 <= i < |lines| => ParseLine(lines[i]))
  }

  /** One of the chains the init container names. */
  predicate Plain(c: ChainName) { !c.Other? }

  lemma ChainWord(c: ChainName)
    requires Plain(c)
    ensures IsWord(ChainText(c))
  {
    hide IsWord;
    assert !c.Other? ==> Visible(ChainText(c));
    if !c.Other? {
      VisibleIsWord(ChainText(c));
    }
  }

  /** Visible ASCII characters only. */
  predicate Visible(w: string) {
    w != "" && forall i :: 0 <= i < |w| ==> '!' <= w[i] <= '~'
  }

  lemma VisibleIsWord(w: string)
    requires Visible(w)
    ensures IsWord(w)
  {
  }

  lemma ChainReadsBack(c: ChainName)
    requires Plain(c)
    ensures ParseChain(ChainText(c)) == c
  {
  }

  lemma ChainIsNoTargetName(c: ChainName)
    requires Plain(c)
    ensures var s := ChainText(c);
            s != "RETURN" && s != "ACCEPT" && s != "DROP" && s != "REDIRECT" && s != "TPROXY"
  {
    var s := ChainText(c);
    assert |s| == 6 ==> s[0] == 'O';
  }

  lemma PlainChains(c: ChainName)
    requires Plain(c)
    ensures IsWord(ChainText(c)) && ParseChain(ChainText(c)) == c
    ensures ParseTarget([ChainText(c)]) == Some(Jump(c))
  {
    hide ChainText, ParseChain, IsWord, Plain;
    ChainWord(c);
    ChainReadsBack(c);
    ChainIsNoTargetName(c);
  }

  lemma TableTexts(t: Table)
    ensures IsWord(TableText(t)) && ParseTable(TableText(t)) == Some(t)
  {
  }

  predicate AreWords(ws: seq<string>) {
    forall i :: 0 <= i < |ws| ==> IsWord(ws[i])
  }

  /** How an appending command splits into arguments, and what its rule specification decides. */
  lemma ParseAppendArguments(t: Table, c: ChainName, spec: seq<string>)
    requires Plain(c) && spec != []
    ensures ParseArguments((["iptables", "-t", TableText(t), "-A", ChainText(c)] + spec)[1..]) == AppendOf(t, c, ParseRule(spec))
  {
    hide ParseRule, TableText, ChainText;
    TableTexts(t);
    PlainChains(c);
    var args := (["iptables", "-t", TableText(t), "-A", ChainText(c)] + spec)[1..];
    assert args[0] == "-t" && args[1] == TableText(t) && args[2] == "-A" && args[3] == ChainText(c);
    assert args[4..] == spec;
  }

  lemma AppendLineFields(t: Table, c: ChainName, spec: seq<string>)
    requires Plain(c) && AreWords(spec)
    ensures Fields(AppendLine(t, c, spec)) == ["iptables", "-t", TableText(t), "-A", ChainText(c)] + spec
  {
    hide TableText, ChainText, Fields, Line;
    TableTexts(t);
    PlainChains(c);
    FieldsLine(["iptables", "-t", TableText(t), "-A", ChainText(c)] + spec);
  }

  lemma ParseAppendLine(t: Table, c: ChainName, spec: seq<string>)
    requires Plain(c) && spec != [] && AreWords(spec)
    ensures ParseLine(AppendLine(t, c, spec)) == AppendOf(t, c, ParseRule(spec))
  {
    hide ParseArguments, ParseRule, AppendLine, Fields, TableText, ChainText;
    AppendLineFields(t, c, spec);
    ParseAppendArguments(t, c, spec);
  }

  lemma ParsePortSpec(ws: seq<string>)
    ensures ParseRule(["-p", "tcp", "--dport"] + ws + ["-j", "RETURN"])
            == if |ws| == 1 && ParseRange(ws[0], 0, MAX_PORT).Some?
               then Some(Rule([Tcp, DestPort(ParseRange(ws[0], 0, MAX_PORT).value)], Return)) else None
  {
    hide ParseRange, ParseTarget;
    var spec := ["-p", "tcp", "--dport"] + ws + ["-j", "RETURN"];
    assert spec[2] == "--dport";
    if |ws| == 1 {
      assert spec[3] == ws[0] && spec[4] == "-j" && spec[5] == "RETURN";
    }
  }

  /** Whatever the port text is, the line splits around it. */
  lemma ParseExclude(t: Table, c: ChainName, port: string)
    requires Plain(c)
    ensures ParseLine(ExcludeLine(t, c, port)) == AppendOf(t, c, PortRule(port))
  {
    hide ParseArguments, ParseRule, ParseRange, Fields, TableText, ChainText, Line, AppendLine;
    var head := AppendLine(t, c, ["-p", "tcp", "--dport"]);
    AppendLineFields(t, c, ["-p", "tcp", "--dport"]);
    FieldsLine(["-j", "RETURN"]);
    FieldsConcat(head + " " + port, Line(["-j", "RETURN"]));
    FieldsConcat(head, port);
    var spec := ["-p", "tcp", "--dport"] + Fields(port) + ["-j", "RETURN"];
    assert Fields(ExcludeLine(t, c, port)) == ["iptables", "-t", TableText(t), "-A", ChainText(c)] + spec;
    ParsePortSpec(Fields(port));
    ParseAppendArguments(t, c, spec);
  }

  lemma ParseNewChain(t: Table, c: ChainName)
    requires Plain(c)
    ensures ParseLine(NewChainLine(t, c)) == Some(NewChain(t, c))
  {
    hide Fields, Line, TableText, ChainText;
    TableTexts(t);
    PlainChains(c);
    var parts := ["iptables", "-t", TableText(t), "-N", ChainText(c)];
    FieldsLine(parts);
    assert parts[1..][3] == ChainText(c);
  }

  lemma ParseFlush(t: Table)
    ensures ParseLine(FlushLine(t)) == Some(Flush(t))
  {
    hide Fields, Line, TableText;
    TableTexts(t);
    var parts := ["iptables", "-t", TableText(t), "-F"];
    FieldsLine(parts);
    assert parts[1..][2] == "-F";
  }

  lemma ParseOwner(t: Table, c: ChainName, uid: int)
    requires Plain(c)
    ensures ParseLine(OwnerLine(t, c, uid)) == AppendOf(t, c, OwnerRule(uid))
  {
    hide AppendLine, ParseLine, ParseDecimal, Decimal, ParseTarget;
    DecimalIsWord(uid);
    ParseDecimalRoundTrip(uid);
    ParseAppendLine(t, c, ["-m", "owner", "--uid-owner", Decimal(uid), "-j", "RETURN"]);
  }

  function EstablishedWords(): seq<string> {
    ["-m", "conntrack", "--ctstate", "ESTABLISHED,RELATED", "-j", "RETURN"]
  }

  lemma EstablishedAreWords()
    ensures AreWords(EstablishedWords())
  {
    hide IsWord;
    var ws := EstablishedWords();
    assert Visible(ws[0]) && Visible(ws[1]) && Visible(ws[2]);
    assert Visible(ws[3]);
    assert Visible(ws[4]) && Visible(ws[5]);
    forall i | 0 <= i < |ws|
      ensures IsWord(ws[i])
    {
      VisibleIsWord(ws[i]);
    }
  }

  lemma EstablishedSpec()
    ensures ParseRule(EstablishedWords()) == Some(ESTABLISHED_RULE)
  {
    hide ParseTarget, ParseRange;
    assert EstablishedWords()[0][1] == 'm' && EstablishedWords()[1][0] == 'c';
  }

  lemma ParseEstablished(t: Table, c: ChainName)
    requires Plain(c)
    ensures ParseLine(EstablishedLine(t, c)) == Some(Append(t, c, ESTABLISHED_RULE))
  {
    EstablishedAreWords();
    EstablishedSpec();
    hide AppendLine, ParseLine, ParseRule, AreWords;
    ParseAppendLine(t, c, EstablishedWords());
  }

  lemma ParseTcpJump(t: Table, from: ChainName, to: ChainName)
    requires Plain(from) && Plain(to)
    ensures ParseLine(TcpJumpLine(t, from, to)) == Some(Append(t, from, TcpJump(to)))
  {
    hide AppendLine, ParseLine, ParseTarget, ChainText;
    PlainChains(to);
    var spec := ["-p", "tcp", "-j", ChainText(to)];
    assert spec[3..] == [ChainText(to)];
    ParseAppendLine(t, from, spec);
  }

  lemma ParseJump(t: Table, from: ChainName, to: ChainName)
    requires Plain(from) && Plain(to)
    ensures ParseLine(JumpLine(t, from, to)) == Some(Append(t, from, Rule([], Jump(to))))
  {
    hide AppendLine, ParseLine, ParseTarget, ChainText;
    PlainChains(to);
    var spec := ["-j", ChainText(to)];
    assert spec[1..] == [ChainText(to)];
    ParseAppendLine(t, from, spec);
  }

  lemma ParseRedirect(t: Table, c: ChainName, port: int)
    requires Plain(c)
    ensures ParseLine(RedirectLine(t, c, port)) == AppendOf(t, c, RedirectRule(port))
  {
    hide AppendLine, ParseLine, ParseDecimal, Decimal;
    DecimalIsWord(port);
    ParseDecimalRoundTrip(port);
    var target := ["REDIRECT", "--to-ports", Decimal(port)];
    var spec := ["-p", "tcp", "-j", "REDIRECT", "--to-ports", Decimal(port)];
    assert spec[3..] == target;
    ParseAppendLine(t, c, spec);
  }

  lemma MaskText()
    ensures ParseHex("0xfff") == Some(MASK)
  {
    assert "0xfff"[2..] == "fff" && "fff"[..2] == "ff" && "ff"[..1] == "f" && "f"[..0] == "";
    assert HexValue("f") == 15 && HexValue("ff") == 255;
  }

  lemma ParseMarkText(mark: int)
    ensures ParseMark("0x" + Hex(mark) + "/0xfff") == if 0 <= mark <= MAX_MARK then Some((mark, MASK)) else None
  {
    hide ParseHex, Hex;
    HexChars(mark);
    ParseHexRoundTrip(mark);
    MaskText();
    SplitPart("0x" + Hex(mark), "0xfff", '/');
    SplitPart("0xfff", "", '/');
    assert "0x" + Hex(mark) + "/0xfff" == ("0x" + Hex(mark)) + ['/'] + "0xfff";
  }

  lemma MarkIsWord(mark: int)
    ensures IsWord("0x" + Hex(mark) + "/0xfff")
  {
    hide Hex;
    HexChars(mark);
  }

  lemma ParseTProxyTarget(port: int, mark: int)
    ensures var target := ParseTarget(["TPROXY", "--on-port", Decimal(port), "--on-ip", "0.0.0.0",
                                       "--tproxy-mark", "0x" + Hex(mark) + "/0xfff"]);
            if TProxyRule(port, mark).Some? then target == Some(TProxyRule(port, mark).value.target) else target == None
  {
    hide ParseDecimal, Decimal, ParseMark, Hex;
    ParseDecimalRoundTrip(port);
    ParseMarkText(mark);
  }

  lemma ParseTProxy(t: Table, c: ChainName, port: int, mark: int)
    requires Plain(c)
    ensures ParseLine(TProxyLine(t, c, port, mark)) == AppendOf(t, c, TProxyRule(port, mark))
  {
    hide AppendLine, ParseLine, ParseTarget, Decimal, Hex;
    DecimalIsWord(port);
    MarkIsWord(mark);
    ParseTProxyTarget(port, mark);
    var target := ["TPROXY", "--on-port", Decimal(port), "--on-ip", "0.0.0.0", "--tproxy-mark", "0x" + Hex(mark) + "/0xfff"];
    var spec := ["-p", "tcp", "-j", "TPROXY", "--on-port", Decimal(port),
                 "--on-ip", "0.0.0.0", "--tproxy-mark", "0x" + Hex(mark) + "/0xfff"];
    assert spec[3..] == target;
    ParseAppendLine(t, c, spec);
  }

  lemma ParsedConcat(a: seq<string>, b: seq<string>)
    ensures Parsed(a + b) == Parsed(a) + Parsed(b)
  {
    hide ParseLine;
  }

  lemma ParseEntry(port: string, places: seq<(Table, ChainName)>)
    requires forall i :: 0 <= i < |places| ==> Plain(places[i].1)
    ensures Parsed(EntryLines(port, places)) == EntryCommands(port, places)
  {
    hide ParseLine, ExcludeLine, PortRule, Plain, AppendOf;
    forall i | 0 <= i < |places|
      ensures ParseLine(ExcludeLine(places[i].0, places[i].1, port)) == AppendOf(places[i].0, places[i].1, PortRule(port))
    {
      ParseExclude(places[i].0, places[i].1, port);
    }
  }

  lemma {:induction false} ParseExclusions(entries: seq<string>, places: seq<(Table, ChainName)>)
    requires forall i :: 0 <= i < |places| ==> Plain(places[i].1)
    ensures Parsed(ExclusionLines(entries, places)) == ExclusionCommands(entries, places)
    decreases |entries|
  {
    hide EntryLines, EntryCommands, Parsed, Plain;
    if entries == [] {
      NothingParsed();
    } else {
      var port := entries[|entries| - 1];
      ParseExclusions(entries[..|entries| - 1], places);
      ParseEntry(port, places);
      ParsedConcat(ExclusionLines(entries[..|entries| - 1], places), EntryLines(port, places));
    }
  }

  lemma NothingParsed()
    ensures Parsed([]) == []
  {
  }

  lemma ParsePortLines(t: Table, c: ChainName, ports: seq<string>)
    requires Plain(c)
    ensures Parsed(PortLines(t, c, ports)) == seq(|ports|, i requires 0 <= i < |ports| => AppendOf(t, c, PortRule(ports[i])))
  {
    hide ParseLine, ExcludeLine, PortRule;
    forall i | 0 <= i < |ports|
      ensures ParseLine(ExcludeLine(t, c, ports[i])) == AppendOf(t, c, PortRule(ports[i]))
    {
      ParseExclude(t, c, ports[i]);
    }
  }

  lemma ParseTProxySetup()
    ensures Parsed(TProxySetupLines()) == TProxySetup()
  {
    hide ParseLine, NewChainLine, FlushLine;
    ParseNewChain(Mangle, SentinelInbound);
    ParseFlush(Nat);
    ParseNewChain(Nat, SentinelOutput);
  }

  lemma ParseTProxyExemptions(cfg: Config)
    ensures Parsed(TProxyExemptionLines(cfg)) == TProxyExemptions(cfg)
  {
    hide ParseLine, OwnerLine, PortLines, ExclusionLines, ExclusionCommands, PortRule, Split, AppendOf;
    ParseOwner(Nat, SentinelOutput, cfg.proxyUid);
    ParsePortLines(Mangle, SentinelInbound, ["443", "9090"]);
    ParsePortLines(Nat, SentinelOutput, [cfg.servicePort, "443", "9090"]);
    ParseExclusions(Split(cfg.excludePorts, ','), TPROXY_PLACES);
    var owner := [OwnerLine(Nat, SentinelOutput, cfg.proxyUid)];
    var inbound := PortLines(Mangle, SentinelInbound, ["443", "9090"]);
    var outbound := PortLines(Nat, SentinelOutput, [cfg.servicePort, "443", "9090"]);
    var exclusions := ExclusionLines(Split(cfg.excludePorts, ','), TPROXY_PLACES);
    ParsedConcat(owner, inbound);
    ParsedConcat(owner + inbound, outbound);
    ParsedConcat(owner + inbound + outbound, exclusions);
  }

  lemma ParseTProxyInterception(cfg: Config)
    ensures Parsed(TProxyInterceptionLines(cfg)) == TProxyInterception(cfg)
  {
    hide ParseLine, TcpJumpLine, EstablishedLine, TProxyLine, ExcludeLine, RedirectLine, PortRule, TProxyRule, RedirectRule, AppendOf;
    ParseTcpJump(Mangle, Prerouting, SentinelInbound);
    ParseEstablished(Mangle, SentinelInbound);
    ParseTProxy(Mangle, SentinelInbound, cfg.inboundPort, cfg.proxyMark);
    ParseEstablished(Nat, SentinelOutput);
    ParseExclude(Nat, Output, "443");
    ParseTcpJump(Nat, Output, SentinelOutput);
    ParseRedirect(Nat, SentinelOutput, cfg.outboundPort);
  }

  lemma ParseRedirectSetup()
    ensures Parsed(RedirectSetupLines()) == RedirectSetup()
  {
    hide ParseLine, NewChainLine, FlushLine;
    ParseFlush(Nat);
    ParseNewChain(Nat, SentinelInbound);
    ParseNewChain(Nat, SentinelRedirect);
    ParseNewChain(Nat, SentinelOutput);
    ParseNewChain(Nat, SentinelInRedirect);
  }

  lemma ParseRedirectExemptions(cfg: Config)
    ensures Parsed(RedirectExemptionLines(cfg)) == RedirectExemptions(cfg)
  {
    hide ParseLine, PortLines, ExclusionLines, ExclusionCommands, PortRule, Split, AppendOf;
    ParsePortLines(Nat, SentinelOutput, ["9090"]);
    ParseExclusions(Split(cfg.excludePorts, ','), REDIRECT_PLACES);
    ParsedConcat(PortLines(Nat, SentinelOutput, ["9090"]), ExclusionLines(Split(cfg.excludePorts, ','), REDIRECT_PLACES));
  }

  lemma ParseRedirectInterception(cfg: Config)
    ensures Parsed(RedirectInterceptionLines(cfg)) == RedirectInterception(cfg)
  {
    hide ParseLine, TcpJumpLine, JumpLine, EstablishedLine, OwnerLine, RedirectLine, OwnerRule, RedirectRule, AppendOf;
    ParseTcpJump(Nat, Prerouting, SentinelInbound);
    ParseTcpJump(Nat, Output, SentinelOutput);
    ParseTcpJump(Nat, SentinelInbound, SentinelInRedirect);
    ParseRedirect(Nat, SentinelInRedirect, cfg.inboundPort);
    ParseOwner(Nat, SentinelOutput, cfg.proxyUid);
    ParseEstablished(Nat, SentinelOutput);
    ParseJump(Nat, SentinelOutput, SentinelRedirect);
    ParseRedirect(Nat, SentinelRedirect, cfg.outboundPort);
  }

  /** Printing the command lines and splitting them on whitespace gives exactly the intended commands. */
  lemma LinesReadBack(cfg: Config)
    ensures Parsed(Lines(cfg)) == Commands(cfg)
  {
    hide Parsed, TProxySetupLines, TProxyExemptionLines, TProxyInterceptionLines, TProxySetup, TProxyExemptions,
      TProxyInterception, RedirectSetupLines, RedirectExemptionLines, RedirectInterceptionLines, RedirectSetup,
      RedirectExemptions, RedirectInterception;
    if cfg.mode == "TPROXY" {
      ParseTProxySetup();
      ParseTProxyExemptions(cfg);
      ParseTProxyInterception(cfg);
      ParsedConcat(TProxySetupLines(), TProxyExemptionLines(cfg));
      ParsedConcat(TProxySetupLines() + TProxyExemptionLines(cfg), TProxyInterceptionLines(cfg));
    } else {
      ParseRedirectSetup();
      ParseRedirectExemptions(cfg);
      ParseRedirectInterception(cfg);
      ParsedConcat(RedirectSetupLines(), RedirectExemptionLines(cfg));
      ParsedConcat(RedirectSetupLines() + RedirectExemptionLines(cfg), RedirectInterceptionLines(cfg));
    }
  }

  // ----- The apply loop --------------------------------------------------

  /**
   Builds the command lines for the mode and runs them in order, carrying on
   after each failure. `refused[i]` says that invocation `i` fails for a reason
   outside the model; `iptablesPath` is where the program was found.
   */
  method SetupIPTables(kernel: Kernel, cfg: Config, iptablesPath: string, refused: seq<bool>)
    requires |refused| == |Commands(cfg)|
    modifies kernel
    ensures cfg.dryRun ==> unchanged(kernel)
    ensures !cfg.dryRun ==>
              forall t :: kernel.ChainsOf(t) == Run(old(kernel.ChainsOf(t)), t, Commands(cfg), refused)
  {
    hide Lines, Commands, ParseArguments, Step, Fields, TProxyLines, RedirectLines;
    var rules;
    if cfg.mode == "TPROXY" {
      rules := BuildTProxyRules(cfg);
    } else {
      rules := BuildRedirectRules(cfg);
    }
    ModeLines(cfg);
    if cfg.dryRun { return; }
    LinesReadBack(cfg);
    ghost var commands := Commands(cfg);
    for n := 0 to |rules|
      invariant forall t ::
                  Run(kernel.ChainsOf(t), t, commands[n..], refused[n..]) == Run(old(kernel.ChainsOf(t)), t, commands, refused)
    {
      var parts := Fields(rules[n]);
      assert commands[n] == ParseLine(rules[n]);
      assert commands[n..][1..] == commands[n + 1..] && refused[n..][1..] == refused[n + 1..];
      if |parts| < 2 {
        StepOfNone(refused[n]);
        continue;
      }
      ghost var arguments := parts[1..];
      parts := parts[0 := iptablesPath];
      assert parts[1..] == arguments;
      var ok := kernel.Execute(parts, refused[n]);
    }
  }

  lemma ModeLines(cfg: Config)
    ensures Lines(cfg) == if cfg.mode == "TPROXY" then TProxyLines(cfg) else RedirectLines(cfg)
  {
  }

  lemma StepOfNone(refused: bool)
    ensures forall chains, t :: Step(chains, t, None, refused) == chains
  {
  }
}
