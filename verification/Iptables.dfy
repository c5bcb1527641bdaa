/**
 The part of iptables that the init container drives: the tables `nat` and
 `mangle`, chains of rules, the command line, and packet traversal.
 */
module Iptables {
  import opened Text

  // ----- Tables ----------------------------------------------------------

  datatype Table = Nat | Mangle

  /** The chains the init container names, and every other chain by its name. */
  datatype ChainName =
    | Prerouting
    | Output
    | SentinelInbound
    | SentinelOutput
    | SentinelRedirect
    | SentinelInRedirect
    | Other(name: string)

  /** What a rule asks of a packet. */
  datatype Match = Tcp | DestPort(port: nat) | OwnerUid(uid: nat) | Established

  datatype Target =
    | Return
    | Accept
    | Drop
    | Redirect(port: nat)
    | TProxy(onPort: nat, mark: nat, mask: nat)
    | Jump(chain: ChainName)

  datatype Rule = Rule(matches: seq<Match>, target: Target)

  type Chains = map<ChainName, seq<Rule>>

  /** `uid` is absent for packets that no local process sent. */
  datatype Packet = Packet(tcp: bool, port: nat, uid: Option<nat>, established: bool)

  predicate MatchHolds(m: Match, p: Packet) {
    match m
    case Tcp => p.tcp
    case DestPort(port) => p.tcp && p.port == port
    case OwnerUid(uid) => p.uid == Some(uid)
    case Established => p.established
  }

  predicate Matches(r: Rule, p: Packet) {
    forall i :: 0 <= i < |r.matches| ==> MatchHolds(r.matches[i], p)
  }

  // ----- Traversal -------------------------------------------------------

  /** How a walk through a list of rules ends. */
  datatype Outcome =
    | FellOff
    | Returned
    | Accepted
    | Dropped
    | Redirected(port: nat)
    | TProxied(onPort: nat, mark: nat, mask: nat)
    | Looped

  predicate Continues(o: Outcome) { o.FellOff? || o.Returned? }

  /**
   Walks `rules`. Entering a chain removes it from the chains that can still be
   entered, so a walk that comes back to a chain it is inside of is `Looped`.
   */
  function Walk(chains: Chains, rules: seq<Rule>, p: Packet): Outcome
    decreases |chains|, |rules|
  {
    if rules == [] then FellOff
    else if !Matches(rules[0], p) then Walk(chains, rules[1..], p)
    else
      match rules[0].target
      case Return => Returned
      case Accept => Accepted
      case Drop => Dropped
      case Redirect(port) => Redirected(port)
      case TProxy(onPort, mark, mask) => TProxied(onPort, mark, mask)
      case Jump(c) =>
        if c !in chains then Looped
        else
          ShrinkingChains(chains, c);
          var o := Walk(chains - {c}, chains[c], p);
          if Continues(o) then Walk(chains, rules[1..], p) else o
  }

  lemma ShrinkingChains(chains: Chains, c: ChainName)
    requires c in chains
    ensures |chains - {c}| < |chains|
  {
    assert (chains - {c}).Keys == chains.Keys - {c};
    assert |(chains - {c}).Keys| == |chains - {c}|;
  }

  /** The policy of a built-in chain is to accept what its rules leave undecided. */
  function Verdict(o: Outcome): Outcome {
    if Continues(o) then Accepted else o
  }

  /** What a packet entering the built-in chain `hook` meets with. */
  function Decide(chains: Chains, hook: ChainName, p: Packet): Outcome
    requires hook in chains
  {
    Verdict(Walk(chains - {hook}, chains[hook], p))
  }

  // ----- Commands --------------------------------------------------------

  datatype Command =
    | NewChain(table: Table, chain: ChainName)
    | Flush(table: Table)
    | Append(table: Table, chain: ChainName, rule: Rule)

  /** Whether iptables carries the command out on the chains of its table. */
  predicate Acceptable(names: set<ChainName>, c: Command) {
    match c
    case NewChain(_, chain) => chain !in names
    case Flush(_) => true
    case Append(_, chain, rule) =>
      chain in names && (rule.target.Jump? ==> rule.target.chain in names)
  }

  /**
   The chains of table `t` after one command line. A line that is not a command
   (`None`) and a line the kernel refuses for reasons of its own change nothing.
   */
  function Step(chains: Chains, t: Table, c: Option<Command>, refused: bool): (r: Chains)
    ensures chains.Keys <= r.Keys
  {
    if refused || c.None? || c.value.table != t || !Acceptable(chains.Keys, c.value) then chains
    else
      match c.value
      case NewChain(_, chain) => chains[chain := []]
      case Flush(_) => map c <- chains :: []
      case Append(_, chain, rule) => chains[chain := chains[chain] + [rule]]
  }

  /** The chains of table `t` after a list of command lines. */
  function Run(chains: Chains, t: Table, cs: seq<Option<Command>>, refused: seq<bool>): (r: Chains)
    requires |cs| == |refused|
    ensures chains.Keys <= r.Keys
    decreases |cs|
  {
    if cs == [] then chains
    else Run(Step(chains, t, cs[0], refused[0]), t, cs[1..], refused[1..])
  }

  // ----- The command line ------------------------------------------------

  function ParseTable(s: string): Option<Table> {
    if s == "nat" then Some(Nat) else if s == "mangle" then Some(Mangle) else None
  }

  function TableText(t: Table): string {
    match t
    case Nat => "nat"
    case Mangle => "mangle"
  }

  function ChainText(c: ChainName): string {
    match c
    case Prerouting => "PREROUTING"
    case Output => "OUTPUT"
    case SentinelInbound => "SENTINEL_INBOUND"
    case SentinelOutput => "SENTINEL_OUTPUT"
    case SentinelRedirect => "SENTINEL_REDIRECT"
    case SentinelInRedirect => "SENTINEL_IN_REDIRECT"
    case Other(name) => name
  }

  function ParseChain(s: string): (c: ChainName)
    ensures ChainText(c) == s
  {
    if s == "PREROUTING" then Prerouting
    else if s == "OUTPUT" then Output
    else if s == "SENTINEL_INBOUND" then SentinelInbound
    else if s == "SENTINEL_OUTPUT" then SentinelOutput
    else if s == "SENTINEL_REDIRECT" then SentinelRedirect
    else if s == "SENTINEL_IN_REDIRECT" then SentinelInRedirect
    else Other(s)
  }

  function ParseRange(s: string, low: nat, high: nat): Option<nat> {
    match ParseDecimal(s)
    case Some(n) => if low <= n <= high then Some(n) else None
    case None => None
  }

  const MAX_PORT := 65535
  const MAX_UID := 0xffff_fffe
  const MAX_MARK := 0xffff_ffff

  /** A packet mark and its mask, both hexadecimal. */
  function ParseMark(s: string): Option<(nat, nat)> {
    var parts := Split(s, '/');
    if |parts| != 2 then None
    else
      match (ParseHex(parts[0]), ParseHex(parts[1]))
      case (Some(mark), Some(mask)) =>
        if mark <= MAX_MARK && mask <= MAX_MARK then Some((mark, mask)) else None
      case _ => None
  }

  /** What follows `-j`. */
  function ParseTarget(ts: seq<string>): Option<Target> {
    if |ts| == 1 then
      if ts[0] == "RETURN" then Some(Return)
      else if ts[0] == "ACCEPT" || ts[0] == "DROP" || ts[0] == "REDIRECT" || ts[0] == "TPROXY" then None
      else Some(Jump(ParseChain(ts[0])))
    else if |ts| == 3 && ts[0] == "REDIRECT" && ts[1] == "--to-ports" then
      match ParseRange(ts[2], 1, MAX_PORT)
      case Some(n) => Some(Redirect(n))
      case None => None
    else if |ts| == 7 && ts[0] == "TPROXY" && ts[1] == "--on-port" && ts[3] == "--on-ip"
            && ts[4] == "0.0.0.0" && ts[5] == "--tproxy-mark" then
      match (ParseRange(ts[2], 0, MAX_PORT), ParseMark(ts[6]))
      case (Some(n), Some((mark, mask))) => Some(TProxy(n, mark, mask))
      case _ => None
    else None
  }

  /** The rule specifications the init container writes. */
  function ParseRule(spec: seq<string>): Option<Rule> {
    if |spec| == 6 && spec[0] == "-p" && spec[1] == "tcp" && spec[2] == "--dport"
       && spec[4] == "-j" && spec[5] == "RETURN" then
      match ParseRange(spec[3], 0, MAX_PORT)
      case Some(n) => Some(Rule([Tcp, DestPort(n)], Return))
      case None => None
    else if |spec| >= 4 && spec[0] == "-p" && spec[1] == "tcp" && spec[2] == "-j" then
      match ParseTarget(spec[3..])
      case Some(target) => Some(Rule([Tcp], target))
      case None => None
    else if |spec| == 6 && spec[0] == "-m" && spec[1] == "owner" && spec[2] == "--uid-owner"
            && spec[4] == "-j" && spec[5] == "RETURN" then
      match ParseRange(spec[3], 0, MAX_UID)
      case Some(n) => Some(Rule([OwnerUid(n)], Return))
      case None => None
    else if |spec| == 6 && spec[0] == "-m" && spec[1] == "conntrack" && spec[2] == "--ctstate"
            && spec[3] == "ESTABLISHED,RELATED" && spec[4] == "-j" && spec[5] == "RETURN" then
      Some(Rule([Established], Return))
    else if |spec| == 2 && spec[0] == "-j" then
      match ParseTarget(spec[1..])
      case Some(target) => Some(Rule([], target))
      case None => None
    else None
  }

  /** Reads the arguments that follow the program name. */
  function ParseArguments(args: seq<string>): Option<Command> {
    if |args| < 3 || args[0] != "-t" then None
    else
      match ParseTable(args[1])
      case None => None
      case Some(t) =>
        if args[2] == "-F" then if |args| == 3 then Some(Flush(t)) else None
        else if args[2] == "-N" then if |args| == 4 then Some(NewChain(t, ParseChain(args[3]))) else None
        else if args[2] == "-A" && |args| > 4 then
          match ParseRule(args[4..])
          case Some(rule) => Some(Append(t, ParseChain(args[3]), rule))
          case None => None
        else None
  }

  /** What the apply loop makes of one command line. */
  function ParseLine(line: string): Option<Command> {
    var parts := Fields(line);
    if |parts| < 2 then None else ParseArguments(parts[1..])
  }

  // ----- Laws of traversal -----------------------------------------------

  lemma {:induction false} WalkConcat(chains: Chains, a: seq<Rule>, b: seq<Rule>, p: Packet)
    ensures Walk(chains, a + b, p) == if Walk(chains, a, p).FellOff? then Walk(chains, b, p) else Walk(chains, a, p)
    decreases |a|
  {
    if a == [] {
      assert a + b == b;
    } else {
      assert (a + b)[1..] == a[1..] + b;
      WalkConcat(chains, a[1..], b, p);
    }
  }

  predicate AllReturn(rules: seq<Rule>) {
    forall i :: 0 <= i < |rules| ==> rules[i].target == Return
  }

  predicate AnyMatches(rules: seq<Rule>, p: Packet) {
    exists i :: 0 <= i < |rules| && Matches(rules[i], p)
  }

  /** A list of RETURN rules acts as a set: only whether one of them matches counts. */
  lemma {:induction false} WalkReturns(chains: Chains, rules: seq<Rule>, p: Packet)
    requires AllReturn(rules)
    ensures Walk(chains, rules, p) == if AnyMatches(rules, p) then Returned else FellOff
    decreases |rules|
  {
    if rules != [] {
      WalkReturns(chains, rules[1..], p);
      if AnyMatches(rules, p) && !Matches(rules[0], p) {
        var i :| 0 <= i < |rules| && Matches(rules[i], p);
        assert rules[1..][i - 1] == rules[i];
      }
    }
  }

  predicate JumpsWithin(rules: seq<Rule>, names: set<ChainName>) {
    forall i :: 0 <= i < |rules| && rules[i].target.Jump? ==> rules[i].target.chain in names
  }

  /** The chains called `names` are the same in both tables and jump only to each other. */
  predicate SameOn(a: Chains, b: Chains, names: set<ChainName>) {
    forall c <- names :: (c in a <==> c in b) && (c in a ==> a[c] == b[c] && JumpsWithin(a[c], names))
  }

  /** A walk depends only on the chains it can reach. */
  lemma {:induction false} WalkFrame(a: Chains, b: Chains, names: set<ChainName>, rules: seq<Rule>, p: Packet)
    requires SameOn(a, b, names) && JumpsWithin(rules, names)
    ensures Walk(a, rules, p) == Walk(b, rules, p)
    decreases |a|, |rules|
  {
    if rules != [] {
      WalkFrame(a, b, names, rules[1..], p);
      if rules[0].target.Jump? && rules[0].target.chain in a {
        var c := rules[0].target.chain;
        ShrinkingChains(a, c);
        WalkFrame(a - {c}, b - {c}, names, a[c], p);
      }
    }
  }

  // ----- Laws of execution -----------------------------------------------

  lemma {:induction false} RunConcat(chains: Chains, t: Table, a: seq<Option<Command>>, b: seq<Option<Command>>,
                                     ra: seq<bool>, rb: seq<bool>)
    requires |a| == |ra| && |b| == |rb|
    ensures Run(chains, t, a + b, ra + rb) == Run(Run(chains, t, a, ra), t, b, rb)
    decreases |a|
  {
    if a == [] {
      assert a + b == b && ra + rb == rb;
    } else {
      assert (a + b)[1..] == a[1..] + b && (ra + rb)[1..] == ra[1..] + rb;
      RunConcat(Step(chains, t, a[0], ra[0]), t, a[1..], b, ra[1..], rb);
    }
  }

  /** Every command of the list that acts on table `t` appends a rule. */
  predicate OnlyAppends(cs: seq<Option<Command>>, t: Table) {
    forall i :: 0 <= i < |cs| && cs[i].Some? && cs[i].value.table == t ==> cs[i].value.Append?
  }

  /** Whether command `i` puts a rule into chain `chain` of table `t`, given the chains there are. */
  predicate Adds(names: set<ChainName>, t: Table, chain: ChainName, c: Option<Command>, refused: bool) {
    !refused && c.Some? && c.value.table == t && c.value.Append? && c.value.chain == chain
    && Acceptable(names, c.value)
  }

  /** The rules a list of commands puts into one chain, in order. */
  function Added(names: set<ChainName>, t: Table, chain: ChainName, cs: seq<Option<Command>>, refused: seq<bool>): seq<Rule>
    requires |cs| == |refused|
  {
    if cs == [] then []
    else
      (if Adds(names, t, chain, cs[0], refused[0]) then [cs[0].value.rule] else [])
      + Added(names, t, chain, cs[1..], refused[1..])
  }

  lemma {:induction false} AddedConcat(names: set<ChainName>, t: Table, chain: ChainName,
                                       a: seq<Option<Command>>, b: seq<Option<Command>>, ra: seq<bool>, rb: seq<bool>)
    requires |a| == |ra| && |b| == |rb|
    ensures Added(names, t, chain, a + b, ra + rb) == Added(names, t, chain, a, ra) + Added(names, t, chain, b, rb)
    decreases |a|
  {
    hide Adds;
    if a == [] {
      assert a + b == b && ra + rb == rb;
    } else {
      assert (a + b)[1..] == a[1..] + b && (ra + rb)[1..] == ra[1..] + rb;
      AddedConcat(names, t, chain, a[1..], b, ra[1..], rb);
    }
  }

  lemma {:induction false} AddedMember(names: set<ChainName>, t: Table, chain: ChainName,
                                       cs: seq<Option<Command>>, refused: seq<bool>, r: Rule)
    requires |cs| == |refused|
    ensures r in Added(names, t, chain, cs, refused) <==>
            exists i :: 0 <= i < |cs| && Adds(names, t, chain, cs[i], refused[i]) && cs[i].value.rule == r
    decreases |cs|
  {
    if cs != [] {
      AddedMember(names, t, chain, cs[1..], refused[1..], r);
      if i :| 0 <= i < |cs| && Adds(names, t, chain, cs[i], refused[i]) && cs[i].value.rule == r {
        if i > 0 {
          assert Adds(names, t, chain, cs[1..][i - 1], refused[1..][i - 1]);
        }
      }
      if r in Added(names, t, chain, cs[1..], refused[1..]) {
        var j :| 0 <= j < |cs| - 1 && Adds(names, t, chain, cs[1..][j], refused[1..][j]) && cs[1..][j].value.rule == r;
        assert Adds(names, t, chain, cs[j + 1], refused[j + 1]);
      }
    }
  }

  lemma {:induction false} AddedNothing(names: set<ChainName>, t: Table, chain: ChainName,
                                        cs: seq<Option<Command>>, refused: seq<bool>)
    requires |cs| == |refused|
    requires forall i :: 0 <= i < |cs| ==> !Adds(names, t, chain, cs[i], refused[i])
    ensures Added(names, t, chain, cs, refused) == []
    decreases |cs|
  {
    if cs != [] {
      AddedNothing(names, t, chain, cs[1..], refused[1..]);
    }
  }

  /** Appending commands leave the set of chains alone and extend each chain by what they add to it. */
  lemma {:induction false} RunAppends(chains: Chains, t: Table, cs: seq<Option<Command>>, refused: seq<bool>)
    requires |cs| == |refused| && OnlyAppends(cs, t)
    ensures Run(chains, t, cs, refused).Keys == chains.Keys
    ensures forall c <- chains :: Run(chains, t, cs, refused)[c] == chains[c] + Added(chains.Keys, t, c, cs, refused)
    decreases |cs|
  {
    if cs != [] {
      var next := Step(chains, t, cs[0], refused[0]);
      assert next.Keys == chains.Keys;
      RunAppends(next, t, cs[1..], refused[1..]);
    }
  }

  /** Commands on other tables leave this one alone. */
  lemma {:induction false} RunElsewhere(chains: Chains, t: Table, cs: seq<Option<Command>>, refused: seq<bool>)
    requires |cs| == |refused|
    requires forall i :: 0 <= i < |cs| ==> refused[i] || cs[i].None? || cs[i].value.table != t
    ensures Run(chains, t, cs, refused) == chains
    decreases |cs|
  {
    if cs != [] {
      RunElsewhere(chains, t, cs[1..], refused[1..]);
    }
  }

  // ----- The kernel as the apply loop sees it ----------------------------

  /** The kernel's two tables, changed in place by each iptables invocation. */
  class Kernel {
    var natChains: Chains
    var mangleChains: Chains

    constructor (natChains: Chains, mangleChains: Chains)
      ensures this.natChains == natChains && this.mangleChains == mangleChains
    {
      this.natChains, this.mangleChains := natChains, mangleChains;
    }

    function ChainsOf(t: Table): Chains
      reads this
    {
      if t == Nat then natChains else mangleChains
    }

    /**
     One invocation of the iptables program. `parts[0]` is the program's path.
     `refused` says that the invocation fails for a reason outside this model.
     */
    method Execute(parts: seq<string>, refused: bool) returns (ok: bool)
      requires |parts| >= 2
      modifies this
      ensures forall t :: ChainsOf(t) == Step(old(ChainsOf(t)), t, ParseArguments(parts[1..]), refused)
      ensures ok <==> !refused && ParseArguments(parts[1..]).Some?
                      && var c := ParseArguments(parts[1..]).value; Acceptable(old(ChainsOf(c.table)).Keys, c)
      ensures !ok ==> natChains == old(natChains) && mangleChains == old(mangleChains)
    {
      var c := ParseArguments(parts[1..]);
      if refused || c.None? || !Acceptable(ChainsOf(c.value.table).Keys, c.value) {
        return false;
      }
      match c.value {
        case NewChain(Nat, chain) => natChains := natChains[chain := []];
        case NewChain(Mangle, chain) => mangleChains := mangleChains[chain := []];
        case Flush(Nat) => natChains := map n <- natChains :: [];
        case Flush(Mangle) => mangleChains := map n <- mangleChains :: [];
        case Append(Nat, chain, rule) => natChains := natChains[chain := natChains[chain] + [rule]];
        case Append(Mangle, chain, rule) => mangleChains := mangleChains[chain := mangleChains[chain] + [rule]];
      }
      return true;
    }
  }
}
