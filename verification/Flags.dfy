/**
 The init container's command line: Go's flag package on the flags it declares.
 */
module Flags {
  import opened Text
  import opened InitContainer

  const DEFAULTS := Config("TPROXY", 15006, 15001, "3005", 1337, 0x111, "", false)

  const MAX_INT := 0x7FFF_FFFF_FFFF_FFFF

  /** An integer flag's value, in decimal notation without leading zeros. */
  function ParseIntValue(s: string): Option<int> {
    var signed := s != "" && s[0] in {'-', '+'};
    match ParseDecimal(if signed then s[1..] else s)
    case None => None
    case Some(n) =>
      var value: int := if signed && s[0] == '-' then 0 - n else n;
      if -MAX_INT - 1 <= value <= MAX_INT then Some(value) else None
  }

  function ParseBoolValue(s: string): Option<bool> {
    if s in ["1", "t", "T", "TRUE", "true", "True"] then Some(true)
    else if s in ["0", "f", "F", "FALSE", "false", "False"] then Some(false)
    else None
  }

  function WithInt(value: string, put: int -> Config): Option<Config> {
    match ParseIntValue(value)
    case None => None
    case Some(n) => Some(put(n))
  }

  /** Gives a declared flag a value; None where the name is not declared or the value is not one of its type. */
  function SetFlag(cfg: Config, name: string, value: string): Option<Config> {
    if name == "mode" then Some(cfg.(mode := value))
    else if name == "servicePort" then Some(cfg.(servicePort := value))
    else if name == "excludePorts" then Some(cfg.(excludePorts := value))
    else if name == "inboundPort" then WithInt(value, n => cfg.(inboundPort := n))
    else if name == "outboundPort" then WithInt(value, n => cfg.(outboundPort := n))
    else if name == "proxyUID" then WithInt(value, n => cfg.(proxyUid := n))
    else if name == "proxyMark" then WithInt(value, n => cfg.(proxyMark := n))
    else if name == "dryRun" then
      match ParseBoolValue(value)
      case None => None
      case Some(b) => Some(cfg.(dryRun := b))
    else None
  }

  /** The position of the first equals sign, or the length. */
  function EqualsAt(s: string): (n: nat)
    ensures n <= |s|
    ensures '=' !in s ==> n == |s|
  {
    if s == "" || s[0] == '=' then 0 else 1 + EqualsAt(s[1..])
  }

  /** Flags up to the first argument that is none; None where the program exits with a usage message. */
  function ParseFlags(cfg: Config, args: seq<string>): Option<Config>
    decreases |args|, 0
  {
    if args == [] || |args[0]| < 2 || args[0][0] != '-' || args[0] == "--" then Some(cfg)
    else
      var body := if args[0][1] == '-' then args[0][2..] else args[0][1..];
      if body == "" || body[0] in {'-', '='} then None
      else
        var name, inline := body[..EqualsAt(body)], EqualsAt(body) < |body|;
        if inline then Then(SetFlag(cfg, name, body[|name| + 1..]), args[1..])
        else if name == "dryRun" then Then(SetFlag(cfg, name, "true"), args[1..])
        else if |args| < 2 then None
        else Then(SetFlag(cfg, name, args[1]), args[2..])
  }

  function Then(cfg: Option<Config>, args: seq<string>): Option<Config>
    decreases |args|, 1
  {
    match cfg
    case None => None
    case Some(c) => ParseFlags(c, args)
  }

  /** A flag and its value as two arguments. */
  lemma PairSets(cfg: Config, name: string, value: string, rest: seq<string>)
    requires name != "" && name[0] != '-' && '=' !in name && name != "dryRun"
    ensures ParseFlags(cfg, ["--" + name, value] + rest) == Then(SetFlag(cfg, name, value), rest)
  {
    hide SetFlag;
    var args := ["--" + name, value] + rest;
    assert args[0] == "--" + name && args[0] != "--";
    assert args[0][2..] == name;
    assert name[..|name|] == name;
    assert args[2..] == rest;
  }

  lemma {:induction false} EqualsBehind(name: string, rest: string)
    requires '=' !in name
    ensures EqualsAt(name + "=" + rest) == |name|
    decreases |name|
  {
    var s := name + "=" + rest;
    if name == "" {
      assert s[0] == '=';
    } else {
      assert s[1..] == name[1..] + "=" + rest;
      EqualsBehind(name[1..], rest);
    }
  }

  /** A flag and its value as one argument. */
  lemma InlineSets(cfg: Config, name: string, value: string, rest: seq<string>)
    requires name != "" && name[0] != '-' && '=' !in name
    ensures ParseFlags(cfg, ["--" + name + "=" + value] + rest) == Then(SetFlag(cfg, name, value), rest)
  {
    hide SetFlag, EqualsAt, Then;
    var args, body := ["--" + name + "=" + value] + rest, name + "=" + value;
    EqualsBehind(name, value);
    assert args[0] == "--" + body && args[0] != "--" && args[0][2..] == body;
    assert body[..|name|] == name && body[|name| + 1..] == value && args[1..] == rest;
  }

  /** A command line that states every flag. */
  function ArgsOf(cfg: Config): seq<string> {
    ["--mode", cfg.mode] + (["--inboundPort", Decimal(cfg.inboundPort)]
    + (["--outboundPort", Decimal(cfg.outboundPort)] + (["--servicePort", cfg.servicePort]
    + (["--proxyUID", Decimal(cfg.proxyUid)] + (["--proxyMark", Decimal(cfg.proxyMark)]
    + (["--excludePorts", cfg.excludePorts] + (["--dryRun=" + (if cfg.dryRun then "true" else "false")] + [])))))))
  }

  predicate InRange(cfg: Config) {
    -MAX_INT - 1 <= cfg.inboundPort <= MAX_INT && -MAX_INT - 1 <= cfg.outboundPort <= MAX_INT
    && -MAX_INT - 1 <= cfg.proxyUid <= MAX_INT && -MAX_INT - 1 <= cfg.proxyMark <= MAX_INT
  }

  /** Every configuration comes back from its command line, whatever the flags were before. */
  lemma FlagsRoundTrip(start: Config, cfg: Config)
    requires InRange(cfg)
    ensures ParseFlags(start, ArgsOf(cfg)) == Some(cfg)
  {
    FlagWords();
    hide ParseFlags, ParseIntValue, Decimal;
    DecimalValueRoundTrip(cfg.inboundPort);
    DecimalValueRoundTrip(cfg.outboundPort);
    DecimalValueRoundTrip(cfg.proxyUid);
    DecimalValueRoundTrip(cfg.proxyMark);
    var last := ["--dryRun=" + (if cfg.dryRun then "true" else "false")] + [];
    var a7 := ["--excludePorts", cfg.excludePorts] + last;
    var a6 := ["--proxyMark", Decimal(cfg.proxyMark)] + a7;
    var a5 := ["--proxyUID", Decimal(cfg.proxyUid)] + a6;
    var a4 := ["--servicePort", cfg.servicePort] + a5;
    var a3 := ["--outboundPort", Decimal(cfg.outboundPort)] + a4;
    var a2 := ["--inboundPort", Decimal(cfg.inboundPort)] + a3;
    var c1 := start.(mode := cfg.mode);
    var c2 := c1.(inboundPort := cfg.inboundPort);
    var c3 := c2.(outboundPort := cfg.outboundPort);
    var c4 := c3.(servicePort := cfg.servicePort);
    var c5 := c4.(proxyUid := cfg.proxyUid);
    var c6 := c5.(proxyMark := cfg.proxyMark);
    var c7 := c6.(excludePorts := cfg.excludePorts);
    PairSets(start, "mode", cfg.mode, a2);
    PairSets(c1, "inboundPort", Decimal(cfg.inboundPort), a3);
    PairSets(c2, "outboundPort", Decimal(cfg.outboundPort), a4);
    PairSets(c3, "servicePort", cfg.servicePort, a5);
    PairSets(c4, "proxyUID", Decimal(cfg.proxyUid), a6);
    PairSets(c5, "proxyMark", Decimal(cfg.proxyMark), a7);
    PairSets(c6, "excludePorts", cfg.excludePorts, last);
    InlineSets(c7, "dryRun", if cfg.dryRun then "true" else "false", []);
    NoArgs(cfg);
  }

  lemma NoArgs(cfg: Config)
    ensures ParseFlags(cfg, []) == Some(cfg)
  {
  }

  lemma FlagWords()
    ensures "--" + "mode" == "--mode" && "--" + "inboundPort" == "--inboundPort"
    ensures "--" + "outboundPort" == "--outboundPort" && "--" + "servicePort" == "--servicePort"
    ensures "--" + "proxyUID" == "--proxyUID" && "--" + "proxyMark" == "--proxyMark"
    ensures "--" + "excludePorts" == "--excludePorts" && "--" + "dryRun" + "=" == "--dryRun="
    ensures '=' !in "mode" && '=' !in "inboundPort" && '=' !in "outboundPort" && '=' !in "servicePort"
    ensures '=' !in "proxyUID" && '=' !in "proxyMark" && '=' !in "excludePorts" && '=' !in "dryRun"
  {
  }

  lemma DecimalValueRoundTrip(n: int)
    requires -MAX_INT - 1 <= n <= MAX_INT
    ensures ParseIntValue(Decimal(n)) == Some(n)
  {
    var m := if n < 0 then -n else n;
    DigitsRead(m);
    ParseDecimalRoundTrip(m);
    hide Digits, DigitsValue, ParseDecimal;
    if n < 0 {
      assert Decimal(n)[0] == '-' && Decimal(n)[1..] == Decimal(m);
    } else {
      assert IsDigit(Decimal(n)[0]);
    }
  }

  lemma IntValueRoundTrip(n: nat)
    requires n <= MAX_INT
    ensures ParseIntValue(Digits(n)) == Some(n)
  {
    ParseDecimalRoundTrip(n);
    DigitsRead(n);
  }
}
