/**
 The two containers that the webhook injects, taken together: what the init
 container's arguments make it install, and the user the sidecar runs as.
 */
module InjectedPod {
  import opened Text
  import opened Iptables
  import opened InitContainer
  import opened Policy
  import opened Rerun
  import opened NoLoop
  import opened Flags
  import Json
  import Patch
  import Injection

  /** What an init container's arguments make of the flags. */
  ghost predicate ConfiguredBy(container: Json.Value, cfg: Config) {
    exists args: seq<string> ::
      && args != [] && container.Obj?
      && Patch.Lookup(container.members, "args") == Some(Injection.StringsValue(args))
      && ParseFlags(DEFAULTS, args) == Some(cfg)
  }

  ghost predicate Configures(text: string, cfg: Config) {
    Json.Parse(text).Some? && ConfiguredBy(Json.Parse(text).value, cfg)
  }

  /** The user that the text of a container sets. */
  predicate RunsAs(text: string, uid: nat) {
    var container := Json.Parse(text);
    && container.Some? && container.value.Obj?
    && var security := Patch.Lookup(container.value.members, "securityContext");
    && security.Some? && security.value.Obj?
    && Patch.Lookup(security.value.members, "runAsUser") == Some(Json.Number(uid))
  }

  // ----- Reading the texts -----------------------------------------------

  lemma PortTexts()
    ensures Digits(15006) == "15006" && Digits(15001) == "15001"
  {
    assert Digits(15006) == Digits(1500) + "6" && Digits(15001) == Digits(1500) + "1";
    assert Digits(1500) == Digits(150) + "0" && Digits(150) == Digits(15) + "0";
    assert Digits(15) == Digits(1) + "5" && Digits(1) == "1";
  }

  /** What the injected arguments set, with every other flag at its default. */
  lemma ArgsSet(port: string)
    ensures ParseFlags(DEFAULTS, Injection.InitArgs(port))
         == Some(DEFAULTS.(mode := "REDIRECT", servicePort := port))
  {
    var args := Injection.InitArgs(port);
    PortTexts();
    FlagWords();
    hide Digits, ParseFlags, ParseIntValue;
    IntValueRoundTrip(15006);
    IntValueRoundTrip(15001);
    var c1 := DEFAULTS.(mode := "REDIRECT");
    var port1, port2, port3 := ["--servicePort", port], ["--outboundPort", "15001"], ["--inboundPort", "15006"];
    assert args == ["--mode", "REDIRECT"] + (port3 + (port2 + (port1 + [])));
    PairSets(DEFAULTS, "mode", "REDIRECT", port3 + (port2 + (port1 + [])));
    PairSets(c1, "inboundPort", "15006", port2 + (port1 + []));
    PairSets(c1, "outboundPort", "15001", port1 + []);
    PairSets(c1, "servicePort", port, []);
    NoArgs(c1.(servicePort := port));
  }

  lemma SameStrings(a: seq<string>, b: seq<string>)
    requires Injection.StringsValue(a) == Injection.StringsValue(b)
    ensures a == b
  {
    var x, y := Injection.StringsValue(a).items, Injection.StringsValue(b).items;
    assert |a| == |x| && |b| == |y|;
    forall i | 0 <= i < |a|
      ensures a[i] == b[i]
    {
      assert x[i] == Json.Str(a[i]) && y[i] == Json.Str(b[i]);
    }
  }

  lemma ArgsMember(port: string)
    ensures Injection.InitContainer(port).Obj?
    ensures Patch.Lookup(Injection.InitContainer(port).members, "args")
         == Some(Injection.StringsValue(Injection.InitArgs(port)))
  {
    hide Patch.Lookup, Injection.StringsValue, Injection.InitArgs, Injection.InitSecurity, Injection.Image;
    var ms := Injection.InitContainer(port).members;
    assert ms[0].name[0] == 'n';
    Patch.LookupAt(ms, 4);
  }

  lemma SecurityMember(f: Injection.Filling)
    ensures Injection.Sidecar(f).Obj?
    ensures Patch.Lookup(Injection.Sidecar(f).members, "securityContext") == Some(Injection.SidecarSecurity())
    ensures Injection.SidecarSecurity().Obj?
    ensures Patch.Lookup(Injection.SidecarSecurity().members, "runAsUser") == Some(Json.Number(1337))
  {
    hide Patch.Lookup, Injection.EnvListValue, Injection.SidecarEnv, Injection.Image, Injection.PortsValue, Injection.Mounts,
      Injection.CapabilitiesValue;
    var ms := Injection.Sidecar(f).members;
    assert ms[2].name[0] == 'i';
    Patch.LookupAt(ms, 5);
    Patch.LookupAt(Injection.SidecarSecurity().members, 0);
  }

  /** The init container's arguments state exactly this configuration. */
  lemma InitConfigures(port: string, cfg: Config)
    ensures ConfiguredBy(Injection.InitContainer(port), cfg)
            <==> cfg == Config("REDIRECT", 15006, 15001, port, 1337, 0x111, "", false)
  {
    hide Injection.InitContainer, Injection.StringsValue, Injection.InitArgs, Patch.Lookup, ParseFlags;
    ArgsMember(port);
    ArgsSet(port);
    var args, container := Injection.InitArgs(port), Injection.InitContainer(port);
    if ConfiguredBy(container, cfg) {
      var other: seq<string> :|
        && other != []
        && Patch.Lookup(container.members, "args") == Some(Injection.StringsValue(other))
        && ParseFlags(DEFAULTS, other) == Some(cfg);
      SameStrings(other, args);
    }
  }

  /** The texts, when clean, configure REDIRECT mode with the default user, and run the sidecar as that user. */
  lemma InjectedSettings(port: string, f: Injection.Filling, cfg: Config, uid: nat)
    requires Json.Clean(port) && Injection.FillingClean(f)
    ensures Configures(Injection.InitText(port), cfg)
            <==> cfg == Config("REDIRECT", 15006, 15001, port, 1337, 0x111, "", false)
    ensures RunsAs(Injection.SidecarText(f), uid) <==> uid == 1337
  {
    hide Json.Reads, Json.Parse, Json.Clean, Injection.FillingClean, Injection.InitText, Injection.InitContainer,
      Injection.SidecarText, Injection.Sidecar, Injection.SidecarSecurity, Patch.Lookup, ConfiguredBy;
    Injection.InitReads(port);
    Json.ReadsParses(Injection.InitText(port), Injection.InitContainer(port), true);
    InitConfigures(port, cfg);
    Injection.SidecarReads(f);
    Json.ReadsParses(Injection.SidecarText(f), Injection.Sidecar(f), true);
    SecurityMember(f);
  }

  /**
   The containers fit together. Read off the injected texts, the user that the
   sidecar runs as is the one that the init container exempts: chains of
   connections stop, and every other user's new TCP connection, except to 9090,
   goes through the sidecar.
   */
  lemma InjectedPairStops(nat0: Chains, port: string, f: Injection.Filling, cfg: Config, s: Sidecar, cs: seq<Connection>)
    requires Json.Clean(port) && Injection.FillingClean(f)
    requires Configures(Injection.InitText(port), cfg) && RunsAs(Injection.SidecarText(f), s.uid)
    requires Output in nat0 && cs != [] && IsChain(RunAll(nat0, Nat, cfg), cfg, s, cs)
    ensures |cs| <= 2
    ensures cs[0].uid != s.uid && cs[0].destination.port != 9090 ==>
              Decide(RunAll(nat0, Nat, cfg), Output, FirstPacket(cs[0])) == Redirected(15001)
  {
    hide Decide, RunAll, OutboundPolicy, Excluded, Configures, RunsAs, Json.Clean, Injection.FillingClean;
    InjectedSettings(port, f, cfg, s.uid);
    ChainsStop(nat0, cfg, s, cs);
    InstalledPolicy(nat0, cfg, FirstPacket(cs[0]));
    NothingNamed(cfg, cs[0].destination.port);
  }

  lemma NothingNamed(cfg: Config, port: nat)
    requires cfg.excludePorts == ""
    ensures !Excluded(cfg, port)
  {
    NoPortNamed();
  }
}
