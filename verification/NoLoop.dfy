/**
 The redirection rules together with the proxy behind the outbound port: which
 connections a connection gives rise to, and why that stops.
 */
module NoLoop {
  import opened Text
  import opened Iptables
  import opened InitContainer
  import opened Policy
  import opened Rerun

  datatype Address = Address(host: string, port: nat)

  /** A connection that a local process of user `uid` opens. */
  datatype Connection = Connection(uid: nat, destination: Address)

  /** The sidecar: the user it runs as, its POD_IP, and the host its target URL names (absent when the URL does not parse). */
  datatype Sidecar = Sidecar(uid: nat, podIP: string, target: Option<Address>)

  function FirstPacket(c: Connection): Packet {
    Packet(true, c.destination.port, Some(c.uid), false)
  }

  /** What the proxy dials for a connection to `original` that reached its outbound port. */
  function Dials(s: Sidecar, original: Address): Option<Address> {
    if s.podIP != "" && original.host == s.podIP then s.target else Some(original)
  }

  /** The connection that connection `c` gives rise to, if the proxy's dial is attempted. */
  function Next(natChains: Chains, cfg: Config, s: Sidecar, c: Connection): Option<Connection>
    requires Output in natChains
  {
    var decision := Decide(natChains, Output, FirstPacket(c));
    if decision.Redirected? && decision.port == cfg.outboundPort then
      match Dials(s, c.destination)
      case Some(address) => Some(Connection(s.uid, address))
      case None => None
    else None
  }

  /** Each connection of the list gives rise to the one after it. */
  predicate IsChain(natChains: Chains, cfg: Config, s: Sidecar, cs: seq<Connection>)
    requires Output in natChains
  {
    forall i :: 0 <= i < |cs| - 1 ==> Next(natChains, cfg, s, cs[i]) == Some(cs[i + 1])
  }

  ghost function OutboundPolicy(cfg: Config, p: Packet): Outcome {
    if cfg.mode == "TPROXY" then TProxyOutboundPolicy(cfg, p) else RedirectOutboundPolicy(cfg, p)
  }

  /** The packet is exempt for a reason other than who sent it. */
  ghost predicate OtherwiseExempt(cfg: Config, p: Packet) {
    p.established || p.port == 9090 || Excluded(cfg, p.port)
    || (cfg.mode == "TPROXY" && (p.port == 443 || NamedPort(cfg.servicePort) == Some(p.port)))
  }

  lemma InstalledPolicy(nat0: Chains, cfg: Config, p: Packet)
    requires Output in nat0
    ensures Decide(RunAll(nat0, Nat, cfg), Output, p) == OutboundPolicy(cfg, p)
    ensures OutboundPolicy(cfg, p)
            == if p.tcp && 1 <= cfg.outboundPort <= MAX_PORT && !FromProxy(cfg, p) && !OtherwiseExempt(cfg, p)
               then Redirected(cfg.outboundPort) else Accepted
  {
    hide Run, Decide, NamedPort, Excluded, FromProxy, TProxyCommands, RedirectCommands;
    if cfg.mode == "TPROXY" {
      TProxyOutboundCorrect(nat0, cfg, p);
    } else {
      RedirectOutboundCorrect(nat0, cfg, p);
    }
  }

  /**
   Whose dial follows a redirected connection, and to where: to the pod's own address it is one to the target, or none
   without a target; to anywhere else it is one to the original destination. Nothing follows a connection that passes.
   */
  lemma FollowsExactly(nat0: Chains, cfg: Config, s: Sidecar, c: Connection)
    requires Output in nat0
    ensures var next := Next(RunAll(nat0, Nat, cfg), cfg, s, c);
            var redirected := 1 <= cfg.outboundPort <= MAX_PORT && !(c.uid == cfg.proxyUid && c.uid <= MAX_UID)
                              && !OtherwiseExempt(cfg, Packet(true, c.destination.port, Some(c.uid), false));
            && (!redirected ==> next == None)
            && (redirected && s.podIP != "" && c.destination.host == s.podIP ==>
                  (s.target == None ==> next == None)
                  && forall a :: s.target == Some(a) <==> next == Some(Connection(s.uid, a)))
            && (redirected && !(s.podIP != "" && c.destination.host == s.podIP) ==>
                  next == Some(Connection(s.uid, c.destination)))
  {
    hide Decide, RunAll, OutboundPolicy, OtherwiseExempt;
    InstalledPolicy(nat0, cfg, FirstPacket(c));
  }

  /**
   With the sidecar running as the exempted user, no chain of connections goes on past the proxy's own dial, and only
   its first connection goes through the outbound port.
   */
  lemma ChainsStop(nat0: Chains, cfg: Config, s: Sidecar, cs: seq<Connection>)
    requires Output in nat0 && s.uid == cfg.proxyUid && s.uid <= MAX_UID
    requires IsChain(RunAll(nat0, Nat, cfg), cfg, s, cs)
    ensures |cs| <= 2 && (|cs| == 2 ==> cs[0].uid != s.uid && cs[1].uid == s.uid)
    ensures forall i :: 1 <= i < |cs| ==> Decide(RunAll(nat0, Nat, cfg), Output, FirstPacket(cs[i])) == Accepted
  {
    hide Decide, RunAll, OutboundPolicy, OtherwiseExempt;
    if |cs| > 2 {
      assert Next(RunAll(nat0, Nat, cfg), cfg, s, cs[1]) == Some(cs[1 + 1]);
    }
    forall i | 1 <= i < |cs|
      ensures cs[i].uid == s.uid
      ensures Decide(RunAll(nat0, Nat, cfg), Output, FirstPacket(cs[i])) == Accepted
    {
      assert Next(RunAll(nat0, Nat, cfg), cfg, s, cs[i - 1]) == Some(cs[i - 1 + 1]);
      InstalledPolicy(nat0, cfg, FirstPacket(cs[i]));
    }
    if |cs| > 1 {
      InstalledPolicy(nat0, cfg, FirstPacket(cs[0]));
      assert Next(RunAll(nat0, Nat, cfg), cfg, s, cs[0]) == Some(cs[0 + 1]);
    }
  }

  /**
   What the exemption is worth: a dial of the sidecar to a destination outside the pod is sent back to the sidecar
   exactly when the sidecar does not run as the exempted user and nothing else exempts the destination.
   */
  lemma LoopsExactly(nat0: Chains, cfg: Config, s: Sidecar, c: Connection)
    requires Output in nat0 && c.uid == s.uid && (s.podIP == "" || c.destination.host != s.podIP)
    ensures Next(RunAll(nat0, Nat, cfg), cfg, s, c) == Some(c)
            <==> !(s.uid == cfg.proxyUid && s.uid <= MAX_UID)
                 && 1 <= cfg.outboundPort <= MAX_PORT && !OtherwiseExempt(cfg, FirstPacket(c))
  {
    hide Decide, RunAll, OutboundPolicy, OtherwiseExempt;
    InstalledPolicy(nat0, cfg, FirstPacket(c));
  }
}
