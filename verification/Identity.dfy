/**
 Workload identity: SPIFFE ids as both sides print them, the bearer header, and
 the control plane's answer to a certificate request.
 */
module Identity {
  import opened Text

  // ----- SPIFFE ids ------------------------------------------------------

  datatype Claims = Claims(namespace: string, account: string, podUid: Option<string>)

  function SpiffeId(domain: string, namespace: string, account: string): string {
    "spiffe://" + domain + "/ns/" + namespace + "/sa/" + account
  }

  /** The data plane refuses an empty trust domain. */
  function GoSpiffeId(domain: string, c: Claims): (id: Option<string>)
    ensures id == None <==> domain == ""
  {
    if domain == "" then None else Some(SpiffeId(domain, c.namespace, c.account))
  }

  /** The control plane prints whatever domain it has. */
  function JavaSpiffeId(domain: string, c: Claims): string {
    SpiffeId(domain, c.namespace, c.account)
  }

  lemma SpiffeParts(domain: string, namespace: string, account: string)
    requires '/' !in domain && '/' !in namespace
    ensures Split(SpiffeId(domain, namespace, account), '/')
            == ["spiffe:", "", domain, "ns", namespace, "sa"] + Split(account, '/')
  {
    hide Split;
    var e := namespace + "/sa/" + account;
    var d := domain + "/ns/" + e;
    assert SpiffeId(domain, namespace, account) == "spiffe://" + d;
    SchemePart(d);
    MiddlePart(domain, "ns", e);
    assert d == domain + "/" + "ns" + "/" + e;
    MiddlePart(namespace, "sa", account);
    assert e == namespace + "/" + "sa" + "/" + account;
  }

  lemma SchemePart(rest: string)
    ensures Split("spiffe://" + rest, '/') == ["spiffe:", ""] + Split(rest, '/')
  {
    hide Split;
    assert "spiffe://" + rest == "spiffe:" + ['/'] + ("" + ['/'] + rest);
    SplitPart("spiffe:", "" + ['/'] + rest, '/');
    SplitPart("", rest, '/');
  }

  lemma MiddlePart(name: string, tag: string, rest: string)
    requires '/' !in name && '/' !in tag
    ensures Split(name + "/" + tag + "/" + rest, '/') == [name, tag] + Split(rest, '/')
  {
    hide Split;
    assert name + "/" + tag + "/" + rest == name + ['/'] + (tag + ['/'] + rest);
    SplitPart(name, tag + ['/'] + rest, '/');
    SplitPart(tag, rest, '/');
  }

  /** Ids of slash-free domains and namespaces determine domain, namespace and account. */
  lemma SpiffeInjective(d1: string, n1: string, a1: string, d2: string, n2: string, a2: string)
    requires '/' !in d1 && '/' !in n1 && '/' !in d2 && '/' !in n2
    requires SpiffeId(d1, n1, a1) == SpiffeId(d2, n2, a2)
    ensures d1 == d2 && n1 == n2 && a1 == a2
  {
    SpiffeParts(d1, n1, a1);
    SpiffeParts(d2, n2, a2);
    var p1 := ["spiffe:", "", d1, "ns", n1, "sa"] + Split(a1, '/');
    var p2 := ["spiffe:", "", d2, "ns", n2, "sa"] + Split(a2, '/');
    assert p1 == p2;
    assert p1[2] == d1 && p2[2] == d2 && p1[4] == n1 && p2[4] == n2;
    assert p1[6..] == Split(a1, '/') && p2[6..] == Split(a2, '/');
    JoinSplit(a1, '/');
    JoinSplit(a2, '/');
  }

  /** Within one domain, whatever it is, ids of slash-free namespaces determine namespace and account. */
  lemma SameDomainInjective(domain: string, n1: string, a1: string, n2: string, a2: string)
    requires '/' !in n1 && '/' !in n2
    requires SpiffeId(domain, n1, a1) == SpiffeId(domain, n2, a2)
    ensures n1 == n2 && a1 == a2
  {
    hide Split;
    var head := "spiffe://" + domain + "/ns/";
    var t1, t2 := n1 + "/" + "sa" + "/" + a1, n2 + "/" + "sa" + "/" + a2;
    assert SpiffeId(domain, n1, a1) == head + t1 && SpiffeId(domain, n2, a2) == head + t2;
    assert (head + t1)[|head|..] == t1 && (head + t2)[|head|..] == t2;
    MiddlePart(n1, "sa", a1);
    MiddlePart(n2, "sa", a2);
    var p1, p2 := [n1, "sa"] + Split(a1, '/'), [n2, "sa"] + Split(a2, '/');
    assert p1[0] == n1 && p2[0] == n2 && p1[2..] == Split(a1, '/') && p2[2..] == Split(a2, '/');
    JoinSplit(a1, '/');
    JoinSplit(a2, '/');
  }

  /** Without that, identities collide: whatever stands before and after, a slashed namespace and a slashed account print alike. */
  lemma SlashesCollide(domain: string, x: string, y: string, z: string)
    ensures SpiffeId(domain, x + "/sa/" + y, z) == SpiffeId(domain, x, y + "/sa/" + z)
    ensures SpiffeId(domain + "/ns/" + x, y, z) == SpiffeId(domain, x + "/ns/" + y, z)
  {
    var head := "spiffe://" + domain + "/ns/";
    assert SpiffeId(domain, x + "/sa/" + y, z) == head + x + "/sa/" + y + "/sa/" + z;
    assert SpiffeId(domain, x, y + "/sa/" + z) == head + x + "/sa/" + y + "/sa/" + z;
    assert SpiffeId(domain + "/ns/" + x, y, z) == head + x + "/ns/" + y + "/sa/" + z;
    assert SpiffeId(domain, x + "/ns/" + y, z) == head + x + "/ns/" + y + "/sa/" + z;
  }

  // ----- The account name ------------------------------------------------

  function DropTrailingEmpty(parts: seq<string>): seq<string> {
    if parts != [] && parts[|parts| - 1] == "" then DropTrailingEmpty(parts[..|parts| - 1]) else parts
  }

  /** Java's `split("/")`: trailing empty parts are dropped, unless there is no slash at all. */
  function JavaSplit(s: string): seq<string> {
    if '/' !in s then [s] else DropTrailingEmpty(Split(s, '/'))
  }

  /** The last part of the identity, or nothing. */
  function GetServiceAccountName(identity: string): Option<string> {
    var parts := JavaSplit(identity);
    if |parts| == 0 then None else Some(parts[|parts| - 1])
  }

  /** The account comes back exactly when it is not empty and has no slash, whatever the domain and the namespace are. */
  lemma AccountRecovered(domain: string, namespace: string, account: string)
    ensures GetServiceAccountName(SpiffeId(domain, namespace, account)) == Some(account)
            <==> account != "" && '/' !in account
  {
    var id := SpiffeId(domain, namespace, account);
    var head := "spiffe://" + domain + "/ns/" + namespace + "/sa";
    assert id == head + ['/'] + account;
    SplitAt(head, account, '/');
    assert id[|head|] == '/';
    var parts := Split(id, '/');
    if '/' in account {
      PartsHaveNoSeparator(id, '/');
      LastOfRest(parts);
    } else {
      SplitPart(account, "", '/');
      assert parts == Split(head, '/') + [account];
      if account == "" {
        LastIsNotEmpty(parts);
      }
    }
  }

  /** There is no account name exactly for identities that are nothing but slashes. */
  lemma NoAccountExactly(identity: string)
    ensures GetServiceAccountName(identity) == None
            <==> identity != "" && forall i :: 0 <= i < |identity| ==> identity[i] == '/'
  {
    if '/' in identity {
      hide Split;
      var kept := DropTrailingEmpty(Split(identity, '/'));
      DropsAllExactly(Split(identity, '/'));
      EmptyPartsExactly(identity);
      assert kept == [] <==> |kept| == 0;
      assert JavaSplit(identity) == kept;
      assert identity != "";
    } else if identity != "" {
      assert identity[0] in identity;
    }
  }

  lemma {:induction false} DropsAllExactly(parts: seq<string>)
    ensures DropTrailingEmpty(parts) == [] <==> forall i :: 0 <= i < |parts| ==> parts[i] == ""
    decreases |parts|
  {
    if parts != [] && parts[|parts| - 1] == "" {
      DropsAllExactly(parts[..|parts| - 1]);
    }
  }

  lemma {:induction false} EmptyPartsExactly(s: string)
    ensures (forall i :: 0 <= i < |Split(s, '/')| ==> Split(s, '/')[i] == "")
            <==> forall i :: 0 <= i < |s| ==> s[i] == '/'
  {
    if s != "" {
      EmptyPartsExactly(s[1..]);
      var r, parts := Split(s[1..], '/'), Split(s, '/');
      assert s == [s[0]] + s[1..];
      if s[0] == '/' {
        assert parts == [""] + r;
        assert forall i :: 0 <= i < |r| ==> r[i] == parts[i + 1];
      } else {
        assert parts[0] != "";
      }
    }
  }

  lemma {:induction false} LastOfRest(parts: seq<string>)
    requires forall i :: 0 <= i < |parts| ==> '/' !in parts[i]
    ensures var r := DropTrailingEmpty(parts); r != [] ==> '/' !in r[|r| - 1]
    decreases |parts|
  {
    if parts != [] && parts[|parts| - 1] == "" {
      LastOfRest(parts[..|parts| - 1]);
    }
  }

  lemma {:induction false} LastIsNotEmpty(parts: seq<string>)
    ensures var r := DropTrailingEmpty(parts); r != [] ==> r[|r| - 1] != ""
    decreases |parts|
  {
    if parts != [] && parts[|parts| - 1] == "" {
      LastIsNotEmpty(parts[..|parts| - 1]);
    }
  }

  // ----- The bearer header -----------------------------------------------

  function AuthHeader(token: string): string {
    "Bearer " + TrimSpace(token)
  }

  /** What the interceptor takes from the header: nothing if it is missing or blank. */
  function StripBearer(header: Option<string>): Option<string> {
    match header
    case None => None
    case Some(h) =>
      if IsBlank(h) then None
      else if |h| >= 7 && h[..7] == "Bearer " then Some(h[7..])
      else Some(h)
  }

  /**
   What is sent and what arrives, for a token with whitespace around it: the token itself behind the prefix, and then
   the token itself, also if it starts with "Bearer ".
   */
  lemma HeaderCarries(left: string, core: string, right: string)
    requires IsBlank(left) && IsTrim(core) && IsBlank(right)
    ensures AuthHeader(left + core + right) == "Bearer " + core
    ensures StripBearer(Some(AuthHeader(left + core + right))) == Some(core)
  {
    hide TrimSpace;
    TrimSpaceKeeps(left, core, right);
    BearerRoundTrip(left + core + right);
  }

  /** The server refuses exactly the missing and the blank header, and takes one without the prefix as it is. */
  lemma HeaderWithoutPrefix(header: Option<string>)
    ensures StripBearer(header) == None <==> header == None || IsBlank(header.value)
    ensures header.Some? && !IsBlank(header.value) && !("Bearer " <= header.value) ==> StripBearer(header) == header
    ensures forall t :: header == Some("Bearer " + t) ==> StripBearer(header) == Some(t)
  {
    hide IsSpace;
    if header.Some? {
      var h := header.value;
      assert "Bearer " <= h <==> |h| >= 7 && h[..7] == "Bearer ";
      forall t | header == Some("Bearer " + t)
        ensures StripBearer(header) == Some(t)
      {
        assert h[..7] == "Bearer " && h[7..] == t;
        NotBlank(h);
      }
    }
  }

  lemma NotBlank(h: string)
    requires h != "" && h[0] == 'B'
    ensures !IsBlank(h)
  {
    assert !IsSpace(h[0]);
  }

  /** Every token reaches the server as its trimmed self, also one that itself starts with "Bearer ". */
  lemma BearerRoundTrip(token: string)
    ensures StripBearer(Some(AuthHeader(token))) == Some(TrimSpace(token))
  {
    var h := AuthHeader(token);
    assert !IsSpace(h[0]);
    assert h[..7] == "Bearer " && h[7..] == TrimSpace(token);
  }

  // ----- The certificate request -----------------------------------------

  /** How the control plane answers. `Unknown` is what a caller sees when the service throws. */
  datatype Reply = Unauthenticated | PermissionDenied | Internal | Unknown | Issued(commonName: string, podUid: string)

  /**
   The answer to a request for `requested`. `tokenIsValid` is the outcome of the
   token review, `claims` what decoding the token gives (nothing when it fails),
   `vaultIssues` whether the certificate authority issues.
   */
  function Answer(domain: string, decode: string -> Option<Claims>, header: Option<string>, requested: string,
                  tokenIsValid: bool, vaultIssues: bool): Reply
  {
    match StripBearer(header)
    case None => Unauthenticated
    case Some(token) =>
      if !tokenIsValid then Unauthenticated
      else
        match decode(token)
        case None => Unauthenticated
        case Some(claims) =>
          if JavaSpiffeId(domain, claims) != requested then PermissionDenied
          else
            match GetServiceAccountName(requested)
            case None => Unknown
            case Some(name) => if vaultIssues then Issued(name, OrEmpty(claims.podUid)) else Internal
  }

  /** What the service pushes to its caller. */
  datatype Event = Error(reply: Reply) | Value(reply: Reply) | Completed

  class ResponseObserver {
    var events: seq<Event>

    constructor ()
      ensures events == []
    {
      events := [];
    }

    method OnError(reply: Reply)
      modifies this
      ensures events == old(events) + [Error(reply)]
    {
      events := events + [Error(reply)];
    }

    method OnNext(reply: Reply)
      modifies this
      ensures events == old(events) + [Value(reply)]
    {
      events := events + [Value(reply)];
    }

    method OnCompleted()
      modifies this
      ensures events == old(events) + [Completed]
    {
      events := events + [Completed];
    }
  }

  /**
   The service method behind the interceptor. `identity` and `podUid` come from
   the call's context. It ends the call exactly once: with one error, or with one
   value and completion; or it throws, where an identity has no last part.
   */
  method GetCertificate(observer: ResponseObserver, identity: Option<string>, podUid: Option<string>,
                        requested: string, vaultIssues: bool)
    returns (threw: bool)
    modifies observer
    ensures threw <==> identity == Some(requested) && GetServiceAccountName(requested) == None
    ensures threw ==> observer.events == old(observer.events)
    ensures identity != Some(requested) ==> observer.events == old(observer.events) + [Error(PermissionDenied)]
    ensures identity == Some(requested) && !threw ==>
              observer.events
              == old(observer.events)
                 + if vaultIssues
                   then [Value(Issued(GetServiceAccountName(requested).value, OrEmpty(podUid))), Completed]
                   else [Error(Internal)]
  {
    if identity == None || identity.value != requested {
      observer.OnError(PermissionDenied);
      return false;
    }
    // A null common name makes the request map's construction throw, outside every try block.
    var name := GetServiceAccountName(requested);
    if name == None {
      return true;
    }
    if !vaultIssues {
      observer.OnError(Internal);
      return false;
    }
    observer.OnNext(Issued(name.value, OrEmpty(podUid)));
    observer.OnCompleted();
    return false;
  }

  /**
   The interceptor, and the service method behind it: together they end every
   call as `Answer` says, and exactly once.
   */
  method InterceptCall(observer: ResponseObserver, domain: string, decode: string -> Option<Claims>,
                       header: Option<string>, requested: string, tokenIsValid: bool, vaultIssues: bool)
    returns (threw: bool)
    modifies observer
    ensures var r := Answer(domain, decode, header, requested, tokenIsValid, vaultIssues);
            (threw <==> r == Unknown)
            && observer.events
               == old(observer.events)
                  + if threw then [] else if r.Issued? then [Value(r), Completed] else [Error(r)]
    ensures header == None || IsBlank(header.value) || !tokenIsValid || decode(StripBearer(header).value) == None ==>
              observer.events == old(observer.events) + [Error(Unauthenticated)]
    ensures header.Some? && !IsBlank(header.value) && tokenIsValid ==>
              match decode(StripBearer(header).value)
              case None => true
              case Some(c) =>
                if SpiffeId(domain, c.namespace, c.account) != requested
                then observer.events == old(observer.events) + [Error(PermissionDenied)]
                else GetServiceAccountName(requested).Some? ==>
                       observer.events
                       == old(observer.events)
                          + if vaultIssues
                            then [Value(Issued(GetServiceAccountName(requested).value, OrEmpty(c.podUid))), Completed]
                            else [Error(Internal)]
  {
    hide GetServiceAccountName, SpiffeId;
    if header == None || IsBlank(header.value) {
      observer.OnError(Unauthenticated);
      return false;
    }
    var token := header.value;
    if |token| >= 7 && token[..7] == "Bearer " {
      token := token[7..];
    }
    if !tokenIsValid {
      observer.OnError(Unauthenticated);
      return false;
    }
    var claims := decode(token);
    if claims == None {
      observer.OnError(Unauthenticated);
      return false;
    }
    var identity := JavaSpiffeId(domain, claims.value);
    threw := GetCertificate(observer, Some(identity), claims.value.podUid, requested, vaultIssues);
  }

  /**
   A certificate is issued only to a caller whose token's identity is the one asked for: with slash-free namespaces, no
   other workload's account can be obtained.
   */
  lemma NoIssueForOthers(domain: string, decode: string -> Option<Claims>, header: Option<string>,
                         namespace: string, account: string, tokenIsValid: bool, vaultIssues: bool)
    requires '/' !in namespace
    requires forall t :: decode(t).Some? ==> '/' !in decode(t).value.namespace
    requires Answer(domain, decode, header, SpiffeId(domain, namespace, account), tokenIsValid, vaultIssues).Issued?
    ensures tokenIsValid && StripBearer(header).Some?
    ensures var claims := decode(StripBearer(header).value);
            claims.Some? && claims.value.namespace == namespace && claims.value.account == account
  {
    var claims := decode(StripBearer(header).value).value;
    SameDomainInjective(domain, claims.namespace, claims.account, namespace, account);
  }

  /** A workload that asks for its own identity with its own token is issued a certificate with its account and pod UID. */
  lemma OwnIdentityIsIssued(domain: string, decode: string -> Option<Claims>, token: string, c: Claims)
    requires domain != "" && c.account != "" && '/' !in c.account
    requires decode(TrimSpace(token)) == Some(c)
    ensures GoSpiffeId(domain, c).Some?
    ensures Answer(domain, decode, Some(AuthHeader(token)), GoSpiffeId(domain, c).value, true, true)
            == Issued(c.account, OrEmpty(c.podUid))
  {
    hide GetServiceAccountName, SpiffeId, TrimSpace;
    BearerRoundTrip(token);
    AccountRecovered(domain, c.namespace, c.account);
  }
}
