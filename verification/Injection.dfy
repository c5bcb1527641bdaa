/**
 The text of the sidecar injection webhook's patch, and what it reads back as.
 */
module Injection {
  import opened Text
  import opened Json
  import opened Patch

  // ----- Texts that recur ------------------------------------------------

  function StringMember(before: string, name: string, s: string): string {
    MemberText(before, name, Quote(s))
  }

  function EnvText(name: string, s: string): string {
    ObjectText([StringMember("", "name", name), StringMember(" ", "value", s)])
  }

  function EnvValue(name: string, s: string): Value {
    Obj([Member("name", Str(name)), Member("value", Str(s))])
  }

  /** An environment variable taken from a field of the pod. */
  function FieldEnvText(name: string, path: string): string {
    ObjectText([StringMember("", "name", name),
                MemberText(" ", "valueFrom", ObjectText([
                  MemberText("", "fieldRef", ObjectText([StringMember("", "fieldPath", path)]))]))])
  }

  function FieldEnvValue(name: string, path: string): Value {
    Obj([Member("name", Str(name)),
         Member("valueFrom", Obj([Member("fieldRef", Obj([Member("fieldPath", Str(path))]))]))])
  }

  function PortText(port: nat, name: string): string {
    ObjectText([MemberText("", "containerPort", Digits(port)), StringMember(" ", "name", name)])
  }

  function PortValue(port: nat, name: string): Value {
    Obj([Member("containerPort", Number(port)), Member("name", Str(name))])
  }

  datatype EnvVar = Plain(name: string, text: string) | FromField(name: string, text: string)

  function EnvVarText(e: EnvVar): string {
    match e
    case Plain(name, text) => EnvText(name, text)
    case FromField(name, path) => FieldEnvText(name, path)
  }

  function EnvVarValue(e: EnvVar): Value {
    match e
    case Plain(name, text) => EnvValue(name, text)
    case FromField(name, path) => FieldEnvValue(name, path)
  }

  /** An array whose first element follows `first`, and each later one `others`. */
  function SpacedArray(first: string, others: string, parts: seq<string>): string
    requires parts != []
  {
    ArrayText(seq(|parts|, i requires 0 <= i < |parts| =>
      (if i == 0 then first else others) + parts[i]))
  }

  function StringsText(strings: seq<string>): string
    requires strings != []
  {
    SpacedArray("", " ", seq(|strings|, i requires 0 <= i < |strings| => Quote(strings[i])))
  }

  function StringsValue(strings: seq<string>): Value {
    Arr(seq(|strings|, i requires 0 <= i < |strings| => Str(strings[i])))
  }

  predicate AllClean(strings: seq<string>) {
    forall i :: 0 <= i < |strings| ==> Clean(strings[i])
  }

  function EnvListText(env: seq<EnvVar>): string
    requires env != []
  {
    SpacedArray("  ", "   ", seq(|env|, i requires 0 <= i < |env| => EnvVarText(env[i])))
  }

  function EnvListValue(env: seq<EnvVar>): Value {
    Arr(seq(|env|, i requires 0 <= i < |env| => EnvVarValue(env[i])))
  }

  predicate EnvClean(env: seq<EnvVar>) {
    forall i :: 0 <= i < |env| ==> Clean(env[i].name) && Clean(env[i].text)
  }

  function CapabilitiesText(before: string, capabilities: seq<string>): string
    requires capabilities != []
  {
    MemberText(before, "capabilities",
      ObjectText([MemberText("", "add", StringsText(capabilities))]))
  }

  function CapabilitiesValue(capabilities: seq<string>): Member {
    Member("capabilities", Obj([Member("add", StringsValue(capabilities))]))
  }

  lemma StringMemberReads(before: string, name: string, s: string)
    requires IsWsText(before) && Clean(name)
    ensures ReadsMember(StringMember(before, name, s), Member(name, Str(s)), Clean(s))
  {
    hide Reads, ReadsMember, Starts, Clean, Quote;
    QuoteReads(s);
    MemberReads(before, name, Quote(s), Str(s), Clean(s));
  }

  lemma EnvReads(name: string, s: string)
    ensures Reads(EnvText(name, s), EnvValue(name, s), Clean(name) && Clean(s))
    ensures Starts(EnvText(name, s))
  {
    assert Clean("name") && Clean("value");
    hide Reads, ReadsMember, Starts, Clean, ObjectText, StringMember;
    StringMemberReads("", "name", name);
    StringMemberReads(" ", "value", s);
    var oks := [Clean(name), Clean(s)];
    ObjectReads([StringMember("", "name", name), StringMember(" ", "value", s)],
                [Member("name", Str(name)), Member("value", Str(s))], oks);
    assert All(oks) <==> oks[0] && oks[1];
  }

  lemma FieldEnvReads(name: string, path: string)
    ensures Reads(FieldEnvText(name, path), FieldEnvValue(name, path), Clean(name) && Clean(path))
    ensures Starts(FieldEnvText(name, path))
  {
    assert Clean("name") && Clean("valueFrom");
    assert Clean("fieldRef") && Clean("fieldPath");
    hide Reads, ReadsMember, Starts, Clean, ObjectText, StringMember, MemberText;
    StringMemberReads("", "fieldPath", path);
    var inner := [StringMember("", "fieldPath", path)];
    var innerValue := [Member("fieldPath", Str(path))];
    ObjectReads(inner, innerValue, [Clean(path)]);
    MemberReads("", "fieldRef", ObjectText(inner), Obj(innerValue), Clean(path));
    var middle := [MemberText("", "fieldRef", ObjectText(inner))];
    var middleValue := [Member("fieldRef", Obj(innerValue))];
    ObjectReads(middle, middleValue, [Clean(path)]);
    MemberReads(" ", "valueFrom", ObjectText(middle), Obj(middleValue), Clean(path));
    StringMemberReads("", "name", name);
    var oks := [Clean(name), Clean(path)];
    ObjectReads([StringMember("", "name", name), MemberText(" ", "valueFrom", ObjectText(middle))],
                [Member("name", Str(name)), Member("valueFrom", Obj(middleValue))], oks);
    assert All(oks) <==> oks[0] && oks[1];
  }

  lemma PortReads(port: nat, name: string)
    ensures Reads(PortText(port, name), PortValue(port, name), Clean(name))
    ensures Starts(PortText(port, name))
  {
    assert Clean("containerPort") && Clean("name");
    hide Reads, ReadsMember, Starts, Clean, ObjectText, StringMember, MemberText, Digits;
    NumberReads(port);
    MemberReads("", "containerPort", Digits(port), Number(port), true);
    StringMemberReads(" ", "name", name);
    var oks := [true, Clean(name)];
    ObjectReads([MemberText("", "containerPort", Digits(port)), StringMember(" ", "name", name)],
                [Member("containerPort", Number(port)), Member("name", Str(name))], oks);
    assert All(oks) <==> oks[0] && oks[1];
  }

  lemma SpacedArrayReads(first: string, others: string,
                         parts: seq<string>, vs: seq<Value>, oks: seq<bool>)
    requires IsWsText(first) && IsWsText(others) && |parts| == |vs| == |oks| > 0
    requires forall i :: 0 <= i < |parts| ==> Reads(parts[i], vs[i], oks[i]) && Starts(parts[i])
    ensures Reads(SpacedArray(first, others, parts), Arr(vs), All(oks))
    ensures Starts(SpacedArray(first, others, parts))
  {
    hide Reads, Starts, All, ArrayText, IsWsText;
    var spaced := seq(|parts|, i requires 0 <= i < |parts| =>
      (if i == 0 then first else others) + parts[i]);
    forall i | 0 <= i < |parts|
      ensures Reads(spaced[i], vs[i], oks[i])
    {
      PaddedReads(if i == 0 then first else others, parts[i], vs[i], oks[i]);
    }
    ArrayReads(spaced, vs, oks);
  }

  lemma StringsRead(strings: seq<string>)
    requires strings != []
    ensures Reads(StringsText(strings), StringsValue(strings), AllClean(strings))
    ensures Starts(StringsText(strings))
  {
    hide Reads, Starts, SpacedArray, Clean, Quote;
    var n := |strings|;
    var parts := seq(n, i requires 0 <= i < n => Quote(strings[i]));
    var vs := seq(n, i requires 0 <= i < n => Str(strings[i]));
    var oks := seq(n, i requires 0 <= i < n => Clean(strings[i]));
    forall i | 0 <= i < n
      ensures Reads(parts[i], vs[i], oks[i]) && Starts(parts[i])
    {
      QuoteReads(strings[i]);
    }
    SpacedArrayReads("", " ", parts, vs, oks);
    assert All(oks) <==> AllClean(strings) by {
      assert forall i :: 0 <= i < n ==> oks[i] == Clean(strings[i]);
    }
  }

  lemma EnvListReads(env: seq<EnvVar>)
    requires env != []
    ensures Reads(EnvListText(env), EnvListValue(env), EnvClean(env))
    ensures Starts(EnvListText(env))
  {
    hide Reads, Starts, SpacedArray, Clean, EnvText, EnvValue, FieldEnvText, FieldEnvValue;
    var n := |env|;
    var parts := seq(n, i requires 0 <= i < n => EnvVarText(env[i]));
    var vs := seq(n, i requires 0 <= i < n => EnvVarValue(env[i]));
    var oks := seq(n, i requires 0 <= i < n => Clean(env[i].name) && Clean(env[i].text));
    forall i | 0 <= i < n
      ensures Reads(parts[i], vs[i], oks[i]) && Starts(parts[i])
    {
      if env[i].Plain? {
        EnvReads(env[i].name, env[i].text);
      } else {
        FieldEnvReads(env[i].name, env[i].text);
      }
    }
    SpacedArrayReads("  ", "   ", parts, vs, oks);
    assert All(oks) <==> EnvClean(env) by {
      assert forall i :: 0 <= i < n ==> oks[i] == (Clean(env[i].name) && Clean(env[i].text));
    }
  }

  lemma CapabilitiesRead(before: string, capabilities: seq<string>)
    requires IsWsText(before) && capabilities != []
    ensures ReadsMember(CapabilitiesText(before, capabilities), CapabilitiesValue(capabilities),
                        AllClean(capabilities))
  {
    assert Clean("capabilities") && Clean("add");
    hide Reads, ReadsMember, Starts, Clean, ObjectText, MemberText, StringsText, StringsValue, AllClean;
    StringsRead(capabilities);
    var ok := AllClean(capabilities);
    MemberReads("", "add", StringsText(capabilities), StringsValue(capabilities), ok);
    var inner := [MemberText("", "add", StringsText(capabilities))];
    var innerValue := [Member("add", StringsValue(capabilities))];
    ObjectReads(inner, innerValue, [ok]);
    MemberReads(before, "capabilities", ObjectText(inner), Obj(innerValue), ok);
  }

  // ----- The three texts (SidecarInjectionWebhook.mutate) ----------------

  /** The strings the patch is filled in with. */
  datatype Filling = Filling(port: string, service: string, domain: string,
                             controlPlaneUrl: string, targetGrpc: string, targetUrl: string)

  function Image(name: string): string { "localhost:30500/" + name + ":redirectfix" }

  function InitArgs(port: string): (args: seq<string>)
    ensures args != []
  {
    ["--mode", "REDIRECT", "--inboundPort", "15006", "--outboundPort", "15001", "--servicePort", port]
  }

  function InitSecurityText(): string {
    ObjectText([CapabilitiesText("  ", ["NET_ADMIN", "NET_RAW"])])
  }

  function InitSecurity(): Value {
    Obj([CapabilitiesValue(["NET_ADMIN", "NET_RAW"])])
  }

  function InitText(port: string): string {
    ObjectText([
      StringMember("", "name", "sentinel-init"),
      StringMember(" ", "image", Image("sentinel-init")),
      StringMember(" ", "imagePullPolicy", "Always"),
      MemberText(" ", "securityContext", InitSecurityText()),
      MemberText(" ", "args", StringsText(InitArgs(port)))])
  }

  /** The init container meant by the text. */
  function InitContainer(port: string): Value {
    Obj([
      Member("name", Str("sentinel-init")),
      Member("image", Str(Image("sentinel-init"))),
      Member("imagePullPolicy", Str("Always")),
      Member("securityContext", InitSecurity()),
      Member("args", StringsValue(InitArgs(port)))])
  }

  function SidecarEnv(f: Filling): (env: seq<EnvVar>)
    ensures env != []
  {
    [Plain("SERVICE_NAME", f.service),
     Plain("SPIFFE_TRUST_DOMAIN", f.domain),
     Plain("CONTROL_PLANE_URL", f.controlPlaneUrl + "/api/v1/identity/issue"),
     Plain("TARGET_GRPC", f.targetGrpc),
     Plain("TARGET_URL", f.targetUrl),
     Plain("PROXY_MODE", "redirect"),
     FromField("POD_NAME", "metadata.name"),
     FromField("POD_UID", "metadata.uid"),
     FromField("KUBERNETES_NAMESPACE", "metadata.namespace"),
     FromField("SERVICE_ACCOUNT", "spec.serviceAccountName"),
     Plain("CA_CERT_PATH", "/etc/certs/root_ca.crt"),
     FromField("POD_IP", "status.podIP")]
  }

  function PortsText(): string {
    SpacedArray("  ", "  ", [PortText(15006, "http-sentinel"), PortText(15001, "https-sentinel")])
  }

  function PortsValue(): Value {
    Arr([PortValue(15006, "http-sentinel"), PortValue(15001, "https-sentinel")])
  }

  function SidecarSecurityText(): string {
    ObjectText([MemberText("  ", "runAsUser", Digits(1337)), CapabilitiesText("   ", ["NET_ADMIN"])])
  }

  function SidecarSecurity(): Value {
    Obj([Member("runAsUser", Number(1337)), CapabilitiesValue(["NET_ADMIN"])])
  }

  function MountsText(): string {
    SpacedArray("  ", "  ", [ObjectText([
      StringMember("", "name", "sentinel-certs"),
      StringMember(" ", "mountPath", "/etc/certs"),
      MemberText(" ", "readOnly", "true")])])
  }

  function Mounts(): Value {
    Arr([Obj([
      Member("name", Str("sentinel-certs")),
      Member("mountPath", Str("/etc/certs")),
      Member("readOnly", Bool(true))])])
  }

  function SidecarText(f: Filling): string {
    ObjectText([
      StringMember("", "name", "sentinel-proxy"),
      StringMember(" ", "image", Image("sentinel-data-plane")),
      StringMember(" ", "imagePullPolicy", "Always"),
      MemberText(" ", "ports", PortsText()),
      MemberText(" ", "env", EnvListText(SidecarEnv(f))),
      MemberText(" ", "securityContext", SidecarSecurityText()),
      MemberText(" ", "volumeMounts", MountsText())])
  }

  function Sidecar(f: Filling): Value {
    Obj([
      Member("name", Str("sentinel-proxy")),
      Member("image", Str(Image("sentinel-data-plane"))),
      Member("imagePullPolicy", Str("Always")),
      Member("ports", PortsValue()),
      Member("env", EnvListValue(SidecarEnv(f))),
      Member("securityContext", SidecarSecurity()),
      Member("volumeMounts", Mounts())])
  }

  function VolumeText(): string {
    ObjectText([
      StringMember("", "name", "sentinel-certs"),
      MemberText(" ", "secret", ObjectText([StringMember("", "secretName", "sentinel-root-ca")]))])
  }

  function Volume(): Value {
    Obj([
      Member("name", Str("sentinel-certs")),
      Member("secret", Obj([Member("secretName", Str("sentinel-root-ca"))]))])
  }

  lemma CleanConcat(a: string, b: string)
    ensures Clean(a + b) <==> Clean(a) && Clean(b)
  {
    if Clean(a + b) {
      assert forall i :: 0 <= i < |a| ==> a[i] == (a + b)[i];
      assert forall i :: 0 <= i < |b| ==> b[i] == (a + b)[|a| + i];
    }
  }

  // ----- The words the texts are made of are clean ------------------------

  lemma ContainerKeysClean()
    ensures Clean("name") && Clean("image") && Clean("imagePullPolicy")
  {
  }

  lemma SectionKeysClean()
    ensures Clean("securityContext") && Clean("args") && Clean("ports") && Clean("env")
  {
  }

  lemma MountKeysClean()
    ensures Clean("volumeMounts") && Clean("mountPath") && Clean("readOnly")
  {
  }

  lemma SecretKeysClean()
    ensures Clean("secret") && Clean("secretName")
  {
  }

  lemma UserKeyClean()
    ensures Clean("runAsUser")
  {
  }

  lemma OperationKeysClean()
    ensures Clean("op") && Clean("path") && Clean("value")
  {
  }

  lemma ContainerNamesClean()
    ensures Clean("sentinel-init") && Clean("sentinel-proxy") && Clean("Always")
  {
  }

  lemma ImageNameClean()
    ensures Clean("sentinel-data-plane")
  {
  }

  lemma ImagePartsClean()
    ensures Clean("localhost:30500/") && Clean(":redirectfix")
  {
  }

  lemma ImagesClean()
    ensures Clean(Image("sentinel-init")) && Clean(Image("sentinel-data-plane"))
  {
    hide Clean;
    ContainerNamesClean();
    ImageNameClean();
    ImagePartsClean();
    CleanConcat("localhost:30500/", "sentinel-init");
    CleanConcat("localhost:30500/" + "sentinel-init", ":redirectfix");
    CleanConcat("localhost:30500/", "sentinel-data-plane");
    CleanConcat("localhost:30500/" + "sentinel-data-plane", ":redirectfix");
  }

  lemma PortNamesClean()
    ensures Clean("http-sentinel") && Clean("https-sentinel")
  {
  }

  lemma MountNamesClean()
    ensures Clean("sentinel-certs") && Clean("/etc/certs")
  {
  }

  lemma SecretNameClean()
    ensures Clean("sentinel-root-ca")
  {
  }

  lemma ServiceVariablesClean()
    ensures Clean("SERVICE_NAME") && Clean("SERVICE_ACCOUNT")
  {
  }

  lemma TrustVariablesClean()
    ensures Clean("SPIFFE_TRUST_DOMAIN") && Clean("CA_CERT_PATH")
  {
  }

  lemma ControlPlaneVariablesClean()
    ensures Clean("CONTROL_PLANE_URL") && Clean("TARGET_GRPC")
  {
  }

  lemma ProxyVariablesClean()
    ensures Clean("TARGET_URL") && Clean("PROXY_MODE")
  {
  }

  lemma PodVariablesClean()
    ensures Clean("POD_NAME") && Clean("POD_UID") && Clean("POD_IP")
  {
  }

  lemma NamespaceVariableClean()
    ensures Clean("KUBERNETES_NAMESPACE")
  {
  }

  lemma EndpointClean()
    ensures Clean("/api/v1/identity/issue")
  {
  }

  lemma ProxyModeClean()
    ensures Clean("redirect")
  {
  }

  lemma PodFieldsClean()
    ensures Clean("metadata.name") && Clean("metadata.uid")
  {
  }

  lemma PlacementFieldsClean()
    ensures Clean("metadata.namespace") && Clean("status.podIP")
  {
  }

  lemma AccountFieldClean()
    ensures Clean("spec.serviceAccountName")
  {
  }

  lemma CertificatePathClean()
    ensures Clean("/etc/certs/root_ca.crt")
  {
  }

  // ----- The containers' texts read back -----------------------------------

  lemma ArgsClean(port: string)
    ensures AllClean(InitArgs(port)) <==> Clean(port)
  {
    assert Clean("--mode") && Clean("REDIRECT") && Clean("--inboundPort") && Clean("15006");
    assert Clean("--outboundPort") && Clean("15001") && Clean("--servicePort");
    hide Clean;
    assert InitArgs(port)[7] == port;
  }

  lemma EnvVarsClean(f: Filling)
    ensures EnvClean(SidecarEnv(f)) <==>
            Clean(f.service) && Clean(f.domain) && Clean(f.controlPlaneUrl) && Clean(f.targetGrpc)
            && Clean(f.targetUrl)
  {
    hide Clean;
    ServiceVariablesClean();
    TrustVariablesClean();
    ControlPlaneVariablesClean();
    ProxyVariablesClean();
    PodVariablesClean();
    NamespaceVariableClean();
    EndpointClean();
    ProxyModeClean();
    PodFieldsClean();
    PlacementFieldsClean();
    AccountFieldClean();
    CertificatePathClean();
    CleanConcat(f.controlPlaneUrl, "/api/v1/identity/issue");
    var env := SidecarEnv(f);
    assert env[0].text == f.service && env[1].text == f.domain;
    assert env[2].text == f.controlPlaneUrl + "/api/v1/identity/issue";
    assert env[3].text == f.targetGrpc && env[4].text == f.targetUrl;
  }

  lemma InitSecurityReads()
    ensures Reads(InitSecurityText(), InitSecurity(), true) && Starts(InitSecurityText())
  {
    var caps := ["NET_ADMIN", "NET_RAW"];
    assert AllClean(caps);
    hide Reads, ReadsMember, Starts, Clean, AllClean, ObjectText, CapabilitiesText, CapabilitiesValue;
    CapabilitiesRead("  ", caps);
    ObjectReads([CapabilitiesText("  ", caps)], [CapabilitiesValue(caps)], [true]);
  }

  lemma InitPartsRead(port: string)
    ensures ReadsMember(StringMember("", "name", "sentinel-init"),
                        Member("name", Str("sentinel-init")), true)
    ensures ReadsMember(StringMember(" ", "image", Image("sentinel-init")),
                        Member("image", Str(Image("sentinel-init"))), true)
    ensures ReadsMember(StringMember(" ", "imagePullPolicy", "Always"),
                        Member("imagePullPolicy", Str("Always")), true)
    ensures ReadsMember(MemberText(" ", "securityContext", InitSecurityText()),
                        Member("securityContext", InitSecurity()), true)
    ensures ReadsMember(MemberText(" ", "args", StringsText(InitArgs(port))),
                        Member("args", StringsValue(InitArgs(port))), Clean(port))
  {
    ContainerKeysClean();
    SectionKeysClean();
    ContainerNamesClean();
    ImagesClean();
    ArgsClean(port);
    InitSecurityReads();
    var args := InitArgs(port);
    StringsRead(args);
    hide Reads, ReadsMember, Starts, Clean, AllClean, ObjectText, MemberText, StringMember,
      Image, InitSecurityText, InitSecurity, StringsText, StringsValue, InitArgs;
    StringMemberReads("", "name", "sentinel-init");
    StringMemberReads(" ", "image", Image("sentinel-init"));
    StringMemberReads(" ", "imagePullPolicy", "Always");
    MemberReads(" ", "securityContext", InitSecurityText(), InitSecurity(), true);
    MemberReads(" ", "args", StringsText(args), StringsValue(args), Clean(port));
  }

  lemma InitReads(port: string)
    ensures Reads(InitText(port), InitContainer(port), Clean(port)) && Starts(InitText(port))
  {
    InitPartsRead(port);
    hide Reads, ReadsMember, Starts, Clean, ObjectText, MemberText, StringMember,
      Image, InitSecurityText, InitSecurity, StringsText, StringsValue, InitArgs;
    var oks := [true, true, true, true, Clean(port)];
    ObjectReads([
      StringMember("", "name", "sentinel-init"),
      StringMember(" ", "image", Image("sentinel-init")),
      StringMember(" ", "imagePullPolicy", "Always"),
      MemberText(" ", "securityContext", InitSecurityText()),
      MemberText(" ", "args", StringsText(InitArgs(port)))],
      InitContainer(port).members, oks);
    assert All(oks) <==> oks[4];
  }

  lemma PortsRead()
    ensures Reads(PortsText(), PortsValue(), true) && Starts(PortsText())
  {
    PortNamesClean();
    hide Reads, Starts, Clean, SpacedArray, PortText, PortValue;
    PortReads(15006, "http-sentinel");
    PortReads(15001, "https-sentinel");
    SpacedArrayReads("  ", "  ",
      [PortText(15006, "http-sentinel"), PortText(15001, "https-sentinel")],
      [PortValue(15006, "http-sentinel"), PortValue(15001, "https-sentinel")],
      [true, true]);
  }

  lemma SidecarSecurityReads()
    ensures Reads(SidecarSecurityText(), SidecarSecurity(), true) && Starts(SidecarSecurityText())
  {
    var caps := ["NET_ADMIN"];
    assert AllClean(caps);
    UserKeyClean();
    hide Reads, ReadsMember, Starts, Clean, AllClean, ObjectText, MemberText, CapabilitiesText,
      CapabilitiesValue, Digits;
    NumberReads(1337);
    MemberReads("  ", "runAsUser", Digits(1337), Number(1337), true);
    CapabilitiesRead("   ", caps);
    ObjectReads([MemberText("  ", "runAsUser", Digits(1337)), CapabilitiesText("   ", caps)],
                SidecarSecurity().members, [true, true]);
  }

  lemma MountsRead()
    ensures Reads(MountsText(), Mounts(), true) && Starts(MountsText())
  {
    ContainerKeysClean();
    MountKeysClean();
    MountNamesClean();
    hide Reads, ReadsMember, Starts, Clean, ObjectText, MemberText, StringMember, SpacedArray;
    StringMemberReads("", "name", "sentinel-certs");
    StringMemberReads(" ", "mountPath", "/etc/certs");
    TrueReads();
    MemberReads(" ", "readOnly", "true", Bool(true), true);
    var parts := [StringMember("", "name", "sentinel-certs"),
                  StringMember(" ", "mountPath", "/etc/certs"),
                  MemberText(" ", "readOnly", "true")];
    var mount := Mounts().items[0];
    ObjectReads(parts, mount.members, [true, true, true]);
    SpacedArrayReads("  ", "  ", [ObjectText(parts)], [mount], [true]);
  }

  predicate FillingClean(f: Filling) {
    Clean(f.service) && Clean(f.domain) && Clean(f.controlPlaneUrl) && Clean(f.targetGrpc)
    && Clean(f.targetUrl)
  }

  lemma SidecarPartsRead(f: Filling)
    ensures ReadsMember(StringMember("", "name", "sentinel-proxy"),
                        Member("name", Str("sentinel-proxy")), true)
    ensures ReadsMember(StringMember(" ", "image", Image("sentinel-data-plane")),
                        Member("image", Str(Image("sentinel-data-plane"))), true)
    ensures ReadsMember(StringMember(" ", "imagePullPolicy", "Always"),
                        Member("imagePullPolicy", Str("Always")), true)
    ensures ReadsMember(MemberText(" ", "ports", PortsText()), Member("ports", PortsValue()), true)
    ensures ReadsMember(MemberText(" ", "env", EnvListText(SidecarEnv(f))),
                        Member("env", EnvListValue(SidecarEnv(f))), FillingClean(f))
    ensures ReadsMember(MemberText(" ", "securityContext", SidecarSecurityText()),
                        Member("securityContext", SidecarSecurity()), true)
    ensures ReadsMember(MemberText(" ", "volumeMounts", MountsText()),
                        Member("volumeMounts", Mounts()), true)
  {
    ContainerKeysClean();
    SectionKeysClean();
    MountKeysClean();
    ContainerNamesClean();
    ImagesClean();
    EnvVarsClean(f);
    var env := SidecarEnv(f);
    EnvListReads(env);
    PortsRead();
    SidecarSecurityReads();
    MountsRead();
    hide Reads, ReadsMember, Starts, Clean, ObjectText, MemberText, StringMember,
      Image, PortsText, PortsValue, SidecarSecurityText, SidecarSecurity, MountsText, Mounts,
      EnvListText, EnvListValue, SidecarEnv, EnvClean;
    StringMemberReads("", "name", "sentinel-proxy");
    StringMemberReads(" ", "image", Image("sentinel-data-plane"));
    StringMemberReads(" ", "imagePullPolicy", "Always");
    MemberReads(" ", "ports", PortsText(), PortsValue(), true);
    MemberReads(" ", "env", EnvListText(env), EnvListValue(env), FillingClean(f));
    MemberReads(" ", "securityContext", SidecarSecurityText(), SidecarSecurity(), true);
    MemberReads(" ", "volumeMounts", MountsText(), Mounts(), true);
  }

  lemma SidecarReads(f: Filling)
    ensures Reads(SidecarText(f), Sidecar(f), FillingClean(f)) && Starts(SidecarText(f))
  {
    SidecarPartsRead(f);
    hide Reads, ReadsMember, Starts, Clean, ObjectText, MemberText, StringMember,
      Image, PortsText, PortsValue, SidecarSecurityText, SidecarSecurity, MountsText, Mounts,
      EnvListText, EnvListValue, SidecarEnv, FillingClean, EnvClean;
    var env := SidecarEnv(f);
    var ok := FillingClean(f);
    var oks := [true, true, true, true, ok, true, true];
    ObjectReads([
      StringMember("", "name", "sentinel-proxy"),
      StringMember(" ", "image", Image("sentinel-data-plane")),
      StringMember(" ", "imagePullPolicy", "Always"),
      MemberText(" ", "ports", PortsText()),
      MemberText(" ", "env", EnvListText(env)),
      MemberText(" ", "securityContext", SidecarSecurityText()),
      MemberText(" ", "volumeMounts", MountsText())],
      Sidecar(f).members, oks);
    assert All(oks) <==> oks[4];
  }

  lemma VolumeReads()
    ensures Reads(VolumeText(), Volume(), true) && Starts(VolumeText())
  {
    ContainerKeysClean();
    SecretKeysClean();
    MountNamesClean();
    SecretNameClean();
    hide Reads, ReadsMember, Starts, Clean, ObjectText, MemberText, StringMember;
    StringMemberReads("", "name", "sentinel-certs");
    StringMemberReads("", "secretName", "sentinel-root-ca");
    var inner := [StringMember("", "secretName", "sentinel-root-ca")];
    var innerValue := [Member("secretName", Str("sentinel-root-ca"))];
    ObjectReads(inner, innerValue, [true]);
    MemberReads(" ", "secret", ObjectText(inner), Obj(innerValue), true);
    ObjectReads([StringMember("", "name", "sentinel-certs"), MemberText(" ", "secret", ObjectText(inner))],
                Volume().members, [true, true]);
  }

  // ----- The patch -------------------------------------------------------

  /** A list of the pod's spec, or the place after its last element. */
  function SpecPath(name: string, appended: bool): string {
    "/spec/" + name + (if appended then "/-" else "")
  }

  /** A value added at the end of a list, or as a list of its own. */
  function ItemText(appended: bool, text: string): string {
    if appended then text else ArrayText([text])
  }

  function Item(appended: bool, v: Value): Value {
    if appended then v else Arr([v])
  }

  function OperationText(path: string, text: string): string {
    ObjectText([StringMember("", "op", "add"), StringMember(" ", "path", path),
                MemberText(" ", "value", text)])
  }

  function PatchText(f: Filling, hasInit: bool, hasVolumes: bool): string {
    SpacedArray("", " ", [
      OperationText(SpecPath("initContainers", hasInit), ItemText(hasInit, InitText(f.port))),
      OperationText(SpecPath("containers", true), SidecarText(f)),
      OperationText(SpecPath("volumes", hasVolumes), ItemText(hasVolumes, VolumeText()))])
  }

  /** The operations the text is meant to hold. */
  function Intended(f: Filling, hasInit: bool, hasVolumes: bool): seq<Value> {
    [AddOperation(SpecPath("initContainers", hasInit), Item(hasInit, InitContainer(f.port))),
     AddOperation(SpecPath("containers", true), Sidecar(f)),
     AddOperation(SpecPath("volumes", hasVolumes), Item(hasVolumes, Volume()))]
  }

  lemma ItemReads(appended: bool, text: string, v: Value, ok: bool)
    requires Reads(text, v, ok) && Starts(text)
    ensures Reads(ItemText(appended, text), Item(appended, v), ok)
    ensures Starts(ItemText(appended, text))
  {
    hide Reads, ArrayText;
    ArrayReads([text], [v], [ok]);
    assert All([ok]) <==> [ok][0];
  }

  lemma OperationReads(path: string, text: string, v: Value, ok: bool)
    requires Clean(path) && Reads(text, v, ok) && Starts(text)
    ensures Reads(OperationText(path, text), AddOperation(path, v), ok)
    ensures Starts(OperationText(path, text))
  {
    OperationKeysClean();
    assert Clean("add");
    hide Reads, ReadsMember, Starts, Clean, ObjectText, MemberText, StringMember;
    StringMemberReads("", "op", "add");
    StringMemberReads(" ", "path", path);
    MemberReads(" ", "value", text, v, ok);
    var oks := [true, true, ok];
    ObjectReads([StringMember("", "op", "add"), StringMember(" ", "path", path),
                 MemberText(" ", "value", text)], AddOperation(path, v).members, oks);
    assert All(oks) <==> oks[2];
  }

  lemma PathClean(name: string, appended: bool)
    requires Clean(name)
    ensures Clean(SpecPath(name, appended))
  {
    var end := if appended then "/-" else "";
    assert Clean("/spec/") && Clean(end);
    hide Clean;
    CleanConcat("/spec/", name);
    CleanConcat("/spec/" + name, end);
  }

  lemma PathsClean(hasInit: bool, hasVolumes: bool)
    ensures Clean(SpecPath("initContainers", hasInit)) && Clean(SpecPath("containers", true))
    ensures Clean(SpecPath("volumes", hasVolumes))
  {
    assert Clean("initContainers") && Clean("containers") && Clean("volumes");
    hide Clean;
    PathClean("initContainers", hasInit);
    PathClean("containers", true);
    PathClean("volumes", hasVolumes);
  }

  /**
   The text parses to the intended operations exactly when every string filled
   in is free of quotes, backslashes and control characters.
   */
  lemma PatchParses(f: Filling, hasInit: bool, hasVolumes: bool)
    ensures Parse(PatchText(f, hasInit, hasVolumes)) == Some(Arr(Intended(f, hasInit, hasVolumes)))
            <==> Clean(f.port) && FillingClean(f)
  {
    InitReads(f.port);
    SidecarReads(f);
    VolumeReads();
    PathsClean(hasInit, hasVolumes);
    hide Reads, Starts, Clean, FillingClean, SpacedArray, InitText, InitContainer, SidecarText, Sidecar,
      VolumeText, Volume, OperationText, AddOperation, SpecPath, ItemText, Item, Parse;
    var init := ItemText(hasInit, InitText(f.port));
    var volume := ItemText(hasVolumes, VolumeText());
    ItemReads(hasInit, InitText(f.port), InitContainer(f.port), Clean(f.port));
    ItemReads(hasVolumes, VolumeText(), Volume(), true);
    OperationReads(SpecPath("initContainers", hasInit), init, Item(hasInit, InitContainer(f.port)), Clean(f.port));
    OperationReads(SpecPath("containers", true), SidecarText(f), Sidecar(f), FillingClean(f));
    OperationReads(SpecPath("volumes", hasVolumes), volume, Item(hasVolumes, Volume()), true);
    var parts := [OperationText(SpecPath("initContainers", hasInit), init),
                  OperationText(SpecPath("containers", true), SidecarText(f)),
                  OperationText(SpecPath("volumes", hasVolumes), volume)];
    var oks := [Clean(f.port), FillingClean(f), true];
    SpacedArrayReads("", " ", parts, Intended(f, hasInit, hasVolumes), oks);
    assert All(oks) <==> oks[0] && oks[1];
    ReadsParses(PatchText(f, hasInit, hasVolumes), Arr(Intended(f, hasInit, hasVolumes)), All(oks));
  }
}
