/**
 What the injected containers carry: the sidecar's environment, looked up by
 name, for every filling and for every admission request.
 */
module InjectedValues {
  import opened Text
  import opened Json
  import opened Patch
  import opened Injection
  import opened PodPatch
  import opened Webhook
  import InitContainer
  import InjectedPod

  // ----- Looking things up in a container --------------------------------

  function FieldOf(v: Option<Value>, name: string): Option<Value> {
    match v
    case Some(Obj(members)) => Lookup(members, name)
    case _ => None
  }

  predicate IsNamed(v: Value, name: string) {
    FieldOf(Some(v), "name") == Some(Str(name))
  }

  /** The first element of that name. */
  function Named(items: seq<Value>, name: string): Option<Value> {
    if items == [] then None
    else if IsNamed(items[0], name) then Some(items[0])
    else Named(items[1..], name)
  }

  /** The entry of a container's environment. */
  function Variable(container: Value, name: string): Option<Value> {
    match FieldOf(Some(container), "env")
    case Some(Arr(items)) => Named(items, name)
    case _ => None
  }

  /** The container sets the variable to this text. */
  predicate Sets(container: Value, name: string, text: string) {
    FieldOf(Variable(container, name), "value") == Some(Str(text))
  }

  /** The container takes the variable from this field of the pod. */
  predicate TakesFrom(container: Value, name: string, path: string) {
    FieldOf(FieldOf(FieldOf(Variable(container, name), "valueFrom"), "fieldRef"), "fieldPath") == Some(Str(path))
  }

  lemma {:induction false} NamedAt(items: seq<Value>, i: nat, name: string)
    requires i < |items| && IsNamed(items[i], name) && forall j :: 0 <= j < i ==> !IsNamed(items[j], name)
    ensures Named(items, name) == Some(items[i])
  {
    hide IsNamed;
    if i > 0 {
      NamedAt(items[1..], i - 1, name);
    }
  }

  lemma EntryName(e: EnvVar, name: string)
    ensures IsNamed(EnvVarValue(e), name) <==> e.name == name
  {
  }

  lemma EntryContent(e: EnvVar)
    ensures e.Plain? ==> FieldOf(Some(EnvVarValue(e)), "value") == Some(Str(e.text))
    ensures e.FromField? ==>
              FieldOf(FieldOf(FieldOf(Some(EnvVarValue(e)), "valueFrom"), "fieldRef"), "fieldPath") == Some(Str(e.text))
  {
    var ms := EnvVarValue(e).members;
    LookupAt(ms, 1);
    if e.FromField? {
      LookupAt(ms[1].value.members, 0);
      LookupAt(ms[1].value.members[0].value.members, 0);
    }
  }

  lemma EnvMember(f: Filling)
    ensures FieldOf(Some(Sidecar(f)), "env") == Some(EnvListValue(SidecarEnv(f)))
  {
    hide Lookup, EnvListValue, SidecarEnv, Image, PortsValue, Mounts, SidecarSecurity;
    var ms := Sidecar(f).members;
    LookupAt(ms, 4);
  }

  /** The variables' names all differ. */
  lemma NamesDiffer(f: Filling, i: nat, j: nat)
    requires j < i < 12
    ensures |SidecarEnv(f)| == 12 && SidecarEnv(f)[i].name != SidecarEnv(f)[j].name
  {
    var env := SidecarEnv(f);
    assert env[0].name[0] == 'S' && env[10].name[0] == 'C';
    assert env[4].name[0] == 'T' && env[5].name[0] == 'P';
  }

  lemma VariableAt(f: Filling, i: nat)
    requires i < 12
    ensures |SidecarEnv(f)| == 12
    ensures Variable(Sidecar(f), SidecarEnv(f)[i].name) == Some(EnvVarValue(SidecarEnv(f)[i]))
  {
    hide Sidecar, SidecarEnv, EnvVarValue, IsNamed, Named;
    EnvMember(f);
    var env := SidecarEnv(f);
    EnvLength(f);
    var items := EnvListValue(env).items;
    EntryName(env[i], env[i].name);
    forall j | 0 <= j < i
      ensures !IsNamed(items[j], env[i].name)
    {
      NamesDiffer(f, i, j);
      EntryName(env[j], env[i].name);
    }
    NamedAt(items, i, env[i].name);
  }

  lemma EnvLength(f: Filling)
    ensures |SidecarEnv(f)| == 12
  {
  }

  lemma PlainAt(f: Filling, i: nat, name: string, text: string)
    requires i < 12 && |SidecarEnv(f)| == 12 && SidecarEnv(f)[i] == Plain(name, text)
    ensures Sets(Sidecar(f), name, text)
  {
    hide Sidecar, SidecarEnv, EnvVarValue, Variable, FieldOf;
    VariableAt(f, i);
    EntryContent(Plain(name, text));
  }

  lemma FromFieldAt(f: Filling, i: nat, name: string, path: string)
    requires i < 12 && |SidecarEnv(f)| == 12 && SidecarEnv(f)[i] == FromField(name, path)
    ensures TakesFrom(Sidecar(f), name, path)
  {
    hide Sidecar, SidecarEnv, EnvVarValue, Variable, FieldOf;
    VariableAt(f, i);
    EntryContent(FromField(name, path));
  }

  /** The variables that carry what the webhook fills in. */
  lemma FilledVariables(f: Filling)
    ensures Sets(Sidecar(f), "SERVICE_NAME", f.service)
    ensures Sets(Sidecar(f), "SPIFFE_TRUST_DOMAIN", f.domain)
    ensures Sets(Sidecar(f), "CONTROL_PLANE_URL", f.controlPlaneUrl + "/api/v1/identity/issue")
    ensures Sets(Sidecar(f), "TARGET_GRPC", f.targetGrpc)
    ensures Sets(Sidecar(f), "TARGET_URL", f.targetUrl)
  {
    hide Sets, Sidecar;
    PlainAt(f, 0, "SERVICE_NAME", f.service);
    PlainAt(f, 1, "SPIFFE_TRUST_DOMAIN", f.domain);
    PlainAt(f, 2, "CONTROL_PLANE_URL", f.controlPlaneUrl + "/api/v1/identity/issue");
    PlainAt(f, 3, "TARGET_GRPC", f.targetGrpc);
    PlainAt(f, 4, "TARGET_URL", f.targetUrl);
  }

  /** The variables that are the same for every pod. */
  lemma FixedVariables(f: Filling)
    ensures Sets(Sidecar(f), "PROXY_MODE", "redirect")
    ensures Sets(Sidecar(f), "CA_CERT_PATH", "/etc/certs/root_ca.crt")
    ensures TakesFrom(Sidecar(f), "POD_NAME", "metadata.name")
    ensures TakesFrom(Sidecar(f), "POD_UID", "metadata.uid")
    ensures TakesFrom(Sidecar(f), "KUBERNETES_NAMESPACE", "metadata.namespace")
    ensures TakesFrom(Sidecar(f), "SERVICE_ACCOUNT", "spec.serviceAccountName")
    ensures TakesFrom(Sidecar(f), "POD_IP", "status.podIP")
  {
    hide Sets, TakesFrom, Sidecar;
    PlainAt(f, 5, "PROXY_MODE", "redirect");
    FromFieldAt(f, 6, "POD_NAME", "metadata.name");
    FromFieldAt(f, 7, "POD_UID", "metadata.uid");
    FromFieldAt(f, 8, "KUBERNETES_NAMESPACE", "metadata.namespace");
    FromFieldAt(f, 9, "SERVICE_ACCOUNT", "spec.serviceAccountName");
    PlainAt(f, 10, "CA_CERT_PATH", "/etc/certs/root_ca.crt");
    FromFieldAt(f, 11, "POD_IP", "status.podIP");
  }

  /** The images, names, ports and mounts of what is injected. */
  lemma FixedFields(f: Filling, port: string)
    ensures FieldOf(Some(Sidecar(f)), "name") == Some(Str("sentinel-proxy"))
    ensures FieldOf(Some(Sidecar(f)), "image") == Some(Str("localhost:30500/" + "sentinel-data-plane" + ":redirectfix"))
    ensures FieldOf(Some(Injection.InitContainer(port)), "name") == Some(Str("sentinel-init"))
    ensures FieldOf(Some(Injection.InitContainer(port)), "image")
         == Some(Str("localhost:30500/" + "sentinel-init" + ":redirectfix"))
    ensures FieldOf(Some(Sidecar(f)), "ports")
         == Some(Arr([Obj([Member("containerPort", Number(15006)), Member("name", Str("http-sentinel"))]),
                      Obj([Member("containerPort", Number(15001)), Member("name", Str("https-sentinel"))])]))
    ensures FieldOf(FieldOf(Some(Volume()), "secret"), "secretName") == Some(Str("sentinel-root-ca"))
    ensures FieldOf(Some(Sidecar(f)), "volumeMounts") == Some(Mounts())
    ensures FieldOf(Some(Volume()), "name") == FieldOf(Some(Mounts().items[0]), "name")
  {
    hide Lookup, EnvListValue, SidecarEnv, SidecarSecurity, InitSecurity, StringsValue, InitArgs;
    var ms, ns := Sidecar(f).members, Injection.InitContainer(port).members;
    LookupAt(ms, 0);
    LookupAt(ms, 1);
    LookupAt(ms, 3);
    assert ms[2].name[0] == 'i';
    LookupAt(ms, 6);
    LookupAt(ns, 0);
    LookupAt(ns, 1);
    LookupAt(Volume().members, 0);
    LookupAt(Volume().members, 1);
    LookupAt(Volume().members[1].value.members, 0);
    LookupAt(Mounts().items[0].members, 0);
  }

  // ----- For a request ---------------------------------------------------

  /** The value of operation `k` of a patch text. */
  function PatchValue(text: string, k: nat): Option<Value> {
    match Parse(text)
    case Some(Arr(items)) => if k < |items| then FieldOf(Some(items[k]), "value") else None
    case _ => None
  }

  /** The webhook has what it needs in usable form: strings without quotes, backslashes and control characters. */
  predicate IsUsable(s: Settings, r: Request) {
    Injects(r) && SettingsClean(s)
    && Clean(FillingFor(s, r.metadata.value).service) && Clean(FillingFor(s, r.metadata.value).port)
  }

  /** The text sent back holds the two containers. */
  lemma ContainersSent(s: Settings, r: Request)
    requires IsUsable(s, r)
    ensures var text, f := Answer(s, r).patch, FillingFor(s, r.metadata.value);
            text.Some? && PatchValue(text.value, 1) == Some(Sidecar(f))
            && PatchValue(text.value, 0)
               == Some(Item(HasItems(Field(r.pod, "initContainers")), Injection.InitContainer(f.port)))
  {
    hide Clean, FillingFor, SettingsClean, Parse, PatchText, Sidecar, Injection.InitContainer, Volume, SpecPath, Item;
    PatchForParses(s, r);
    var operations := Operations(r.pod, FillingFor(s, r.metadata.value));
    LookupValue(operations[0]);
    LookupValue(operations[1]);
  }

  lemma LookupValue(operation: Value)
    ensures forall path, v :: operation == AddOperation(path, v) ==> FieldOf(Some(operation), "value") == Some(v)
  {
    hide Lookup;
    forall path, v | operation == AddOperation(path, v)
      ensures FieldOf(Some(operation), "value") == Some(v)
    {
      LookupAt(operation.members, 2);
    }
  }

  /** The service's name: annotated, or else the pod's, or else what its name is to be generated from. */
  function ServiceNameOf(metadata: Metadata): string
    requires metadata.annotations.Some?
  {
    var annotations := metadata.annotations.value;
    if "sentinel-zt.io/service-name" in annotations then annotations["sentinel-zt.io/service-name"]
    else if metadata.name.Some? then metadata.name.value
    else if metadata.generateName.Some? then metadata.generateName.value
    else "unknown-pod"
  }

  /** The annotated port as it stands. */
  function PortAnnotation(metadata: Metadata): Option<string>
    requires metadata.annotations.Some?
  {
    var annotations := metadata.annotations.value;
    if "sentinel-zt.io/target-port" in annotations then Some(annotations["sentinel-zt.io/target-port"]) else None
  }

  /**
   What an injected pod's containers carry, from the request and the settings:
   each address with its own port, and the annotated port where it is a number.
   */
  lemma RequestValues(s: Settings, r: Request)
    requires IsUsable(s, r)
    ensures Answer(s, r).patch.Some? && PatchValue(Answer(s, r).patch.value, 1).Some?
    ensures var c, port := PatchValue(Answer(s, r).patch.value, 1).value, PortAnnotation(r.metadata.value);
            var host := s.serviceName + "." + s.namespace + ".svc.cluster.local:";
            && Sets(c, "SERVICE_NAME", ServiceNameOf(r.metadata.value))
            && Sets(c, "SPIFFE_TRUST_DOMAIN", s.trustDomain)
            && Sets(c, "CONTROL_PLANE_URL", "http://" + host + Decimal(s.port) + "/api/v1/identity/issue")
            && Sets(c, "TARGET_GRPC", host + Decimal(s.grpcPort))
            && Sets(c, "TARGET_URL", "http://localhost:"
                 + Decimal(if port.Some? && ParseInt(port.value).Some? then ParseInt(port.value).value else 8080))
  {
    hide Sets, Sidecar, Answer, PatchValue, Injection.InitContainer, ParseInt, Decimal, SettingsClean, Clean;
    var f := FillingFor(s, r.metadata.value);
    ContainersSent(s, r);
    FilledVariables(f);
  }

  /** The init container of the request is configured with the annotated port. */
  lemma RequestConfigures(s: Settings, r: Request, cfg: InitContainer.Config)
    requires IsUsable(s, r)
    ensures Answer(s, r).patch.Some? && PatchValue(Answer(s, r).patch.value, 0).Some?
    ensures var v := PatchValue(Answer(s, r).patch.value, 0).value;
            var container := if HasItems(Field(r.pod, "initContainers")) then v else ListElement(v);
            InjectedPod.ConfiguredBy(container, cfg)
            <==> cfg == InitContainer.Config("REDIRECT", 15006, 15001, OrElse(PortAnnotation(r.metadata.value), "null"),
                                             1337, 0x111, "", false)
  {
    hide Sidecar, Answer, PatchValue, Injection.InitContainer, InjectedPod.ConfiguredBy, HasItems, SettingsClean, Clean;
    ContainersSent(s, r);
    InjectedPod.InitConfigures(FillingFor(s, r.metadata.value).port, cfg);
  }

  /** The element of a list of one. */
  function ListElement(v: Value): Value {
    if v.Arr? && |v.items| == 1 then v.items[0] else v
  }
}
