/**
 SidecarInjectionWebhook.mutate: which pods get a patch, what it is filled in
 with, and what the patch sent back does.
 */
module Webhook {
  import opened Text
  import opened Json
  import opened Patch
  import opened Injection
  import opened PodPatch

  /** The configured values. */
  datatype Settings = Settings(trustDomain: string, serviceName: string, namespace: string,
                               port: int, grpcPort: int)

  datatype Metadata = Metadata(annotations: Option<map<string, string>>,
                               name: Option<string>, generateName: Option<string>)

  /** An admission request; `metadata` is what decoding `pod` finds there. */
  datatype Request = Request(uid: string, pod: Value, metadata: Option<Metadata>)

  datatype Response = Response(uid: string, allowed: bool,
                               patchType: Option<string>, patch: Option<string>)

  function Get(annotations: map<string, string>, key: string): Option<string> {
    if key in annotations then Some(annotations[key]) else None
  }

  function OrElse<T>(o: Option<T>, other: T): T {
    match o
    case Some(v) => v
    case None => other
  }

  // ----- Numbers as Java reads them --------------------------------------

  predicate AllDigits(s: string) {
    s != "" && forall i :: 0 <= i < |s| ==> IsDigit(s[i])
  }

  /** Integer.parseInt, for ASCII digits; None is NumberFormatException. */
  function ParseInt(s: string): (r: Option<int>)
    ensures r.Some? ==> -0x8000_0000 <= r.value <= 0x7FFF_FFFF
  {
    var digits := if s != "" && s[0] in {'-', '+'} then s[1..] else s;
    if !AllDigits(digits) then None
    else
      var n: int := if s[0] == '-' then -(DigitsValue(digits) as int) else DigitsValue(digits);
      if -0x8000_0000 <= n <= 0x7FFF_FFFF then Some(n) else None
  }

  /** Printing and reading agree on the whole range of a Java int. */
  lemma ParseIntRoundTrip(n: int)
    ensures ParseInt(Decimal(n)) == if -0x8000_0000 <= n <= 0x7FFF_FFFF then Some(n) else None
  {
    var digits := Digits(if n < 0 then -n else n);
    DigitsRead(if n < 0 then -n else n);
    hide Digits, DigitsValue;
    if n < 0 {
      assert Decimal(n)[0] == '-' && Decimal(n)[1..] == digits;
    } else {
      assert Decimal(n) == digits && IsDigit(digits[0]);
    }
  }

  lemma ParseIntSigned(digits: string)
    requires AllDigits(digits) && DigitsValue(digits) <= 0x7FFF_FFFF
    ensures ParseInt(digits) == Some(DigitsValue(digits)) && ParseInt("+" + digits) == Some(DigitsValue(digits))
    ensures ParseInt("-" + digits) == Some(0 - DigitsValue(digits))
  {
    hide DigitsValue;
    assert IsDigit(digits[0]);
    assert ("+" + digits)[1..] == digits && ("-" + digits)[1..] == digits;
  }

  /** A sign and leading zeros are taken. */
  lemma ParseIntForms(n: nat, zeros: string)
    requires n <= 0x7FFF_FFFF && forall i :: 0 <= i < |zeros| ==> zeros[i] == '0'
    ensures var digits := zeros + Digits(n);
            ParseInt(digits) == Some(n) && ParseInt("+" + digits) == Some(n) && ParseInt("-" + digits) == Some(0 - n)
  {
    hide Digits, DigitsValue, ParseInt;
    DigitsRead(n);
    ZerosRead(zeros, Digits(n));
    ParseIntSigned(zeros + Digits(n));
  }

  lemma {:induction false} ZerosRead(zeros: string, digits: string)
    requires forall i :: 0 <= i < |zeros| ==> zeros[i] == '0'
    requires forall i :: 0 <= i < |digits| ==> IsDigit(digits[i])
    ensures forall i :: 0 <= i < |zeros + digits| ==> IsDigit((zeros + digits)[i])
    ensures DigitsValue(zeros + digits) == DigitsValue(digits)
    decreases |zeros| + |digits|
  {
    var s := zeros + digits;
    if digits == "" {
      assert s == zeros;
      if zeros != "" {
        assert zeros[..|zeros| - 1] + "" == zeros[..|zeros| - 1];
        ZerosRead(zeros[..|zeros| - 1], "");
      }
    } else {
      assert s[..|s| - 1] == zeros + digits[..|digits| - 1];
      ZerosRead(zeros, digits[..|digits| - 1]);
    }
  }

  /** Anything else is refused: no digits, or a character that is neither a digit nor a sign in front. */
  lemma ParseIntRefuses(s: string, i: nat)
    requires s == "" || s == "+" || s == "-" || (i < |s| && !IsDigit(s[i]) && (i > 0 || (s[0] != '+' && s[0] != '-')))
    ensures ParseInt(s) == None
  {
    if i < |s| && !IsDigit(s[i]) && i > 0 {
      assert s[1..][i - 1] == s[i];
    }
  }

  // ----- What the patch is filled in with --------------------------------

  const INJECT: string := "sentinel-zt.io/inject"
  const SERVICE_NAME: string := "sentinel-zt.io/service-name"
  const TARGET_PORT: string := "sentinel-zt.io/target-port"

  predicate Wanted(metadata: Metadata) {
    metadata.annotations.Some? && Get(metadata.annotations.value, INJECT) == Some("true")
  }

  function PodName(metadata: Metadata): string {
    OrElse(metadata.name, OrElse(metadata.generateName, "unknown-pod"))
  }

  function Host(s: Settings): string { s.serviceName + "." + s.namespace + ".svc.cluster.local:" }

  /** An unset, empty or unreadable port annotation leaves 8080. */
  function TargetPort(annotation: Option<string>): int {
    if annotation == None then 8080 else OrElse(ParseInt(annotation.value), 8080)
  }

  function FillingFor(s: Settings, metadata: Metadata): Filling
    requires metadata.annotations.Some?
  {
    var annotations := metadata.annotations.value;
    Filling(OrElse(Get(annotations, TARGET_PORT), "null"),
            OrElse(Get(annotations, SERVICE_NAME), PodName(metadata)),
            s.trustDomain,
            "http://" + Host(s) + Decimal(s.port),
            Host(s) + Decimal(s.grpcPort),
            "http://localhost:" + Decimal(TargetPort(Get(annotations, TARGET_PORT))))
  }

  /** The request is for a decodable pod that asks for injection. */
  predicate Injects(r: Request) {
    r.metadata.Some? && Wanted(r.metadata.value) && Readable(r.pod)
  }

  function PatchFor(s: Settings, r: Request): string
    requires Injects(r)
  {
    PatchText(FillingFor(s, r.metadata.value),
              HasItems(Field(r.pod, "initContainers")), HasItems(Field(r.pod, "volumes")))
  }

  /** Everything is admitted; what asks for injection and can be read is patched. */
  function Answer(s: Settings, r: Request): Response {
    if Injects(r) then Response(r.uid, true, Some("JSONPatch"), Some(PatchFor(s, r)))
    else Response(r.uid, true, None, None)
  }

  /** The pod decodes, with metadata, and its annotations ask for injection. */
  predicate Asks(r: Request) {
    r.metadata.Some? && r.metadata.value.annotations.Some? && Readable(r.pod)
    && var annotations := r.metadata.value.annotations.value;
       "sentinel-zt.io/inject" in annotations && annotations["sentinel-zt.io/inject"] == "true"
  }

  /** Every request is admitted under its own uid; a patch goes with exactly the pods that decode and ask for it. */
  predicate Admits(r: Request, response: Response) {
    response.allowed && response.uid == r.uid
    && (response.patch.Some? <==> Asks(r))
    && response.patchType == (if response.patch.Some? then Some("JSONPatch") else None)
  }

  lemma EveryoneIsAdmitted(s: Settings, r: Request)
    ensures Admits(r, Answer(s, r))
  {
    hide PatchFor, Readable;
  }

  class AdmissionReview {
    const request: Option<Request>
    var response: Option<Response>

    constructor (request: Option<Request>)
      ensures this.request == request && response == None
    {
      this.request := request;
      response := None;
    }
  }

  class SidecarInjectionWebhook {
    const settings: Settings

    constructor (settings: Settings)
      ensures this.settings == settings
    {
      this.settings := settings;
    }

    method Mutate(review: AdmissionReview)
      modifies review
      ensures review.request == None ==> review.response == old(review.response)
      ensures review.request.Some? ==>
                review.response == Some(Answer(settings, review.request.value))
      ensures review.request.Some? ==>
                review.response.Some? && Admits(review.request.value, review.response.value)
    {
      hide PatchText, ParseInt, Decimal, Host, HasItems, ListOf, Lookup, Spec;
      if review.request == None {
        return;
      }
      var request := review.request.value;
      var response := Response(request.uid, false, None, None);
      // Decoding and every dereference stand inside one try block.
      if Readable(request.pod) && request.metadata.Some? {
        var metadata := request.metadata.value;
        if metadata.annotations.Some? && Get(metadata.annotations.value, INJECT) == Some("true") {
          var annotations := metadata.annotations.value;
          var podName := OrElse(metadata.name, OrElse(metadata.generateName, "unknown-pod"));
          var serviceName := OrElse(Get(annotations, SERVICE_NAME), podName);
          var targetUrl := "http://localhost:8080";
          DefaultTarget();
          var portAnnotation := Get(annotations, TARGET_PORT);
          if portAnnotation.Some? && portAnnotation.value != "" {
            var appPort := ParseInt(portAnnotation.value);
            if appPort.Some? {
              targetUrl := "http://localhost:" + Decimal(appPort.value);
            }
          }
          var filling := Filling(OrElse(portAnnotation, "null"), serviceName, settings.trustDomain,
                                 "http://" + Host(settings) + Decimal(settings.port),
                                 Host(settings) + Decimal(settings.grpcPort), targetUrl);
          var hasInit := HasItems(Field(request.pod, "initContainers"));
          var hasVolumes := HasItems(Field(request.pod, "volumes"));
          response := response.(allowed := true, patchType := Some("JSONPatch"),
                                patch := Some(PatchText(filling, hasInit, hasVolumes)));
        } else {
          response := response.(allowed := true);
        }
      } else {
        response := response.(allowed := true);
      }
      EveryoneIsAdmitted(settings, request);
      review.response := Some(response);
    }
  }

  lemma DefaultTarget()
    ensures "http://localhost:" + Decimal(8080) == "http://localhost:8080"
    ensures ParseInt("") == None
  {
    assert Digits(8080) == Digits(808) + "0";
    assert Digits(808) == Digits(80) + "8";
    assert Digits(80) == Digits(8) + "0";
    assert Digits(8) == "8";
  }

  // ----- The promise -----------------------------------------------------

  predicate SettingsClean(s: Settings) {
    Clean(s.trustDomain) && Clean(s.serviceName) && Clean(s.namespace)
  }

  lemma DecimalClean(n: int)
    ensures Clean(Decimal(n))
  {
    DigitsRead(if n < 0 then -n else n);
  }

  /** Of the six strings filled in, only those taken as they are can be unclean. */
  lemma FillingCleanWhen(s: Settings, metadata: Metadata)
    requires metadata.annotations.Some?
    ensures var f := FillingFor(s, metadata);
            FillingClean(f) <==> SettingsClean(s) && Clean(f.service)
  {
    var port := TargetPort(Get(metadata.annotations.value, TARGET_PORT));
    DecimalClean(s.port);
    DecimalClean(s.grpcPort);
    DecimalClean(port);
    HostParts();
    hide Clean, Decimal, TargetPort, PodName;
    CleanConcat(s.serviceName, ".");
    CleanConcat(s.serviceName + ".", s.namespace);
    CleanConcat(s.serviceName + "." + s.namespace, ".svc.cluster.local:");
    CleanConcat("http://", Host(s));
    CleanConcat("http://" + Host(s), Decimal(s.port));
    CleanConcat(Host(s), Decimal(s.grpcPort));
    CleanConcat("http://localhost:", Decimal(port));
  }

  lemma HostParts()
    ensures Clean(".") && Clean(".svc.cluster.local:") && Clean("http://")
    ensures Clean("http://localhost:")
  {
  }

  /**
   The patch text parses to the intended operations exactly when the strings
   taken from the annotations, the pod's name and the settings are clean.
   */
  lemma PatchForParses(s: Settings, r: Request)
    requires Injects(r)
    ensures var f := FillingFor(s, r.metadata.value);
            Parse(PatchFor(s, r)) == Some(Arr(Operations(r.pod, f)))
            <==> SettingsClean(s) && Clean(f.service) && Clean(f.port)
  {
    var f := FillingFor(s, r.metadata.value);
    FillingCleanWhen(s, r.metadata.value);
    hide Clean, FillingFor, SettingsClean, FillingClean, Parse, PatchText, Intended;
    PatchParses(f, HasItems(Field(r.pod, "initContainers")), HasItems(Field(r.pod, "volumes")));
  }

  /**
   From the request to the patched pod: with clean strings the text sent back
   is a JSON patch, it applies to every pod with a list of containers, and it
   gives each of the three lists exactly one element more.
   */
  lemma InjectionIsCorrect(s: Settings, r: Request)
    requires Injects(r) && SettingsClean(s)
    requires var f := FillingFor(s, r.metadata.value); Clean(f.service) && Clean(f.port)
    ensures Answer(s, r).patch.Some?
    ensures var patch := Parse(Answer(s, r).patch.value);
            patch.Some?
            && (Apply(r.pod, patch.value).Some? <==> IsList(Field(r.pod, "containers")))
            && (Apply(r.pod, patch.value).Some? ==>
                  Injected(r.pod, Apply(r.pod, patch.value).value, FillingFor(s, r.metadata.value)))
  {
    var f := FillingFor(s, r.metadata.value);
    PatchForParses(s, r);
    hide Clean, FillingFor, SettingsClean, Parse, PatchText, Operations, ApplyAll, Injected;
    IntendedApplies(r.pod, f);
  }
}
