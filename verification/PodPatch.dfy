/**
 What the webhook's patch does to a pod: SidecarInjectionWebhook.mutate composed
 with JSON Patch.
 */
module PodPatch {
  import opened Text
  import opened Json
  import opened Patch
  import opened Injection

  // ----- Lists of a pod's spec -------------------------------------------

  /** A list field, where absent and null both count as empty. */
  function ListOf(field: Option<Value>): Option<seq<Value>> {
    match field
    case None => Some([])
    case Some(Null) => Some([])
    case Some(Arr(items)) => Some(items)
    case Some(Bool(_)) => None
    case Some(Number(_)) => None
    case Some(Str(_)) => None
    case Some(Obj(_)) => None
  }

  predicate HasItems(field: Option<Value>) {
    ListOf(field).Some? && ListOf(field).value != []
  }

  /** The pod with one of its spec's fields replaced. */
  function WithField(pod: seq<Member>, spec: seq<Member>, name: string, v: Value): Value {
    Obj(SetMember(pod, "spec", Obj(SetMember(spec, name, v))))
  }

  lemma AddToSpec(pod: seq<Member>, spec: seq<Member>, name: string, v: Value)
    requires Lookup(pod, "spec") == Some(Obj(spec))
    ensures Add(Obj(pod), ["spec", name], v) == Some(WithField(pod, spec, name, v))
  {
    hide Lookup, SetMember;
    var path := ["spec", name];
    assert path[1..] == [name];
    assert Add(Obj(spec), [name], v) == Some(Obj(SetMember(spec, name, v)));
  }

  lemma AppendInSpec(pod: seq<Member>, spec: seq<Member>, name: string, v: Value)
    requires Lookup(pod, "spec") == Some(Obj(spec))
    requires ListOf(Lookup(spec, name)).Some?
    ensures Add(Obj(pod), ["spec", name, "-"], v)
         == (var list := Lookup(spec, name);
             if list.Some? && list.value.Arr?
             then Some(WithField(pod, spec, name, Arr(list.value.items + [v])))
             else None)
  {
    hide Lookup, SetMember;
    var path := ["spec", name, "-"];
    assert path[1..] == [name, "-"];
    assert path[1..][1..] == ["-"];
    var list := Lookup(spec, name);
    if list.Some? && list.value.Arr? {
      assert Add(list.value, ["-"], v) == Some(Arr(list.value.items + [v]));
    } else {
      assert list.Some? ==> Add(list.value, ["-"], v) == None;
      assert Add(Obj(spec), [name, "-"], v) == None;
    }
  }

  function SpecTokens(name: string, appended: bool): seq<string> {
    if appended then ["spec", name, "-"] else ["spec", name]
  }

  /** A list that is empty is replaced, and one that is not is extended: either way it grows by one. */
  lemma GrowsByOne(pod: seq<Member>, spec: seq<Member>, name: string, v: Value)
    requires Lookup(pod, "spec") == Some(Obj(spec))
    requires ListOf(Lookup(spec, name)).Some?
    ensures Add(Obj(pod), SpecTokens(name, HasItems(Lookup(spec, name))),
                Item(HasItems(Lookup(spec, name)), v))
         == Some(WithField(pod, spec, name, Arr(ListOf(Lookup(spec, name)).value + [v])))
  {
    hide Lookup, SetMember, Add, WithField;
    AppendInSpec(pod, spec, name, v);
    AddToSpec(pod, spec, name, Arr([v]));
    assert [] + [v] == [v];
  }

  lemma PlainTokens(name: string, appended: bool)
    requires '~' !in name && '/' !in name
    ensures EscapeAll(SpecTokens(name, appended)) == SpecTokens(name, appended)
  {
    PlainEscape("spec");
    PlainEscape(name);
    PlainEscape("-");
    hide Escape;
    assert EscapeAll(["-"]) == ["-"];
    assert [name, "-"][1..] == ["-"];
    assert EscapeAll([name, "-"]) == [name, "-"];
    assert EscapeAll([name]) == [name];
    assert ["spec", name, "-"][1..] == [name, "-"];
    assert ["spec", name][1..] == [name];
  }

  lemma SpecPrefix(rest: string)
    ensures "/" + ("spec" + ['/'] + rest) == "/spec/" + rest
  {
    assert "/" + "spec" + ['/'] == "/spec/";
  }

  lemma JoinTwo(a: string, b: string)
    ensures Join([a, b], '/') == a + ['/'] + b
  {
  }

  lemma JoinThree(a: string, b: string, c: string)
    ensures Join([a, b, c], '/') == a + ['/'] + (b + ['/'] + c)
  {
    JoinTwo(b, c);
    assert [a, b, c][1..] == [b, c];
  }

  lemma SpecPathText(name: string, appended: bool)
    requires '~' !in name && '/' !in name
    ensures SpecPath(name, appended) == PointerText(SpecTokens(name, appended))
  {
    PlainTokens(name, appended);
    hide EscapeAll, Join;
    if appended {
      JoinThree("spec", name, "-");
      SpecPrefix(name + ['/'] + "-");
      assert name + ['/'] + "-" == name + "/-";
      assert "/spec/" + (name + "/-") == "/spec/" + name + "/-";
    } else {
      JoinTwo("spec", name);
      SpecPrefix(name);
    }
  }

  // ----- The whole patch -------------------------------------------------

  /** The members of a pod's spec. */
  function Spec(pod: Value): Option<seq<Member>> {
    if !pod.Obj? then None
    else
      match Lookup(pod.members, "spec")
      case Some(Obj(members)) => Some(members)
      case _ => None
  }

  /** What decoding as a pod with a spec asks of the fields the webhook changes. */
  predicate Readable(pod: Value) {
    Spec(pod).Some?
    && ListOf(Lookup(Spec(pod).value, "initContainers")).Some?
    && ListOf(Lookup(Spec(pod).value, "containers")).Some?
    && ListOf(Lookup(Spec(pod).value, "volumes")).Some?
  }

  /** A field that is absent, null or an array. */
  predicate IsListShaped(field: Option<Value>) {
    field == None || field == Some(Null) || (field.Some? && field.value.Arr?)
  }

  lemma ReadableExactly(pod: Value)
    ensures Readable(pod)
            <==> pod.Obj? && Lookup(pod.members, "spec").Some? && Lookup(pod.members, "spec").value.Obj?
                 && var spec := Lookup(pod.members, "spec").value.members;
                    IsListShaped(Lookup(spec, "initContainers")) && IsListShaped(Lookup(spec, "containers"))
                    && IsListShaped(Lookup(spec, "volumes"))
  {
    hide Lookup;
    if Spec(pod).Some? {
      var spec := Spec(pod).value;
      ListShape(Lookup(spec, "initContainers"));
      ListShape(Lookup(spec, "containers"));
      ListShape(Lookup(spec, "volumes"));
    }
  }

  lemma ListShape(field: Option<Value>)
    ensures ListOf(field).Some? <==> IsListShaped(field)
    ensures field == None || field == Some(Null) ==> ListOf(field) == Some([])
    ensures field.Some? && field.value.Arr? ==> ListOf(field) == Some(field.value.items)
  {
  }

  function Field(pod: Value, name: string): Option<Value>
    requires Spec(pod).Some?
  {
    Lookup(Spec(pod).value, name)
  }

  predicate IsList(field: Option<Value>) { field.Some? && field.value.Arr? }

  /** One list of the spec has one element more, and nothing else differs. */
  ghost predicate Grew(before: Value, after: Value, name: string, v: Value)
    requires Spec(before).Some?
  {
    Spec(after).Some?
    && ListOf(Field(before, name)).Some?
    && Field(after, name) == Some(Arr(ListOf(Field(before, name)).value + [v]))
    && (forall other :: other != name ==> Field(after, other) == Field(before, other))
    && (forall other :: other != "spec" ==>
          Lookup(after.members, other) == Lookup(before.members, other))
  }

  /** Each of the three lists has one element more, and nothing else differs. */
  ghost predicate Injected(before: Value, after: Value, f: Filling)
    requires Readable(before)
  {
    Spec(after).Some?
    && Field(after, "initContainers")
       == Some(Arr(ListOf(Field(before, "initContainers")).value + [InitContainer(f.port)]))
    && Field(after, "containers")
       == Some(Arr(ListOf(Field(before, "containers")).value + [Sidecar(f)]))
    && Field(after, "volumes")
       == Some(Arr(ListOf(Field(before, "volumes")).value + [Volume()]))
    && (forall name :: name !in ["initContainers", "containers", "volumes"] ==>
          Field(after, name) == Field(before, name))
    && (forall name :: name != "spec" ==>
          Lookup(after.members, name) == Lookup(before.members, name))
  }

  lemma FieldAfter(pod: seq<Member>, spec: seq<Member>, name: string, v: Value)
    ensures Spec(WithField(pod, spec, name, v)) == Some(SetMember(spec, name, v))
    ensures forall other :: Lookup(SetMember(spec, name, v), other)
                            == if other == name then Some(v) else Lookup(spec, other)
    ensures forall other :: other != "spec" ==>
              Lookup(WithField(pod, spec, name, v).members, other) == Lookup(pod, other)
  {
    hide SetMember, Lookup;
    var changed := Obj(SetMember(spec, name, v));
    LookupSet(pod, "spec", changed, "spec");
    forall other
      ensures Lookup(SetMember(spec, name, v), other)
              == if other == name then Some(v) else Lookup(spec, other)
    {
      LookupSet(spec, name, v, other);
    }
    forall other | other != "spec"
      ensures Lookup(WithField(pod, spec, name, v).members, other) == Lookup(pod, other)
    {
      LookupSet(pod, "spec", changed, other);
    }
  }

  lemma OperationApplies(pod: Value, name: string, appended: bool, v: Value)
    requires '~' !in name && '/' !in name
    ensures ApplyOperation(pod, AddOperation(SpecPath(name, appended), v))
         == Add(pod, SpecTokens(name, appended), v)
  {
    hide ApplyOperation, Add, PointerText;
    SpecPathText(name, appended);
    AddOperationApplies(pod, SpecTokens(name, appended), v);
  }

  lemma ApplyThree(pod: Value, a: Value, b: Value, c: Value)
    ensures ApplyAll(pod, [a, b, c])
         == match ApplyOperation(pod, a)
            case None => None
            case Some(first) =>
              match ApplyOperation(first, b)
              case None => None
              case Some(second) => ApplyOperation(second, c)
  {
    hide ApplyOperation;
    assert [a, b, c][1..] == [b, c] && [b, c][1..] == [c];
    var first := ApplyOperation(pod, a);
    if first.Some? {
      var second := ApplyOperation(first.value, b);
      if second.Some? {
        assert ApplyAll(second.value, [c]) == ApplyOperation(second.value, c);
      }
      assert ApplyAll(first.value, [b, c])
          == if second.None? then None else ApplyAll(second.value, [c]);
    }
  }

  /** The operation for a list that may be empty. */
  lemma AddsOne(pod: Value, name: string, v: Value)
    requires Spec(pod).Some? && ListOf(Field(pod, name)).Some?
    requires '~' !in name && '/' !in name
    ensures var has := HasItems(Field(pod, name));
            var after := ApplyOperation(pod, AddOperation(SpecPath(name, has), Item(has, v)));
            after.Some? && Grew(pod, after.value, name, v)
  {
    hide Lookup, SetMember, ApplyOperation, AddOperation, Add, SpecPath, SpecTokens, Item, WithField;
    var has := HasItems(Field(pod, name));
    var list := Arr(ListOf(Field(pod, name)).value + [v]);
    OperationApplies(pod, name, has, Item(has, v));
    assert pod == Obj(pod.members);
    GrowsByOne(pod.members, Spec(pod).value, name, v);
    FieldAfter(pod.members, Spec(pod).value, name, list);
  }

  /** The operation that appends. */
  lemma AppendsOne(pod: Value, name: string, v: Value)
    requires Spec(pod).Some? && ListOf(Field(pod, name)).Some?
    requires '~' !in name && '/' !in name
    ensures var after := ApplyOperation(pod, AddOperation(SpecPath(name, true), v));
            (after.Some? <==> IsList(Field(pod, name)))
            && (after.Some? ==> Grew(pod, after.value, name, v))
  {
    hide Lookup, SetMember, ApplyOperation, AddOperation, Add, SpecPath, WithField;
    var list := Arr(ListOf(Field(pod, name)).value + [v]);
    OperationApplies(pod, name, true, v);
    assert pod == Obj(pod.members);
    AppendInSpec(pod.members, Spec(pod).value, name, v);
    FieldAfter(pod.members, Spec(pod).value, name, list);
  }

  /** The intended operations, for the lists this pod has. */
  function Operations(pod: Value, f: Filling): seq<Value>
    requires Readable(pod)
  {
    Intended(f, HasItems(Field(pod, "initContainers")), HasItems(Field(pod, "volumes")))
  }

  lemma PlainNames()
    ensures '/' !in "initContainers" && '~' !in "initContainers"
    ensures '/' !in "containers" && '~' !in "containers"
    ensures '/' !in "volumes" && '~' !in "volumes"
  {
  }

  /**
   The intended operations apply exactly to the pods that have a list of
   containers; they then add one element to each list and change nothing else.
   */
  lemma IntendedApplies(pod: Value, f: Filling)
    requires Readable(pod)
    ensures ApplyAll(pod, Operations(pod, f)).Some? <==> IsList(Field(pod, "containers"))
    ensures ApplyAll(pod, Operations(pod, f)).Some? ==>
              Injected(pod, ApplyAll(pod, Operations(pod, f)).value, f)
  {
    PlainNames();
    hide Lookup, ApplyOperation, AddOperation, SpecPath, Sidecar, InitContainer, Volume, ApplyAll,
      Item, ListOf, Spec;
    var operations := Operations(pod, f);
    ApplyThree(pod, operations[0], operations[1], operations[2]);
    AddsOne(pod, "initContainers", InitContainer(f.port));
    var first := ApplyOperation(pod, operations[0]).value;
    assert Field(first, "containers") == Field(pod, "containers");
    AppendsOne(first, "containers", Sidecar(f));
    if IsList(Field(pod, "containers")) {
      var second := ApplyOperation(first, operations[1]).value;
      assert Field(second, "volumes") == Field(first, "volumes") == Field(pod, "volumes");
      AddsOne(second, "volumes", Volume());
      var third := ApplyOperation(second, operations[2]).value;
      InjectedInTurn(pod, first, second, third, f);
    }
  }

  lemma InjectedInTurn(pod: Value, first: Value, second: Value, third: Value, f: Filling)
    requires Readable(pod)
    requires Grew(pod, first, "initContainers", InitContainer(f.port))
    requires Grew(first, second, "containers", Sidecar(f))
    requires Grew(second, third, "volumes", Volume())
    ensures Injected(pod, third, f)
  {
    hide Lookup, Sidecar, InitContainer, Volume, ListOf, Spec;
    assert Field(third, "initContainers") == Field(second, "initContainers") == Field(first, "initContainers");
    assert Field(third, "containers") == Field(second, "containers");
    assert Field(first, "containers") == Field(pod, "containers");
    assert Field(second, "volumes") == Field(first, "volumes") == Field(pod, "volumes");
  }

  // ----- Injecting again -------------------------------------------------

  /** An injected pod has the shape of a pod with containers. */
  lemma InjectedIsReadable(before: Value, after: Value, f: Filling)
    requires Readable(before) && Injected(before, after, f)
    ensures Readable(after) && IsList(Field(after, "containers"))
  {
    hide Lookup, Spec, Sidecar, InitContainer, Volume;
  }

  /** What a pod becomes; the pod itself where the operations do not apply. */
  function Patched(pod: Value, f: Filling): Value
    requires Readable(pod)
  {
    match ApplyAll(pod, Operations(pod, f))
    case Some(after) => after
    case None => pod
  }

  /**
   Injection is never idempotent: on every pod it applies to it applies again,
   and then each of the three lists holds the injected element twice.
   */
  lemma InjectingTwice(pod: Value, f: Filling, g: Filling)
    requires Readable(pod) && IsList(Field(pod, "containers"))
    ensures ApplyAll(pod, Operations(pod, f)).Some?
    ensures var once := Patched(pod, f);
            && Readable(once) && ApplyAll(once, Operations(once, g)).Some?
            && var twice := Patched(once, g);
            && twice != once && Readable(twice)
            && Field(twice, "initContainers")
               == Some(Arr(ListOf(Field(pod, "initContainers")).value + [InitContainer(f.port)] + [InitContainer(g.port)]))
            && Field(twice, "containers")
               == Some(Arr(ListOf(Field(pod, "containers")).value + [Sidecar(f)] + [Sidecar(g)]))
            && Field(twice, "volumes") == Some(Arr(ListOf(Field(pod, "volumes")).value + [Volume()] + [Volume()]))
  {
    hide Lookup, Spec, Sidecar, InitContainer, Volume, ApplyAll, Operations;
    IntendedApplies(pod, f);
    var once := Patched(pod, f);
    InjectedIsReadable(pod, once, f);
    IntendedApplies(once, g);
    var twice := Patched(once, g);
    InjectedIsReadable(once, twice, g);
    var before, after := Field(once, "containers").value.items, Field(twice, "containers").value.items;
    assert |after| == |before| + 1;
  }
}
