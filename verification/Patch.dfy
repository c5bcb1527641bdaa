/**
 JSON pointers (RFC 6901) and the `add` operation of JSON Patch (RFC 6902,
 section 4.1) on JSON values.
 */
module Patch {
  import opened Text
  import opened Json

  // ----- Pointers --------------------------------------------------------

  function Unescape(token: string): Option<string> {
    if token == "" then Some("")
    else if token[0] != '~' then
      match Unescape(token[1..])
      case None => None
      case Some(tail) => Some([token[0]] + tail)
    else if |token| < 2 || token[1] !in {'0', '1'} then None
    else
      match Unescape(token[2..])
      case None => None
      case Some(tail) => Some([if token[1] == '0' then '~' else '/'] + tail)
  }

  function UnescapeAll(tokens: seq<string>): Option<seq<string>> {
    if tokens == [] then Some([])
    else
      match Unescape(tokens[0])
      case None => None
      case Some(first) =>
        match UnescapeAll(tokens[1..])
        case None => None
        case Some(others) => Some([first] + others)
  }

  /** The reference tokens a pointer names. */
  function Pointer(s: string): Option<seq<string>> {
    if s == "" then Some([])
    else if s[0] != '/' then None
    else UnescapeAll(Split(s[1..], '/'))
  }

  function Escape(token: string): string {
    if token == "" then ""
    else
      (if token[0] == '~' then "~0" else if token[0] == '/' then "~1" else [token[0]])
      + Escape(token[1..])
  }

  function EscapeAll(tokens: seq<string>): (r: seq<string>)
    ensures |r| == |tokens|
  {
    if tokens == [] then [] else [Escape(tokens[0])] + EscapeAll(tokens[1..])
  }

  function PointerText(tokens: seq<string>): string {
    if tokens == [] then "" else "/" + Join(EscapeAll(tokens), '/')
  }

  lemma {:induction false} EscapeReads(token: string)
    ensures Unescape(Escape(token)) == Some(token)
    ensures '/' !in Escape(token)
  {
    if token == "" {
    } else {
      EscapeReads(token[1..]);
      var e := Escape(token);
      var tail := Escape(token[1..]);
      assert token == [token[0]] + token[1..];
      if token[0] in {'~', '/'} {
        assert e[2..] == tail;
      } else {
        assert e[1..] == tail;
      }
    }
  }

  lemma {:induction false} EscapeAllReads(tokens: seq<string>)
    ensures UnescapeAll(EscapeAll(tokens)) == Some(tokens)
    ensures forall i :: 0 <= i < |tokens| ==> '/' !in EscapeAll(tokens)[i]
  {
    if tokens == [] {
    } else {
      EscapeReads(tokens[0]);
      EscapeAllReads(tokens[1..]);
      assert EscapeAll(tokens)[1..] == EscapeAll(tokens[1..]);
      assert tokens == [tokens[0]] + tokens[1..];
    }
  }

  /** Every list of tokens has a pointer that names it. */
  lemma PointerRoundTrip(tokens: seq<string>)
    ensures Pointer(PointerText(tokens)) == Some(tokens)
  {
    if tokens != [] {
      EscapeAllReads(tokens);
      var s := PointerText(tokens);
      assert s[1..] == Join(EscapeAll(tokens), '/');
      SplitJoin(EscapeAll(tokens), '/');
    }
  }

  lemma {:induction false} PlainEscape(token: string)
    requires '~' !in token && '/' !in token
    ensures Escape(token) == token
  {
    if token == "" {
    } else {
      PlainEscape(token[1..]);
      assert token == [token[0]] + token[1..];
    }
  }

  // ----- Adding ----------------------------------------------------------

  function Lookup(members: seq<Member>, name: string): Option<Value> {
    if members == [] then None
    else if members[0].name == name then Some(members[0].value)
    else Lookup(members[1..], name)
  }

  lemma {:induction false} LookupAt(members: seq<Member>, i: nat)
    requires i < |members| && forall j :: 0 <= j < i ==> members[j].name != members[i].name
    ensures Lookup(members, members[i].name) == Some(members[i].value)
  {
    if i > 0 {
      LookupAt(members[1..], i - 1);
    }
  }

  /** Replaces the member of that name, or appends one. */
  function SetMember(members: seq<Member>, name: string, v: Value): seq<Member> {
    if members == [] then [Member(name, v)]
    else if members[0].name == name then [Member(name, v)] + members[1..]
    else [members[0]] + SetMember(members[1..], name, v)
  }

  lemma {:induction false} LookupSet(members: seq<Member>, name: string, v: Value, other: string)
    ensures Lookup(SetMember(members, name, v), other)
         == if other == name then Some(v) else Lookup(members, other)
  {
    if members == [] {
    } else if members[0].name == name {
      assert ([Member(name, v)] + members[1..])[1..] == members[1..];
    } else {
      LookupSet(members[1..], name, v, other);
      assert SetMember(members, name, v)[1..] == SetMember(members[1..], name, v);
    }
  }

  /** The add operation: None where the target's parent is missing or not a container. */
  function Add(doc: Value, path: seq<string>, v: Value): Option<Value>
    decreases |path|
  {
    if path == [] then Some(v)
    else if doc.Obj? then
      if |path| == 1 then Some(Obj(SetMember(doc.members, path[0], v)))
      else
        match Lookup(doc.members, path[0])
        case None => None
        case Some(child) =>
          match Add(child, path[1..], v)
          case None => None
          case Some(changed) => Some(Obj(SetMember(doc.members, path[0], changed)))
    else if doc.Arr? then
      if path == ["-"] then Some(Arr(doc.items + [v]))
      else
        match ParseDecimal(path[0])
        case None => None
        case Some(i) =>
          if |path| == 1 then
            if i > |doc.items| then None else Some(Arr(doc.items[..i] + [v] + doc.items[i..]))
          else if i >= |doc.items| then None
          else
            match Add(doc.items[i], path[1..], v)
            case None => None
            case Some(changed) => Some(Arr(doc.items[i := changed]))
    else None
  }

  /** The value a pointer refers to (section 4 of RFC 6901); "-" refers to none. */
  function Resolve(doc: Value, path: seq<string>): Option<Value>
    decreases |path|
  {
    if path == [] then Some(doc)
    else
      match Child(doc, path[0])
      case None => None
      case Some(child) => Resolve(child, path[1..])
  }

  function Child(doc: Value, token: string): Option<Value> {
    if doc.Obj? then Lookup(doc.members, token)
    else if doc.Arr? then
      match ParseDecimal(token)
      case None => None
      case Some(i) => if i < |doc.items| then Some(doc.items[i]) else None
    else None
  }

  /** Where a value can be added under this token. */
  predicate Takes(parent: Value, token: string) {
    parent.Obj?
    || (parent.Arr? && (token == "-" || (ParseDecimal(token).Some? && ParseDecimal(token).value <= |parent.items|)))
  }

  /** Adding succeeds exactly where the parent is there and takes the value, at the place of the whole document or below. */
  lemma {:induction false} AddsExactly(doc: Value, path: seq<string>, v: Value)
    ensures Add(doc, path, v).Some?
            <==> path == [] || (var parent := Resolve(doc, path[..|path| - 1]);
                                parent.Some? && Takes(parent.value, path[|path| - 1]))
    decreases |path|
  {
    hide Lookup, SetMember, ParseDecimal;
    if |path| == 1 {
      assert path == [path[0]] && path[..0] == [];
      DashIsNoIndex();
    } else if |path| > 1 {
      DashIsNoIndex();
      assert path[..|path| - 1][0] == path[0];
      assert path[..|path| - 1][1..] == path[1..][..|path[1..]| - 1];
      var child := Child(doc, path[0]);
      if child.Some? {
        AddsExactly(child.value, path[1..], v);
      }
    }
  }

  lemma DashIsNoIndex()
    ensures ParseDecimal("-") == None
  {
    assert !IsDigit("-"[0]);
  }

  /** What has been added is there: at the pointer itself, or behind the last element where the pointer ends in "-". */
  lemma {:induction false} AddedIsThere(doc: Value, path: seq<string>, v: Value)
    requires Add(doc, path, v).Some?
    ensures var after := Add(doc, path, v).value;
            Resolve(after, path) == Some(v)
            || (path != [] && path[|path| - 1] == "-"
                && var before, grown := Resolve(doc, path[..|path| - 1]), Resolve(after, path[..|path| - 1]);
                   before.Some? && before.value.Arr? && grown == Some(Arr(before.value.items + [v])))
    decreases |path|
  {
    hide Lookup, SetMember, ParseDecimal;
    DashIsNoIndex();
    if |path| == 1 {
      assert path == [path[0]] && path[..0] == [] && path[1..] == [];
      if doc.Obj? {
        LookupSet(doc.members, path[0], v, path[0]);
      }
    } else if |path| > 1 {
      var child := Child(doc, path[0]).value;
      AddedIsThere(child, path[1..], v);
      assert path[..|path| - 1][0] == path[0];
      assert path[..|path| - 1][1..] == path[1..][..|path[1..]| - 1];
      if doc.Obj? {
        LookupSet(doc.members, path[0], Add(child, path[1..], v).value, path[0]);
      }
    }
  }

  /** `after` is `before` with `v` inserted at position `i`. */
  predicate Inserted(before: seq<Value>, i: nat, v: Value, after: seq<Value>) {
    i <= |before| && |after| == |before| + 1 && after[i] == v
    && (forall j :: 0 <= j < i ==> after[j] == before[j])
    && (forall j :: i <= j < |before| ==> after[j + 1] == before[j])
  }

  /** Adding at an index of an array shifts what stands behind and changes nothing else; past the end it fails. */
  lemma InsertsBetween(items: seq<Value>, i: nat, v: Value)
    ensures match Add(Arr(items), [Digits(i)], v)
            case None => i > |items|
            case Some(after) => after.Arr? && Inserted(items, i, v, after.items)
  {
    ParseDecimalRoundTrip(i);
    DashIsNoIndex();
    hide ParseDecimal, Digits;
    var path := [Digits(i)];
    assert path[0] != "-";
  }

  /** One operation object; operations other than `add` are not part of this model. */
  function ApplyOperation(doc: Value, operation: Value): Option<Value> {
    if !operation.Obj? || Lookup(operation.members, "op") != Some(Str("add")) then None
    else
      match (Lookup(operation.members, "path"), Lookup(operation.members, "value"))
      case (Some(Str(path)), Some(v)) =>
        (match Pointer(path)
         case None => None
         case Some(tokens) => Add(doc, tokens, v))
      case _ => None
  }

  /** Operations apply in order, each to the outcome of the one before it. */
  function ApplyAll(doc: Value, operations: seq<Value>): Option<Value>
    decreases |operations|
  {
    if operations == [] then Some(doc)
    else
      match ApplyOperation(doc, operations[0])
      case None => None
      case Some(changed) => ApplyAll(changed, operations[1..])
  }

  function Apply(doc: Value, patch: Value): Option<Value> {
    if patch.Arr? then ApplyAll(doc, patch.items) else None
  }

  function AddOperation(path: string, v: Value): Value {
    Obj([Member("op", Str("add")), Member("path", Str(path)), Member("value", v)])
  }

  lemma AddOperationApplies(doc: Value, tokens: seq<string>, v: Value)
    ensures ApplyOperation(doc, AddOperation(PointerText(tokens), v)) == Add(doc, tokens, v)
  {
    hide Pointer, PointerText, Add;
    PointerRoundTrip(tokens);
    var ms := AddOperation(PointerText(tokens), v).members;
    assert Lookup(ms, "op") == Some(Str("add"));
    assert ms[1..][0].name == "path" && ms[1..][1..][0].name == "value";
    assert Lookup(ms, "path") == Lookup(ms[1..], "path");
    assert Lookup(ms, "value") == Lookup(ms[1..], "value") == Lookup(ms[1..][1..], "value");
  }
}
