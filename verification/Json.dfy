/**
 JSON values, texts read by the grammar of RFC 8259, and what concatenated texts
 read back as.
 */
module Json {
  import opened Text

  datatype Value =
    | Null
    | Bool(b: bool)
    | Number(n: int)
    | Str(s: string)
    | Arr(items: seq<Value>)
    | Obj(members: seq<Member>)

  datatype Member = Member(name: string, value: Value)

  datatype Parsed<+T> = Failed | Ok(result: T, rest: string)

  // ----- Reading (RFC 8259) ----------------------------------------------

  /** Insignificant whitespace (section 2). */
  predicate IsWs(c: char) { c == ' ' || c == '\t' || c == '\n' || c == '\r' }

  function SkipWs(s: string): (r: string)
    ensures |r| <= |s|
  {
    if s != "" && IsWs(s[0]) then SkipWs(s[1..]) else s
  }

  /** The two-character escapes (section 7); `\u` escapes are not read. */
  function Escaped(c: char): Option<char> {
    match c
    case '"' => Some('"')
    case '\\' => Some('\\')
    case '/' => Some('/')
    case 'b' => Some('\U{08}')
    case 'f' => Some('\U{0C}')
    case 'n' => Some('\n')
    case 'r' => Some('\r')
    case 't' => Some('\t')
    case _ => None
  }

  /** The rest of a string after its opening quote. */
  function ParseChars(s: string): (r: Parsed<string>)
    ensures r.Ok? ==> |r.rest| < |s|
  {
    if s == "" then Failed
    else if s[0] == '"' then Ok("", s[1..])
    else if s[0] < ' ' then Failed
    else if s[0] == '\\' then
      if |s| < 2 || Escaped(s[1]) == None then Failed
      else
        match ParseChars(s[2..])
        case Failed => Failed
        case Ok(tail, rest) => Ok([Escaped(s[1]).value] + tail, rest)
    else
      match ParseChars(s[1..])
      case Failed => Failed
      case Ok(tail, rest) => Ok([s[0]] + tail, rest)
  }

  /** The length of the leading run of digits. */
  function DigitsEnd(s: string): (n: nat)
    ensures n <= |s| && forall i :: 0 <= i < n ==> IsDigit(s[i])
    ensures n < |s| ==> !IsDigit(s[n])
  {
    if s == "" || !IsDigit(s[0]) then 0 else 1 + DigitsEnd(s[1..])
  }

  /** An unsigned integer (section 6); signs, fractions and exponents are not read. */
  function ParseNumber(s: string): (r: Parsed<Value>)
    ensures r.Ok? ==> |r.rest| < |s|
  {
    var n := DigitsEnd(s);
    if n == 0 || (n > 1 && s[0] == '0') || (n < |s| && s[n] in {'.', 'e', 'E'}) then Failed
    else Ok(Number(DigitsValue(s[..n])), s[n..])
  }

  /** The three literal names (section 3) and numbers. */
  function ParseScalar(t: string): (r: Parsed<Value>)
    ensures r.Ok? ==> |r.rest| < |t|
    ensures StartsWith(t, ']') ==> r.Failed?
  {
    if t == "" then Failed
    else if t[0] == 't' then
      if |t| >= 4 && t[..4] == "true" then Ok(Bool(true), t[4..]) else Failed
    else if t[0] == 'f' then
      if |t| >= 5 && t[..5] == "false" then Ok(Bool(false), t[5..]) else Failed
    else if t[0] == 'n' then
      if |t| >= 4 && t[..4] == "null" then Ok(Null, t[4..]) else Failed
    else ParseNumber(t)
  }

  function ParseValue(s: string): (r: Parsed<Value>)
    ensures r.Ok? ==> |r.rest| < |s|
    decreases |s|, 0
  {
    var t := SkipWs(s);
    if t == "" then Failed
    else if t[0] == '"' then
      match ParseChars(t[1..])
      case Failed => Failed
      case Ok(str, rest) => Ok(Str(str), rest)
    else if t[0] == '[' then
      if StartsWith(SkipWs(t[1..]), ']') then Ok(Arr([]), SkipWs(t[1..])[1..])
      else
        match ParseElements(t[1..])
        case Failed => Failed
        case Ok(items, rest) => Ok(Arr(items), rest)
    else if t[0] == '{' then
      if StartsWith(SkipWs(t[1..]), '}') then Ok(Obj([]), SkipWs(t[1..])[1..])
      else
        match ParseMembers(t[1..])
        case Failed => Failed
        case Ok(members, rest) => Ok(Obj(members), rest)
    else ParseScalar(t)
  }

  predicate StartsWith(s: string, c: char) { s != "" && s[0] == c }

  /** The elements of a non-empty array, up to and including its closing bracket. */
  function ParseElements(s: string): (r: Parsed<seq<Value>>)
    ensures r.Ok? ==> |r.rest| < |s|
    decreases |s|, 1
  {
    match ParseValue(s)
    case Failed => Failed
    case Ok(first, rest) =>
      var t := SkipWs(rest);
      if StartsWith(t, ']') then Ok([first], t[1..])
      else if StartsWith(t, ',') then
        match ParseElements(t[1..])
        case Failed => Failed
        case Ok(more, after) => Ok([first] + more, after)
      else Failed
  }

  function ParseMember(s: string): (r: Parsed<Member>)
    ensures r.Ok? ==> |r.rest| < |s|
    decreases |s|, 1
  {
    var t := SkipWs(s);
    if !StartsWith(t, '"') then Failed
    else
      match ParseChars(t[1..])
      case Failed => Failed
      case Ok(name, rest) =>
        var u := SkipWs(rest);
        if !StartsWith(u, ':') then Failed
        else
          match ParseValue(u[1..])
          case Failed => Failed
          case Ok(value, after) => Ok(Member(name, value), after)
  }

  /** The members of a non-empty object, up to and including its closing brace. */
  function ParseMembers(s: string): (r: Parsed<seq<Member>>)
    ensures r.Ok? ==> |r.rest| < |s|
    decreases |s|, 2
  {
    match ParseMember(s)
    case Failed => Failed
    case Ok(first, rest) =>
      var t := SkipWs(rest);
      if StartsWith(t, '}') then Ok([first], t[1..])
      else if StartsWith(t, ',') then
        match ParseMembers(t[1..])
        case Failed => Failed
        case Ok(more, after) => Ok([first] + more, after)
      else Failed
  }

  /** A whole text is one value with whitespace around it. */
  function Parse(s: string): Option<Value> {
    match ParseValue(s)
    case Failed => None
    case Ok(v, rest) => if SkipWs(rest) == "" then Some(v) else None
  }

  // ----- Writing by concatenation ----------------------------------------

  function Quote(s: string): string { "\"" + s + "\"" }

  function MemberText(before: string, name: string, text: string): string {
    before + Quote(name) + ": " + text
  }

  function CommaJoin(parts: seq<string>): string
    requires parts != []
  {
    Join(parts, ',')
  }

  function ArrayText(parts: seq<string>): string
    requires parts != []
  {
    "[" + CommaJoin(parts) + "]"
  }

  function ObjectText(parts: seq<string>): string
    requires parts != []
  {
    "{" + CommaJoin(parts) + "}"
  }

  // ----- What such texts read back as ------------------------------------

  /** The string can stand between quotes as it is. */
  predicate Clean(s: string) {
    forall i :: 0 <= i < |s| ==> s[i] != '"' && s[i] != '\\' && s[i] >= ' '
  }

  predicate IsWsText(s: string) {
    forall i :: 0 <= i < |s| ==> IsWs(s[i])
  }

  /** A continuation that ends a value. */
  predicate Ends(rest: string) {
    rest == "" || rest[0] in {',', ']', '}'}
  }

  /** A parser's answer: exactly `v` and what follows when `ok`, and anything but `v` otherwise. */
  predicate Gives<T(==)>(r: Parsed<T>, v: T, rest: string, ok: bool) {
    if ok then r == Ok(v, rest) else r.Failed? || r.result != v
  }

  /**
   Wherever `text` stands as a value, it is read as `v` if `ok`, and is not read
   as `v` otherwise.
   */
  ghost predicate Reads(text: string, v: Value, ok: bool) {
    forall rest :: Ends(rest) ==> Gives(ParseValue(text + rest), v, rest, ok)
  }

  predicate Starts(text: string) { text != "" && !IsWs(text[0]) }

  ghost predicate ReadsMember(text: string, m: Member, ok: bool) {
    forall rest :: Ends(rest) ==> Gives(ParseMember(text + rest), m, rest, ok)
  }

  predicate All(oks: seq<bool>) {
    forall i :: 0 <= i < |oks| ==> oks[i]
  }

  lemma {:induction false} SkipsWs(ws: string, t: string)
    requires IsWsText(ws) && (t == "" || !IsWs(t[0]))
    ensures SkipWs(ws + t) == t
    decreases |ws|
  {
    if ws == "" {
      assert ws + t == t;
    } else {
      assert (ws + t)[1..] == ws[1..] + t;
      SkipsWs(ws[1..], t);
    }
  }

  lemma NothingToSkip(t: string)
    requires t == "" || !IsWs(t[0])
    ensures SkipWs(t) == t
  {
  }

  lemma {:induction false} CharsRead(s: string, rest: string)
    requires Clean(s)
    ensures ParseChars(s + "\"" + rest) == Ok(s, rest)
    decreases |s|
  {
    var t := s + "\"" + rest;
    if s == "" {
      assert t[0] == '"' && t[1..] == rest;
    } else {
      assert t[1..] == s[1..] + "\"" + rest;
      CharsRead(s[1..], rest);
      assert s == [s[0]] + s[1..];
    }
  }

  /** Reading goes wrong at an escape, or after it. */
  lemma MisreadAtEscape(here: string, target: string)
    requires |here| >= 2 && here[0] == '\\' && target != ""
    requires Escaped(here[1]) == Some(target[0]) ==> Gives(ParseChars(here[2..]), target[1..], "", false)
    ensures Gives(ParseChars(here), target, "", false)
  {
    hide Escaped;
    var r := ParseChars(here);
    if r.Ok? {
      assert r.result[0] == Escaped(here[1]).value;
      assert r.result[1..] == ParseChars(here[2..]).result;
    }
  }

  /** Reading goes wrong at a character that stands for itself, or after it. */
  lemma MisreadAtPlain(here: string, target: string)
    requires here != "" && here[0] != '"' && here[0] != '\\' && here[0] >= ' ' && target != ""
    requires here[0] == target[0] ==> Gives(ParseChars(here[1..]), target[1..], "", false)
    ensures Gives(ParseChars(here), target, "", false)
  {
    var r := ParseChars(here);
    if r.Ok? {
      assert r.result[0] == here[0];
      assert r.result[1..] == ParseChars(here[1..]).result;
    }
  }

  lemma MisreadAtEnd(here: string, target: string)
    requires here != "" && (here[0] == '"' || here[0] < ' ') && target != ""
    ensures Gives(ParseChars(here), target, "", false)
  {
  }

  /**
   Once an escape has been read, the characters produced lag behind those
   consumed; they can only catch up by producing a quote, which the text read
   so far does not hold.
   */
  lemma {:induction false} CharsMisread(s: string, rest: string, done: nat, made: nat)
    requires made <= done <= |s| && '"' !in s[..done]
    requires made == done ==> !Clean(s[done..])
    ensures Gives(ParseChars((s + "\"" + rest)[done..]), s[made..], "", false)
    decreases |s| - done
  {
    hide ParseChars, Escaped;
    var t := s + "\"" + rest;
    var here, target := t[done..], s[made..];
    assert target[0] == s[made] && here[0] == t[done];
    if t[done] == '"' || t[done] < ' ' {
      MisreadAtEnd(here, target);
    } else if t[done] == '\\' {
      assert here[1] == t[done + 1];
      if Escaped(here[1]) == Some(target[0]) {
        QuoteEscape(here[1]);
        assert t[done + 1] != '"';
        assert here[2..] == t[done + 2..] && target[1..] == s[made + 1..];
        assert s[..done + 2] == s[..done] + [s[done], s[done + 1]];
        CharsMisread(s, rest, done + 2, made + 1);
      }
      MisreadAtEscape(here, target);
    } else {
      if here[0] == target[0] {
        assert here[1..] == t[done + 1..] && target[1..] == s[made + 1..];
        assert s[..done + 1] == s[..done] + [s[done]];
        assert s[done..] == [s[done]] + s[done + 1..];
        CharsMisread(s, rest, done + 1, made + 1);
      }
      MisreadAtPlain(here, target);
    }
  }

  lemma QuoteEscape(c: char)
    ensures Escaped(c) == Some('"') <==> c == '"'
  {
  }

  /** A quoted string is read back as itself exactly when it is clean. */
  lemma QuoteReads(s: string)
    ensures Reads(Quote(s), Str(s), Clean(s)) && Starts(Quote(s))
  {
    hide ParseElements, ParseMembers, ParseScalar, ParseChars;
    forall rest | Ends(rest)
      ensures Gives(ParseValue(Quote(s) + rest), Str(s), rest, Clean(s))
    {
      var t := Quote(s) + rest;
      NothingToSkip(t);
      var u := s + "\"" + rest;
      assert t[1..] == u;
      if Clean(s) {
        CharsRead(s, rest);
      } else {
        assert u[0..] == u && s[0..] == s;
        CharsMisread(s, rest, 0, 0);
      }
    }
  }

  /** Whitespace in front changes nothing. */
  lemma PaddedReads(before: string, text: string, v: Value, ok: bool)
    requires Reads(text, v, ok) && IsWsText(before) && Starts(text)
    ensures Reads(before + text, v, ok)
  {
    hide ParseChars, ParseElements, ParseMembers, ParseScalar;
    forall rest | Ends(rest)
      ensures Gives(ParseValue(before + text + rest), v, rest, ok)
    {
      assert before + text + rest == before + (text + rest);
      SkipsWs(before, text + rest);
      NothingToSkip(text + rest);
      assert Gives(ParseValue(text + rest), v, rest, ok);
    }
  }

  /** What follows a member's name is read as its value. */
  lemma AfterNameReads(text: string, v: Value, ok: bool, rest: string)
    requires Reads(text, v, ok) && Starts(text) && Ends(rest)
    ensures var u := ": " + text + rest;
            SkipWs(u) == u && u[0] == ':' && Gives(ParseValue(u[1..]), v, rest, ok)
  {
    hide ParseValue, Ends, Starts;
    PaddedReads(" ", text, v, ok);
    var u := ": " + text + rest;
    NothingToSkip(u);
    assert u[1..] == " " + text + rest;
    ReadsBefore(" " + text, v, ok, rest);
  }

  /** A name is read up to what follows its closing quote. */
  lemma NameReads(before: string, name: string, u: string)
    requires IsWsText(before) && Clean(name)
    ensures var t := SkipWs(before + Quote(name) + u);
            StartsWith(t, '"') && ParseChars(t[1..]) == Ok(name, u)
  {
    hide ParseChars, Clean;
    var t := Quote(name) + u;
    assert before + Quote(name) + u == before + t;
    SkipsWs(before, t);
    assert t[1..] == name + "\"" + u;
    CharsRead(name, u);
  }

  lemma MemberReads(before: string, name: string, text: string, v: Value, ok: bool)
    requires IsWsText(before) && Clean(name) && Reads(text, v, ok) && Starts(text)
    ensures ReadsMember(MemberText(before, name, text), Member(name, v), ok)
  {
    hide ParseChars, ParseValue, SkipWs, Quote, Reads, Ends, Starts, Clean;
    forall rest | Ends(rest)
      ensures Gives(ParseMember(MemberText(before, name, text) + rest), Member(name, v), rest, ok)
    {
      var u := ": " + text + rest;
      assert MemberText(before, name, text) + rest == before + Quote(name) + u;
      NameReads(before, name, u);
      AfterNameReads(text, v, ok, rest);
    }
  }

  lemma ReadsBefore(text: string, v: Value, ok: bool, after: string)
    requires Reads(text, v, ok) && Ends(after)
    ensures Gives(ParseValue(text + after), v, after, ok)
  {
  }

  lemma ReadsMemberBefore(text: string, m: Member, ok: bool, after: string)
    requires ReadsMember(text, m, ok) && Ends(after)
    ensures Gives(ParseMember(text + after), m, after, ok)
  {
  }

  lemma LastElement(s: string, v: Value, ok: bool, rest: string)
    requires Gives(ParseValue(s), v, "]" + rest, ok)
    ensures Gives(ParseElements(s), [v], rest, ok)
  {
    hide ParseValue;
    var after := "]" + rest;
    NothingToSkip(after);
    assert after[1..] == rest;
    assert ParseElements(s).Ok? ==> ParseElements(s).result[0] == ParseValue(s).result;
  }

  lemma FirstElement(s: string, v: Value, ok: bool, next: string, more: seq<Value>, oks: bool, rest: string)
    requires Gives(ParseValue(s), v, "," + next, ok) && Gives(ParseElements(next), more, rest, oks)
    ensures Gives(ParseElements(s), [v] + more, rest, ok && oks)
  {
    hide ParseValue;
    var after := "," + next;
    NothingToSkip(after);
    assert after[1..] == next;
    var r, all := ParseElements(s), [v] + more;
    assert all[0] == v && all[1..] == more;
    if r.Ok? {
      assert r.result[0] == ParseValue(s).result;
      assert ok ==> r.result[1..] == ParseElements(next).result;
    }
  }

  lemma {:induction false} ElementsRead(parts: seq<string>, vs: seq<Value>, oks: seq<bool>, rest: string)
    requires |parts| == |vs| == |oks| > 0
    requires forall i :: 0 <= i < |parts| ==> Reads(parts[i], vs[i], oks[i])
    ensures Gives(ParseElements(CommaJoin(parts) + "]" + rest), vs, rest, All(oks))
    decreases |parts|
  {
    hide ParseValue, ParseElements, Reads, Gives;
    var s := CommaJoin(parts) + "]" + rest;
    if |parts| == 1 {
      ReadsBefore(parts[0], vs[0], oks[0], "]" + rest);
      assert s == parts[0] + ("]" + rest);
      LastElement(s, vs[0], oks[0], rest);
      assert vs == [vs[0]] && oks == [oks[0]];
    } else {
      var next := CommaJoin(parts[1..]) + "]" + rest;
      ReadsBefore(parts[0], vs[0], oks[0], "," + next);
      assert s == parts[0] + ("," + next);
      ElementsRead(parts[1..], vs[1..], oks[1..], rest);
      FirstElement(s, vs[0], oks[0], next, vs[1..], All(oks[1..]), rest);
      assert vs == [vs[0]] + vs[1..] && oks == [oks[0]] + oks[1..];
    }
  }

  lemma LastMember(s: string, m: Member, ok: bool, rest: string)
    requires Gives(ParseMember(s), m, "}" + rest, ok)
    ensures Gives(ParseMembers(s), [m], rest, ok)
  {
    hide ParseMember;
    var after := "}" + rest;
    NothingToSkip(after);
    assert after[1..] == rest;
    assert ParseMembers(s).Ok? ==> ParseMembers(s).result[0] == ParseMember(s).result;
  }

  lemma FirstMember(s: string, m: Member, ok: bool, next: string, more: seq<Member>, oks: bool, rest: string)
    requires Gives(ParseMember(s), m, "," + next, ok) && Gives(ParseMembers(next), more, rest, oks)
    ensures Gives(ParseMembers(s), [m] + more, rest, ok && oks)
  {
    hide ParseMember;
    var after := "," + next;
    NothingToSkip(after);
    assert after[1..] == next;
    var r, all := ParseMembers(s), [m] + more;
    assert all[0] == m && all[1..] == more;
    if r.Ok? {
      assert r.result[0] == ParseMember(s).result;
      assert ok ==> r.result[1..] == ParseMembers(next).result;
    }
  }

  lemma {:induction false} MembersRead(parts: seq<string>, ms: seq<Member>, oks: seq<bool>, rest: string)
    requires |parts| == |ms| == |oks| > 0
    requires forall i :: 0 <= i < |parts| ==> ReadsMember(parts[i], ms[i], oks[i])
    ensures Gives(ParseMembers(CommaJoin(parts) + "}" + rest), ms, rest, All(oks))
    decreases |parts|
  {
    hide ParseMember, ParseMembers, ReadsMember, Gives;
    var s := CommaJoin(parts) + "}" + rest;
    if |parts| == 1 {
      ReadsMemberBefore(parts[0], ms[0], oks[0], "}" + rest);
      assert s == parts[0] + ("}" + rest);
      LastMember(s, ms[0], oks[0], rest);
      assert ms == [ms[0]] && oks == [oks[0]];
    } else {
      var next := CommaJoin(parts[1..]) + "}" + rest;
      ReadsMemberBefore(parts[0], ms[0], oks[0], "," + next);
      assert s == parts[0] + ("," + next);
      MembersRead(parts[1..], ms[1..], oks[1..], rest);
      FirstMember(s, ms[0], oks[0], next, ms[1..], All(oks[1..]), rest);
      assert ms == [ms[0]] + ms[1..] && oks == [oks[0]] + oks[1..];
    }
  }

  lemma ReadsIntro(text: string, v: Value, ok: bool)
    requires forall rest :: Ends(rest) ==> Gives(ParseValue(text + rest), v, rest, ok)
    ensures Reads(text, v, ok)
  {
  }

  /** What reads as elements does not begin with a closing bracket. */
  lemma ElementsNotClosed(s: string)
    requires StartsWith(SkipWs(s), ']')
    ensures ParseElements(s).Failed?
  {
    hide ParseChars, ParseMembers, ParseScalar, SkipWs;
    assert ParseValue(s).Failed?;
  }

  /** What reads as members does not begin with a closing brace. */
  lemma MembersNotClosed(s: string)
    requires StartsWith(SkipWs(s), '}')
    ensures ParseMembers(s).Failed?
  {
    hide ParseChars, ParseValue, SkipWs;
    assert ParseMember(s).Failed?;
  }

  /** A bracketed list is read as the array of its values exactly when each part is. */
  lemma ArrayReads(parts: seq<string>, vs: seq<Value>, oks: seq<bool>)
    requires |parts| == |vs| == |oks| > 0
    requires forall i :: 0 <= i < |parts| ==> Reads(parts[i], vs[i], oks[i])
    ensures Reads(ArrayText(parts), Arr(vs), All(oks)) && Starts(ArrayText(parts))
  {
    hide Reads, All, CommaJoin, ParseElements, ParseMembers, ParseChars, ParseScalar;
    forall rest | Ends(rest)
      ensures Gives(ParseValue(ArrayText(parts) + rest), Arr(vs), rest, All(oks))
    {
      var t := ArrayText(parts) + rest;
      NothingToSkip(t);
      assert t[1..] == CommaJoin(parts) + "]" + rest;
      ElementsRead(parts, vs, oks, rest);
      if StartsWith(SkipWs(t[1..]), ']') {
        ElementsNotClosed(t[1..]);
      }
    }
    ReadsIntro(ArrayText(parts), Arr(vs), All(oks));
  }

  lemma ObjectReads(parts: seq<string>, ms: seq<Member>, oks: seq<bool>)
    requires |parts| == |ms| == |oks| > 0
    requires forall i :: 0 <= i < |parts| ==> ReadsMember(parts[i], ms[i], oks[i])
    ensures Reads(ObjectText(parts), Obj(ms), All(oks)) && Starts(ObjectText(parts))
  {
    hide ReadsMember, Reads, All, CommaJoin, ParseElements, ParseMembers, ParseChars, ParseScalar;
    forall rest | Ends(rest)
      ensures Gives(ParseValue(ObjectText(parts) + rest), Obj(ms), rest, All(oks))
    {
      var t := ObjectText(parts) + rest;
      NothingToSkip(t);
      assert t[1..] == CommaJoin(parts) + "}" + rest;
      MembersRead(parts, ms, oks, rest);
      if StartsWith(SkipWs(t[1..]), '}') {
        MembersNotClosed(t[1..]);
      }
    }
    ReadsIntro(ObjectText(parts), Obj(ms), All(oks));
  }

  lemma {:induction false} DigitsEndAt(d: string, rest: string)
    requires Ends(rest) && forall i :: 0 <= i < |d| ==> IsDigit(d[i])
    ensures DigitsEnd(d + rest) == |d|
    decreases |d|
  {
    if d == "" {
      assert d + rest == rest;
    } else {
      assert (d + rest)[1..] == d[1..] + rest;
      DigitsEndAt(d[1..], rest);
    }
  }

  lemma NumberScalar(n: nat, rest: string)
    requires Ends(rest)
    ensures ParseScalar(Digits(n) + rest) == Ok(Number(n), rest)
    ensures IsDigit(Digits(n)[0])
  {
    hide DigitsValue, Digits;
    DigitsRead(n);
    var d := Digits(n);
    var t := d + rest;
    DigitsEndAt(d, rest);
    assert t[..|d|] == d && t[|d|..] == rest;
    assert t[0] == d[0];
  }

  lemma NumberReads(n: nat)
    ensures Reads(Digits(n), Number(n), true) && Starts(Digits(n))
  {
    hide ParseElements, ParseMembers, ParseChars, ParseScalar, Digits;
    forall rest | Ends(rest)
      ensures Gives(ParseValue(Digits(n) + rest), Number(n), rest, true)
    {
      NumberScalar(n, rest);
      assert (Digits(n) + rest)[0] == Digits(n)[0];
      NothingToSkip(Digits(n) + rest);
    }
    NumberScalar(n, "");
  }

  lemma TrueReads()
    ensures Reads("true", Bool(true), true) && Starts("true")
  {
    hide ParseElements, ParseMembers, ParseChars, ParseNumber;
    forall rest | Ends(rest)
      ensures Gives(ParseValue("true" + rest), Bool(true), rest, true)
    {
      var t := "true" + rest;
      NothingToSkip(t);
      assert t[..4] == "true" && t[4..] == rest;
    }
  }

  /** The other two literal names. */
  lemma LiteralsRead()
    ensures Reads("false", Bool(false), true) && Reads("null", Null, true)
  {
    hide ParseElements, ParseMembers, ParseChars, ParseNumber;
    forall rest | Ends(rest)
      ensures Gives(ParseValue("false" + rest), Bool(false), rest, true)
      ensures Gives(ParseValue("null" + rest), Null, rest, true)
    {
      var f, n := "false" + rest, "null" + rest;
      NothingToSkip(f);
      NothingToSkip(n);
      assert f[..5] == "false" && f[5..] == rest;
      assert n[..4] == "null" && n[4..] == rest;
    }
  }

  // ----- Escapes ---------------------------------------------------------

  /** A character as section 7 lets it be written: by itself, or by its two-character escape. */
  function EscapeOf(c: char): string {
    match c
    case '"' => "\\\""
    case '\\' => "\\\\"
    case '/' => "\\/"
    case '\U{08}' => "\\b"
    case '\U{0C}' => "\\f"
    case '\n' => "\\n"
    case '\r' => "\\r"
    case '\t' => "\\t"
    case _ => [c]
  }

  function EscapeString(s: string): string {
    if s == "" then "" else EscapeOf(s[0]) + EscapeString(s[1..])
  }

  /** Every character can be written: no control character without an escape of its own. */
  predicate IsWritable(s: string) {
    forall i :: 0 <= i < |s| ==> s[i] >= ' ' || |EscapeOf(s[i])| == 2
  }

  lemma EscapeInverse(c: char)
    ensures var e := EscapeOf(c);
            if |e| == 2 then e[0] == '\\' && Escaped(e[1]) == Some(c) else e == [c] && c != '"' && c != '\\'
  {
  }

  lemma EscapeReads(c: char, next: string, tail: string, rest: string)
    requires (c >= ' ' || |EscapeOf(c)| == 2) && ParseChars(next) == Ok(tail, rest)
    ensures ParseChars(EscapeOf(c) + next) == Ok([c] + tail, rest)
  {
    hide EscapeOf, Escaped;
    EscapeInverse(c);
    var e := EscapeOf(c);
    var t := e + next;
    assert t[|e|..] == next;
    if |e| == 2 {
      assert t[0] == '\\' && t[1] == e[1];
    } else {
      assert t[0] == c;
    }
  }

  /** Escaped strings read back as what they were, quotes, backslashes and all. */
  lemma {:induction false} EscapesRead(s: string, rest: string)
    requires IsWritable(s)
    ensures ParseChars(EscapeString(s) + "\"" + rest) == Ok(s, rest)
    decreases |s|
  {
    hide EscapeOf;
    if s == "" {
      CharsRead("", rest);
    } else {
      hide ParseChars;
      var next := EscapeString(s[1..]) + "\"" + rest;
      EscapesRead(s[1..], rest);
      EscapeReads(s[0], next, s[1..], rest);
      assert EscapeString(s) + "\"" + rest == EscapeOf(s[0]) + next;
      assert s == [s[0]] + s[1..];
    }
  }

  lemma ReadsParses(text: string, v: Value, ok: bool)
    requires Reads(text, v, ok)
    ensures Parse(text) == Some(v) <==> ok
  {
    hide ParseValue;
    assert text + "" == text;
    ReadsBefore(text, v, ok, "");
  }
}
