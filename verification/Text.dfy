/**
 The text primitives the Go and Java sources rely on: splitting on whitespace
 and on a separator, trimming, and printing integers in decimal and in
 hexadecimal, each with the lemmas that relate printing to reading back.
 */
module Text {

  datatype Option<+T> = None | Some(value: T)

  type Bytes = seq<bv8>

  function OrEmpty(o: Option<string>): string {
    match o
    case Some(s) => s
    case None => ""
  }

  // ----- Whitespace ------------------------------------------------------

  predicate IsSpace(c: char) {
    || c == ' ' || '\t' <= c <= '\r' || c == '\U{85}' || c == '\U{A0}' || c == '\U{1680}'
    || '\U{2000}' <= c <= '\U{200A}' || c == '\U{2028}' || c == '\U{2029}'
    || c == '\U{202F}' || c == '\U{205F}' || c == '\U{3000}'
  }

  predicate IsWord(w: string) {
    w != "" && forall i :: 0 <= i < |w| ==> !IsSpace(w[i])
  }

  predicate IsBlank(s: string) {
    forall i :: 0 <= i < |s| ==> IsSpace(s[i])
  }

  /** The length of the longest prefix of `s` without whitespace. */
  function WordEnd(s: string): (n: nat)
    ensures n <= |s|
    ensures forall i :: 0 <= i < n ==> !IsSpace(s[i])
    ensures n < |s| ==> IsSpace(s[n])
  {
    if s == "" || IsSpace(s[0]) then 0 else 1 + WordEnd(s[1..])
  }

  /** `strings.Fields`: the maximal runs of non-space characters. */
  function Fields(s: string): seq<string> {
    if s == "" then []
    else if IsSpace(s[0]) then Fields(s[1..])
    else
      var n := WordEnd(s);
      assert n > 0;
      [s[..n]] + Fields(s[n..])
  }

  /** Words separated by single spaces. */
  function Line(ws: seq<string>): string
    requires ws != []
  {
    if |ws| == 1 then ws[0] else ws[0] + " " + Line(ws[1..])
  }

  lemma WordEndUnique(s: string, n: nat)
    requires n <= |s| && (forall i :: 0 <= i < n ==> !IsSpace(s[i]))
    requires n < |s| ==> IsSpace(s[n])
    ensures WordEnd(s) == n
  {
  }

  lemma {:induction false} FieldsConcat(a: string, b: string)
    ensures Fields(a + " " + b) == Fields(a) + Fields(b)
    decreases |a|
  {
    var t := a + " " + b;
    if a == "" {
      assert t[1..] == b;
    } else if IsSpace(a[0]) {
      assert t[1..] == a[1..] + " " + b;
      FieldsConcat(a[1..], b);
    } else {
      var n := WordEnd(a);
      WordEndUnique(t, n);
      assert t[..n] == a[..n];
      assert t[n..] == a[n..] + " " + b;
      FieldsConcat(a[n..], b);
      assert Fields(a) == [a[..n]] + Fields(a[n..]);
      assert Fields(t) == [a[..n]] + (Fields(a[n..]) + Fields(b));
    }
  }

  lemma FieldsWord(w: string)
    requires IsWord(w)
    ensures Fields(w) == [w]
  {
    WordEndUnique(w, |w|);
    assert w[|w|..] == "" && w[..|w|] == w;
  }

  lemma {:induction false} FieldsLine(ws: seq<string>)
    requires ws != [] && forall i :: 0 <= i < |ws| ==> IsWord(ws[i])
    ensures Fields(Line(ws)) == ws
  {
    FieldsWord(ws[0]);
    if |ws| > 1 {
      FieldsConcat(ws[0], Line(ws[1..]));
      FieldsLine(ws[1..]);
    }
  }

  lemma {:induction false} FieldsOfBlank(s: string)
    requires IsBlank(s)
    ensures Fields(s) == []
  {
    if s != "" { FieldsOfBlank(s[1..]); }
  }

  lemma {:induction false} FieldsTrailing(w: string, right: string)
    requires IsWord(w) && IsBlank(right)
    ensures Fields(w + right) == [w]
  {
    var t := w + right;
    WordEndUnique(t, |w|);
    assert t[..|w|] == w && t[|w|..] == right;
    FieldsOfBlank(right);
  }

  lemma {:induction false} FieldsPadded(left: string, w: string, right: string)
    requires IsBlank(left) && IsWord(w) && IsBlank(right)
    ensures Fields(left + w + right) == [w]
    decreases |left|
  {
    if left == "" {
      assert left + w + right == w + right;
      FieldsTrailing(w, right);
    } else {
      assert (left + w + right)[1..] == left[1..] + w + right;
      FieldsPadded(left[1..], w, right);
    }
  }

  // ----- Trimming --------------------------------------------------------

  function TrimLeft(s: string): string {
    if s != "" && IsSpace(s[0]) then TrimLeft(s[1..]) else s
  }

  function TrimRight(s: string): string {
    if s != "" && IsSpace(s[|s| - 1]) then TrimRight(s[..|s| - 1]) else s
  }

  /** `strings.TrimSpace`. */
  function TrimSpace(s: string): string {
    TrimRight(TrimLeft(s))
  }

  /** Empty, or without whitespace at its ends. */
  predicate IsTrim(s: string) {
    s == "" || (!IsSpace(s[0]) && !IsSpace(s[|s| - 1]))
  }

  lemma {:induction false} TrimLeftDrops(left: string, rest: string)
    requires IsBlank(left) && (rest == "" || !IsSpace(rest[0]))
    ensures TrimLeft(left + rest) == rest
    decreases |left|
  {
    if left == "" {
      assert left + rest == rest;
    } else {
      assert (left + rest)[1..] == left[1..] + rest;
      TrimLeftDrops(left[1..], rest);
    }
  }

  lemma {:induction false} TrimRightDrops(rest: string, right: string)
    requires IsBlank(right) && (rest == "" || !IsSpace(rest[|rest| - 1]))
    ensures TrimRight(rest + right) == rest
    decreases |right|
  {
    if right == "" {
      assert rest + right == rest;
    } else {
      var n := |rest + right| - 1;
      assert (rest + right)[..n] == rest + right[..|right| - 1];
      TrimRightDrops(rest, right[..|right| - 1]);
    }
  }

  /** Trimming removes the whitespace around, and nothing else. */
  lemma TrimSpaceKeeps(left: string, core: string, right: string)
    requires IsBlank(left) && IsTrim(core) && IsBlank(right)
    ensures TrimSpace(left + core + right) == core
  {
    hide IsSpace;
    if core == "" {
      assert left + core + right == (left + right) + "";
      TrimLeftDrops(left + right, "");
      assert TrimRight("") == "";
    } else {
      assert left + core + right == left + (core + right);
      TrimLeftDrops(left, core + right);
      TrimRightDrops(core, right);
    }
  }

  /** Every text is of that form. */
  lemma {:induction false} TrimForm(s: string) returns (left: string, core: string, right: string)
    ensures IsBlank(left) && IsTrim(core) && IsBlank(right) && s == left + core + right
    decreases |s|
  {
    hide IsSpace;
    if s != "" && IsSpace(s[0]) {
      var l;
      l, core, right := TrimForm(s[1..]);
      left := [s[0]] + l;
      assert s == [s[0]] + s[1..];
    } else if s != "" && IsSpace(s[|s| - 1]) {
      var r;
      left, core, r := TrimForm(s[..|s| - 1]);
      right := r + [s[|s| - 1]];
      assert s == s[..|s| - 1] + [s[|s| - 1]];
    } else {
      left, core, right := "", s, "";
      assert s == "" + s + "";
    }
  }

  // ----- Splitting on a separator ----------------------------------------

  /** `strings.Split` for a one-character separator. */
  function Split(s: string, sep: char): (r: seq<string>)
    ensures r != []
  {
    if s == "" then [""]
    else if s[0] == sep then [""] + Split(s[1..], sep)
    else
      var r := Split(s[1..], sep);
      [[s[0]] + r[0]] + r[1..]
  }

  function Join(parts: seq<string>, sep: char): string
    requires parts != []
  {
    if |parts| == 1 then parts[0] else parts[0] + [sep] + Join(parts[1..], sep)
  }

  lemma {:induction false} SplitPart(a: string, rest: string, sep: char)
    requires sep !in a
    ensures Split(a, sep) == [a]
    ensures Split(a + [sep] + rest, sep) == [a] + Split(rest, sep)
    decreases |a|
  {
    var t := a + [sep] + rest;
    if a == "" {
      assert t[1..] == rest;
    } else {
      assert t[1..] == a[1..] + [sep] + rest;
      SplitPart(a[1..], rest, sep);
      assert a == [a[0]] + a[1..];
    }
  }

  lemma {:induction false} SplitJoin(parts: seq<string>, sep: char)
    requires parts != [] && forall i :: 0 <= i < |parts| ==> sep !in parts[i]
    ensures Split(Join(parts, sep), sep) == parts
    decreases |parts|
  {
    if |parts| == 1 {
      SplitPart(parts[0], "", sep);
    } else {
      SplitPart(parts[0], Join(parts[1..], sep), sep);
      SplitJoin(parts[1..], sep);
    }
  }

  /** Splitting at one of the separators splits both sides. */
  lemma {:induction false} SplitAt(a: string, b: string, sep: char)
    ensures Split(a + [sep] + b, sep) == Split(a, sep) + Split(b, sep)
    decreases |a|
  {
    var t := a + [sep] + b;
    if a == "" {
      assert t[1..] == b;
    } else {
      assert t[1..] == a[1..] + [sep] + b;
      SplitAt(a[1..], b, sep);
    }
  }

  lemma {:induction false} PartsHaveNoSeparator(s: string, sep: char)
    ensures forall i :: 0 <= i < |Split(s, sep)| ==> sep !in Split(s, sep)[i]
  {
    if s != "" {
      PartsHaveNoSeparator(s[1..], sep);
    }
  }

  lemma {:induction false} JoinSplit(s: string, sep: char)
    ensures Join(Split(s, sep), sep) == s
  {
    if s != "" {
      JoinSplit(s[1..], sep);
      var r := Split(s[1..], sep);
      if s[0] == sep {
        assert Split(s, sep)[1..] == r;
      } else {
        assert Split(s, sep)[1..] == r[1..];
      }
    }
  }

  // ----- Decimal numbers -------------------------------------------------

  predicate IsDigit(c: char) { '0' <= c <= '9' }

  function Digits(n: nat): (s: string)
    ensures s != ""
  {
    if n < 10 then [('0' as int + n) as char]
    else Digits(n / 10) + [('0' as int + n % 10) as char]
  }

  /** `%d`. */
  function Decimal(i: int): string {
    if i < 0 then "-" + Digits(-i) else Digits(i)
  }

  function DigitValue(c: char): nat
    requires IsDigit(c)
  {
    c as int - '0' as int
  }

  function DigitsValue(s: string): nat
    requires forall i :: 0 <= i < |s| ==> IsDigit(s[i])
  {
    if s == "" then 0
    else 10 * DigitsValue(s[..|s| - 1]) + DigitValue(s[|s| - 1])
  }

  /** Reads a decimal number written without a sign and without leading zeros. */
  function ParseDecimal(s: string): Option<nat> {
    if s == "" || (exists i :: 0 <= i < |s| && !IsDigit(s[i])) then None
    else if |s| > 1 && s[0] == '0' then None
    else Some(DigitsValue(s))
  }

  lemma {:induction false} DigitsRead(n: nat)
    ensures forall i :: 0 <= i < |Digits(n)| ==> IsDigit(Digits(n)[i])
    ensures DigitsValue(Digits(n)) == n
    ensures n > 0 ==> Digits(n)[0] != '0'
    ensures n == 0 ==> Digits(n) == "0"
  {
    if n >= 10 {
      DigitsRead(n / 10);
      assert Digits(n)[..|Digits(n)| - 1] == Digits(n / 10);
    }
  }

  lemma ParseDecimalRoundTrip(i: int)
    ensures ParseDecimal(Decimal(i)) == if i < 0 then None else Some(i)
  {
    if i < 0 {
      assert !IsDigit(Decimal(i)[0]);
    } else {
      DigitsRead(i);
    }
  }

  lemma DecimalIsWord(i: int)
    ensures IsWord(Decimal(i))
  {
    DigitsRead(if i < 0 then -i else i);
  }

  // ----- Hexadecimal numbers ---------------------------------------------

  function HexDigit(d: nat): char
    requires d < 16
  {
    if d < 10 then ('0' as int + d) as char else ('a' as int + d - 10) as char
  }

  predicate IsHexDigit(c: char) { '0' <= c <= '9' || 'a' <= c <= 'f' }

  function HexDigitValue(c: char): (d: nat)
    requires IsHexDigit(c)
    ensures d < 16 && HexDigit(d) == c
  {
    if c <= '9' then c as int - '0' as int else c as int - 'a' as int + 10
  }

  function HexDigits(n: nat): (s: string)
    ensures s != ""
  {
    if n < 16 then [HexDigit(n)] else HexDigits(n / 16) + [HexDigit(n % 16)]
  }

  /** `%x`, which prints the sign of a negative number before its digits. */
  function Hex(i: int): string {
    if i < 0 then "-" + HexDigits(-i) else HexDigits(i)
  }

  function HexValue(s: string): nat
    requires forall i :: 0 <= i < |s| ==> IsHexDigit(s[i])
  {
    if s == "" then 0 else 16 * HexValue(s[..|s| - 1]) + HexDigitValue(s[|s| - 1])
  }

  /** Reads `0x` followed by hexadecimal digits. */
  function ParseHex(s: string): Option<nat> {
    if |s| < 3 || s[0] != '0' || s[1] != 'x' then None
    else if exists i :: 2 <= i < |s| && !IsHexDigit(s[i]) then None
    else Some(HexValue(s[2..]))
  }

  lemma {:induction false} HexDigitsRead(n: nat)
    ensures forall i :: 0 <= i < |HexDigits(n)| ==> IsHexDigit(HexDigits(n)[i])
    ensures HexValue(HexDigits(n)) == n
  {
    if n >= 16 {
      HexDigitsRead(n / 16);
      assert HexDigits(n)[..|HexDigits(n)| - 1] == HexDigits(n / 16);
    }
  }

  lemma ParseHexRoundTrip(i: int)
    ensures ParseHex("0x" + Hex(i)) == if i < 0 then None else Some(i)
  {
    var s := "0x" + Hex(i);
    assert s[2..] == Hex(i);
    if i < 0 {
      assert !IsHexDigit(s[2]);
    } else {
      HexDigitsRead(i);
    }
  }

  lemma HexChars(i: int)
    ensures IsWord(Hex(i)) && '/' !in Hex(i)
  {
    HexDigitsRead(if i < 0 then -i else i);
  }
}
