/**
 * The fragment of JavaScript value semantics the application relies on:
 * truthiness, strict equality on primitives, `||` fallbacks on request-body
 * properties, and the string built-ins `trim`, `includes`, `split`,
 * `toUpperCase` and decimal conversion.
 */
module Js {

  /** A JavaScript number, restricted to integral values and NaN. */
  datatype Number = NaN | Int(i: int)

  /** The primitive values that reach the server where the source fixes no type. */
  datatype Value = Undefined | Null | Bool(b: bool) | Num(n: Number) | Str(s: string)

  /** `0` and `NaN` are falsy; every other number is truthy. */
  predicate NumberTruthy(n: Number) {
    n.Int? && n.i != 0
  }

  /** `undefined`, `null`, `false`, `0`, `NaN` and `""` are falsy. */
  predicate Truthy(v: Value) {
    match v
    case Undefined => false
    case Null => false
    case Bool(b) => b
    case Num(n) => NumberTruthy(n)
    case Str(s) => s != ""
  }

  /** `===` on primitives: structural equality, except that NaN is not equal to itself. */
  predicate StrictEquals(a: Value, b: Value) {
    a == b && a != Num(NaN)
  }

  /** A property of a parsed JSON object: absent, `null`, or given. */
  datatype Field<T> = Missing | Nil | Given(value: T)

  /** A string property is truthy when it is given and not empty. */
  predicate StringTruthy(x: Field<string>) {
    x.Given? && x.value != ""
  }

  /** An array or object property is truthy whenever it is given, even when it is empty. */
  predicate Present<T>(x: Field<T>) {
    x.Given?
  }

  /** `x || fallback` for a string property. */
  function OrString(x: Field<string>, fallback: string): string {
    if StringTruthy(x) then x.value else fallback
  }

  /** `x || fallback` for an array or object property. */
  function OrElse<T>(x: Field<T>, fallback: T): T {
    if Present(x) then x.value else fallback
  }

  // ---------------------------------------------------------------- strings

  /** The characters `String.prototype.trim` removes: WhiteSpace and LineTerminator. */
  predicate IsWhiteSpace(c: char) {
    var k := c as int;
    k == 0x09 || k == 0x0A || k == 0x0B || k == 0x0C || k == 0x0D || k == 0x20
    || k == 0xA0 || k == 0x1680 || (0x2000 <= k <= 0x200A) || k == 0x2028
    || k == 0x2029 || k == 0x202F || k == 0x205F || k == 0x3000 || k == 0xFEFF
  }

  function TrimStart(s: string): string {
    if s != [] && IsWhiteSpace(s[0]) then TrimStart(s[1..]) else s
  }

  function TrimEnd(s: string): string {
    if s != [] && IsWhiteSpace(s[|s| - 1]) then TrimEnd(s[..|s| - 1]) else s
  }

  /** `s.trim()`. */
  function Trim(s: string): string {
    TrimEnd(TrimStart(s))
  }

  predicate AllWhiteSpace(s: string) {
    forall i :: 0 <= i < |s| ==> IsWhiteSpace(s[i])
  }

  /** `TrimStart` drops a whitespace prefix and keeps the rest. */
  lemma {:induction false} TrimStartShape(s: string)
    ensures |TrimStart(s)| <= |s|
    ensures TrimStart(s) == s[|s| - |TrimStart(s)|..]
    ensures AllWhiteSpace(s[..|s| - |TrimStart(s)|])
    ensures TrimStart(s) != [] ==> !IsWhiteSpace(TrimStart(s)[0])
    decreases |s|
  {
    if s != [] && IsWhiteSpace(s[0]) {
      TrimStartShape(s[1..]);
      var k := |s| - |TrimStart(s)|;
      assert s[1..][k - 1..] == s[k..];
      assert s[..k] == [s[0]] + s[1..][..k - 1];
    }
  }

  /** `TrimEnd` drops a whitespace suffix and keeps the rest. */
  lemma {:induction false} TrimEndShape(s: string)
    ensures |TrimEnd(s)| <= |s|
    ensures TrimEnd(s) == s[..|TrimEnd(s)|]
    ensures AllWhiteSpace(s[|TrimEnd(s)|..])
    ensures TrimEnd(s) != [] ==> !IsWhiteSpace(TrimEnd(s)[|TrimEnd(s)| - 1])
    decreases |s|
  {
    if s != [] && IsWhiteSpace(s[|s| - 1]) {
      var p := s[..|s| - 1];
      TrimEndShape(p);
      var k := |TrimEnd(s)|;
      assert p[..k] == s[..k];
      assert s[k..] == p[k..] + [s[|s| - 1]];
    }
  }

  /**
   * `s.trim()` is the part of `s` between a whitespace prefix and a whitespace
   * suffix, and it neither starts nor ends with whitespace.
   */
  lemma TrimShape(s: string)
    ensures exists i, j :: 0 <= i <= j <= |s| && Trim(s) == s[i..j]
                           && AllWhiteSpace(s[..i]) && AllWhiteSpace(s[j..])
    ensures Trim(s) != [] ==> !IsWhiteSpace(Trim(s)[0]) && !IsWhiteSpace(Trim(s)[|Trim(s)| - 1])
  {
    TrimStartShape(s);
    var t := TrimStart(s);
    var i := |s| - |t|;
    TrimEndShape(t);
    var k := |TrimEnd(t)|;
    assert Trim(s) == s[i..i + k];
    assert s[i + k..] == t[k..];
    if Trim(s) != [] {
      assert Trim(s)[0] == t[0];
    }
  }

  /** `s.trim() !== ""` exactly when `s` holds a character that is not whitespace. */
  lemma TrimEmptyIff(s: string)
    ensures Trim(s) == "" <==> AllWhiteSpace(s)
  {
    TrimShape(s);
    var i, j :| 0 <= i <= j <= |s| && Trim(s) == s[i..j] && AllWhiteSpace(s[..i]) && AllWhiteSpace(s[j..]);
    if Trim(s) == "" {
      forall n | 0 <= n < |s| ensures IsWhiteSpace(s[n]) {
        if n < i { assert s[n] == s[..i][n]; } else { assert s[n] == s[j..][n - j]; }
      }
    } else {
      assert !IsWhiteSpace(s[i]);
    }
  }

  /** `s.includes(sub)`. */
  predicate Includes(s: string, sub: string) {
    exists i :: 0 <= i <= |s| - |sub| && OccursAt(s, sub, i)
  }

  predicate OccursAt(s: string, sub: string, i: int)
    requires 0 <= i <= |s| - |sub|
  {
    s[i..i + |sub|] == sub
  }

  /** `s.split(sep)` for a one-character separator: every separator cuts, empty pieces stay. */
  function Split(s: string, sep: char): (r: seq<string>)
    ensures |r| >= 1
  {
    if s == [] then [""]
    else
      var rest := Split(s[1..], sep);
      if s[0] == sep then [""] + rest else [[s[0]] + rest[0]] + rest[1..]
  }

  /** `pieces.join(sep)`. */
  function Join(pieces: seq<string>, sep: char): string {
    if |pieces| == 0 then ""
    else if |pieces| == 1 then pieces[0]
    else pieces[0] + [sep] + Join(pieces[1..], sep)
  }

  /** Joining the pieces of a split gives the string back. */
  lemma {:induction false} JoinSplit(s: string, sep: char)
    ensures Join(Split(s, sep), sep) == s
  {
    if s != [] {
      var rest := Split(s[1..], sep);
      JoinSplit(s[1..], sep);
      if s[0] == sep {
        assert Split(s, sep) == [""] + rest;
        assert ([""] + rest)[1..] == rest;
      } else {
        var r := [[s[0]] + rest[0]] + rest[1..];
        assert Split(s, sep) == r;
        if |rest| == 1 {
          assert Join(rest, sep) == rest[0];
        } else {
          assert r[1..] == rest[1..];
          assert Join(rest, sep) == rest[0] + [sep] + Join(rest[1..], sep);
        }
      }
    }
  }

  /** Splitting a join of separator-free pieces gives the pieces back. */
  lemma {:induction false} SplitJoin(pieces: seq<string>, sep: char)
    requires |pieces| >= 1
    requires forall k :: 0 <= k < |pieces| ==> sep !in pieces[k]
    ensures Split(Join(pieces, sep), sep) == pieces
    decreases |pieces|, if |pieces| > 0 then |pieces[0]| else 0
  {
    var w := pieces[0];
    if w == [] {
      if |pieces| > 1 {
        SplitJoin(pieces[1..], sep);
        assert Join(pieces, sep) == [sep] + Join(pieces[1..], sep);
        assert ([sep] + Join(pieces[1..], sep))[1..] == Join(pieces[1..], sep);
        assert [""] + pieces[1..] == pieces;
      }
    } else {
      var shorter := [w[1..]] + pieces[1..];
      assert w[0] != sep by { assert w[0] in pieces[0]; }
      forall k | 0 <= k < |shorter| ensures sep !in shorter[k] {
        if k == 0 {
          assert shorter[0] == w[1..];
        } else {
          assert shorter[k] == pieces[k];
        }
      }
      SplitJoin(shorter, sep);
      var j := Join(pieces, sep);
      if |pieces| == 1 {
        assert j == w && Join(shorter, sep) == w[1..];
      } else {
        assert j == w + [sep] + Join(pieces[1..], sep);
        assert Join(shorter, sep) == w[1..] + [sep] + Join(pieces[1..], sep);
      }
      assert j[0] == w[0] && j[1..] == Join(shorter, sep);
      var rest := Split(j[1..], sep);
      assert rest == shorter;
      assert w == [w[0]] + w[1..];
      assert [[w[0]] + w[1..]] + pieces[1..] == pieces;
    }
  }

  /** `toUpperCase` on one character; only the ASCII letters are mapped. */
  function UpperChar(c: char): char {
    if 'a' <= c <= 'z' then (c as int - 32) as char else c
  }

  /** `s.toUpperCase()` for text whose letters are ASCII. */
  function ToUpperCase(s: string): (r: string)
    ensures |r| == |s|
    ensures forall i :: 0 <= i < |s| ==> r[i] == UpperChar(s[i])
  {
    if s == [] then [] else [UpperChar(s[0])] + ToUpperCase(s[1..])
  }

  // ------------------------------------------------------- decimal numbers

  predicate IsDigit(c: char) {
    '0' <= c <= '9'
  }

  function DigitChar(d: nat): char
    requires d < 10
  {
    ('0' as int + d) as char
  }

  /** `n.toString()` for a natural number. */
  function NatToString(n: nat): (r: string)
    ensures r != [] && forall i :: 0 <= i < |r| ==> IsDigit(r[i])
  {
    if n < 10 then [DigitChar(n)] else NatToString(n / 10) + [DigitChar(n % 10)]
  }

  /** The value of a string of decimal digits, as `Number(s)` reads it. */
  function DigitsValue(s: string): nat
    requires forall i :: 0 <= i < |s| ==> IsDigit(s[i])
  {
    if s == [] then 0
    else
      assert IsDigit(s[|s| - 1]);
      DigitsValue(s[..|s| - 1]) * 10 + (s[|s| - 1] as int - '0' as int)
  }

  /** `Number(String(n)) === n`: the decimal text of `n` reads back as `n`. */
  lemma {:induction false} NatToStringRoundTrip(n: nat)
    ensures DigitsValue(NatToString(n)) == n
  {
    if n >= 10 {
      NatToStringRoundTrip(n / 10);
      var s := NatToString(n);
      assert s[..|s| - 1] == NatToString(n / 10);
    }
  }

  predicate AllDigits(s: string) {
    forall i :: 0 <= i < |s| ==> IsDigit(s[i])
  }

  /**
   * `Number(s)` for the integer forms: surrounding whitespace is ignored, an
   * empty or blank string is 0, and an optional sign followed by decimal
   * digits is that integer; every other text is read as NaN.
   */
  function ToNumber(s: string): Number {
    var t := Trim(s);
    if t == "" then Int(0)
    else if AllDigits(t) then Int(DigitsValue(t))
    else if |t| > 1 && t[0] == '-' && AllDigits(t[1..]) then Int(0 - DigitsValue(t[1..]))
    else if |t| > 1 && t[0] == '+' && AllDigits(t[1..]) then Int(DigitsValue(t[1..]))
    else NaN
  }

  /**
   * A character that occurs in no text `Number` accepts: not a digit,
   * whitespace or a sign, not the `.` of a fraction, not a letter of an
   * exponent, a `0x`/`0o`/`0b` prefix or a hexadecimal digit, and not a
   * letter of `Infinity`.
   */
  predicate NonNumeric(c: char) {
    && !IsDigit(c) && !IsWhiteSpace(c) && c != '+' && c != '-' && c != '.'
    && !('a' <= c <= 'f') && !('A' <= c <= 'F')
    && c !in {'x', 'X', 'o', 'O', 'b', 'B', 'I', 'n', 'i', 't', 'y'}
  }

  /** A text holding a character that cannot occur in a numeral reads as NaN. */
  lemma ToNumberNaN(s: string, k: nat)
    requires k < |s| && NonNumeric(s[k])
    ensures ToNumber(s) == NaN
  {
    TrimShape(s);
    var i, j :| 0 <= i <= j <= |s| && Trim(s) == s[i..j] && AllWhiteSpace(s[..i]) && AllWhiteSpace(s[j..]);
    if i <= k < j {
      var t := Trim(s);
      assert t[k - i] == s[k];
      if k - i > 0 {
        assert t[1..][k - i - 1] == s[k];
      }
    }
  }

  /** `Number(x)` for a query parameter, which is absent or a string. */
  function ParamNumber(x: Field<string>): Number {
    match x
    case Missing => NaN
    case Nil => Int(0)
    case Given(s) => ToNumber(s)
  }

  /** `Number.MAX_SAFE_INTEGER`: above it a double no longer holds every integer. */
  const MaxSafeInteger: nat := 9007199254740991

  /** The decimal text of a natural number up to `Number.MAX_SAFE_INTEGER` reads back as that number. */
  lemma ToNumberOfNat(n: nat)
    requires n <= MaxSafeInteger
    ensures ToNumber(NatToString(n)) == Int(n)
  {
    var s := NatToString(n);
    assert !IsWhiteSpace(s[0]) && !IsWhiteSpace(s[|s| - 1]) by {
      assert IsDigit(s[0]) && IsDigit(s[|s| - 1]);
    }
    assert TrimStart(s) == s;
    assert Trim(s) == s;
    NatToStringRoundTrip(n);
  }
}
