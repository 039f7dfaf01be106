/**
 * The .NET string and number primitives the application relies on:
 * `string.IsNullOrEmpty`, `string.IsNullOrWhiteSpace`, `Trim`, `ToLower`,
 * `int.ToString()` and `int.Parse`. A .NET `string?` is an `Option<string>`.
 */
module Text {
  import opened Wrappers

  const Int32Min: int := -0x8000_0000
  const Int32Max: int := 0x7FFF_FFFF

  predicate InInt32(n: int) {
    Int32Min <= n <= Int32Max
  }

  /** `Char.IsWhiteSpace`: the characters with the Unicode White_Space property. */
  predicate IsWhiteSpace(c: char) {
    || '\t' <= c <= '\r' || c == ' ' || c == '\U{0085}' || c == '\U{00A0}' || c == '\U{1680}'
    || '\U{2000}' <= c <= '\U{200A}' || c == '\U{2028}' || c == '\U{2029}' || c == '\U{202F}'
    || c == '\U{205F}' || c == '\U{3000}'
  }

  /** The white space `int.Parse` skips around a number (`NumberStyles.Integer`). */
  predicate IsNumberWhiteSpace(c: char) {
    '\t' <= c <= '\r' || c == ' '
  }

  predicate IsNullOrEmpty(s: Option<string>) {
    s.None? || s.value == ""
  }

  predicate IsNullOrWhiteSpace(s: Option<string>) {
    s.None? || forall i :: 0 <= i < |s.value| ==> IsWhiteSpace(s.value[i])
  }

  /** Drops the longest prefix of characters in `ws`. */
  function TrimStartOf(s: string, ws: char -> bool): (r: string)
    ensures |r| <= |s| && r == s[|s| - |r|..]
    ensures r == [] || !ws(r[0])
    ensures forall i :: 0 <= i < |s| - |r| ==> ws(s[i])
    decreases |s|
  {
    if |s| > 0 && ws(s[0]) then TrimStartOf(s[1..], ws) else s
  }

  /** Drops the longest suffix of characters in `ws`. */
  function TrimEndOf(s: string, ws: char -> bool): (r: string)
    ensures |r| <= |s| && r == s[..|r|]
    ensures r == [] || !ws(r[|r| - 1])
    ensures forall i :: |r| <= i < |s| ==> ws(s[i])
    decreases |s|
  {
    if |s| > 0 && ws(s[|s| - 1]) then TrimEndOf(s[..|s| - 1], ws) else s
  }

  /** `String.Trim()`: white space removed from both ends. */
  function Trim(s: string): string {
    TrimEndOf(TrimStartOf(s, IsWhiteSpace), IsWhiteSpace)
  }

  predicate WhiteBefore(s: string, i: int) {
    forall k :: 0 <= k < i && k < |s| ==> IsWhiteSpace(s[k])
  }

  predicate WhiteFrom(s: string, j: int) {
    forall k :: 0 <= j <= k < |s| ==> IsWhiteSpace(s[k])
  }

  /** How many characters `Trim` cuts from the front. */
  function TrimmedFront(s: string): nat {
    |s| - |TrimStartOf(s, IsWhiteSpace)|
  }

  /** What `Trim` keeps is a middle slice of `s`. */
  lemma TrimIsMiddleSlice(s: string)
    ensures TrimmedFront(s) + |Trim(s)| <= |s|
    ensures Trim(s) == s[TrimmedFront(s)..TrimmedFront(s) + |Trim(s)|]
  {
    var t := TrimStartOf(s, IsWhiteSpace);
    var r := TrimEndOf(t, IsWhiteSpace);
    var i := |s| - |t|;
    assert t == s[i..];
    assert r == t[..|r|];
    assert r == s[i..i + |r|];
  }

  /** `Trim` cuts only white space, from either side of the slice it keeps. */
  lemma TrimCutsOnlyWhiteSpace(s: string)
    ensures TrimmedFront(s) + |Trim(s)| <= |s|
    ensures WhiteBefore(s, TrimmedFront(s)) && WhiteFrom(s, TrimmedFront(s) + |Trim(s)|)
  {
    var t := TrimStartOf(s, IsWhiteSpace);
    var r := TrimEndOf(t, IsWhiteSpace);
    var i := |s| - |t|;
    assert t == s[i..];
    forall k | i + |r| <= k < |s|
      ensures IsWhiteSpace(s[k])
    {
      assert s[k] == t[k - i];
    }
  }

  /** No white space is left at either end of what `Trim` keeps. */
  lemma TrimEnds(s: string)
    ensures Trim(s) == [] || (!IsWhiteSpace(Trim(s)[0]) && !IsWhiteSpace(Trim(s)[|Trim(s)| - 1]))
  {
    var t := TrimStartOf(s, IsWhiteSpace);
    var r := TrimEndOf(t, IsWhiteSpace);
    if r != [] {
      assert r[0] == t[0];
    }
  }

  /** Trimming twice is trimming once. */
  lemma TrimIdempotent(s: string)
    ensures Trim(Trim(s)) == Trim(s)
  {
    var r := Trim(s);
    TrimEnds(s);
    TrimStartKeeps(r, IsWhiteSpace);
    TrimEndKeeps(r, IsWhiteSpace);
  }

  lemma TrimStartKeeps(s: string, ws: char -> bool)
    requires s == [] || !ws(s[0])
    ensures TrimStartOf(s, ws) == s
  {
  }

  lemma TrimEndKeeps(s: string, ws: char -> bool)
    requires s == [] || !ws(s[|s| - 1])
    ensures TrimEndOf(s, ws) == s
  {
  }

  /** Lower-casing of one character (ASCII letters only). */
  function ToLowerChar(c: char): char {
    if 'A' <= c <= 'Z' then (c as int + 32) as char else c
  }

  /** `String.ToLower()`, with ASCII case mapping. */
  function ToLower(s: string): (r: string)
    ensures |r| == |s|
    ensures forall i :: 0 <= i < |s| ==> r[i] == ToLowerChar(s[i])
  {
    seq(|s|, i requires 0 <= i < |s| => ToLowerChar(s[i]))
  }

  /** Lower-casing twice is lower-casing once, and leaves no ASCII capital. */
  lemma ToLowerIdempotent(s: string)
    ensures ToLower(ToLower(s)) == ToLower(s)
    ensures forall i :: 0 <= i < |s| ==> !('A' <= ToLower(s)[i] <= 'Z')
  {
  }

  lemma WhiteSpaceToLower(c: char)
    ensures IsWhiteSpace(ToLowerChar(c)) == IsWhiteSpace(c)
  {
  }

  lemma ToLowerFirst(s: string)
    requires |s| > 0
    ensures ToLower(s)[0] == ToLowerChar(s[0]) && ToLower(s)[1..] == ToLower(s[1..])
  {
  }

  lemma ToLowerLast(s: string)
    requires |s| > 0
    ensures ToLower(s)[|s| - 1] == ToLowerChar(s[|s| - 1]) && ToLower(s)[..|s| - 1] == ToLower(s[..|s| - 1])
  {
  }

  lemma {:induction false} TrimStartToLower(s: string)
    ensures TrimStartOf(ToLower(s), IsWhiteSpace) == ToLower(TrimStartOf(s, IsWhiteSpace))
    decreases |s|
  {
    if |s| > 0 {
      ToLowerFirst(s);
      WhiteSpaceToLower(s[0]);
      if IsWhiteSpace(s[0]) {
        TrimStartToLower(s[1..]);
      }
    }
  }

  lemma {:induction false} TrimEndToLower(s: string)
    ensures TrimEndOf(ToLower(s), IsWhiteSpace) == ToLower(TrimEndOf(s, IsWhiteSpace))
    decreases |s|
  {
    if |s| > 0 {
      var n := |s| - 1;
      ToLowerLast(s);
      WhiteSpaceToLower(s[n]);
      if IsWhiteSpace(s[n]) {
        TrimEndToLower(s[..n]);
      }
    }
  }

  /** Lower-casing never turns a character into white space or back, so trimming and lower-casing commute. */
  lemma TrimToLower(s: string)
    ensures Trim(ToLower(s)) == ToLower(Trim(s))
  {
    TrimStartToLower(s);
    TrimEndToLower(TrimStartOf(s, IsWhiteSpace));
  }

  /**
   * Equality ignoring letter case, with ASCII case folding; a null `a` never
   * equals `b`. It is exact for `StringComparison.OrdinalIgnoreCase` on
   * ASCII text. As a model of `CurrentCultureIgnoreCase` it leaves out the
   * culture's linguistic rules: canonically equivalent forms (a precomposed
   * letter against a letter and a combining mark) and ignorable characters
   * (a soft hyphen, a zero-width joiner) compare equal there and not here.
   */
  predicate EqualsIgnoreCase(a: Option<string>, b: string) {
    a.Some? && ToLower(a.value) == ToLower(b)
  }

  // ----- Decimal text of integers: int.ToString() and int.Parse -----

  predicate IsDigit(c: char) {
    '0' <= c <= '9'
  }

  predicate AllDigits(s: string) {
    forall i :: 0 <= i < |s| ==> IsDigit(s[i])
  }

  function DigitChar(d: int): char
    requires 0 <= d < 10
  {
    (d + '0' as int) as char
  }

  /** The value of a run of decimal digits, most significant first. */
  function DigitsValue(s: string): (v: nat)
    requires AllDigits(s)
  {
    if |s| == 0 then 0
    else DigitsValue(s[..|s| - 1]) * 10 + (s[|s| - 1] as int - '0' as int)
  }

  /** Shortest decimal numeral of a natural number. */
  function NatToString(n: nat): string
    decreases n
  {
    if n < 10 then [DigitChar(n)] else NatToString(n / 10) + [DigitChar(n % 10)]
  }

  /** `int.ToString()` with the invariant culture: a minus sign before negative numbers. */
  function IntToString(n: int): string {
    if n < 0 then "-" + NatToString(-n) else NatToString(n)
  }

  /** `int.Parse`: optional white space, an optional sign, at least one digit, optional white space; out of Int32 range is an overflow. `None` is the exception. */
  function ParseInt32(s: string): (r: Option<int>)
    ensures r.Some? ==> InInt32(r.value)
  {
    ParseSigned(TrimEndOf(TrimStartOf(s, IsNumberWhiteSpace), IsNumberWhiteSpace))
  }

  /** The part of `int.Parse` after the surrounding white space is gone. */
  function ParseSigned(t: string): (r: Option<int>)
    ensures r.Some? ==> InInt32(r.value)
  {
    if |t| == 0 then None
    else
      var digits := if t[0] == '-' || t[0] == '+' then t[1..] else t;
      if |digits| == 0 || !AllDigits(digits) then None
      else
        var v: int := if t[0] == '-' then -(DigitsValue(digits) as int) else DigitsValue(digits);
        if InInt32(v) then Some(v) else None
  }

  lemma {:induction false} NatToStringDigits(n: nat)
    ensures |NatToString(n)| > 0 && AllDigits(NatToString(n))
    ensures DigitsValue(NatToString(n)) == n
    decreases n
  {
    if n >= 10 {
      NatToStringDigits(n / 10);
      var s := NatToString(n);
      assert s[..|s| - 1] == NatToString(n / 10);
    }
  }

  /** `int.Parse` reads back what `int.ToString()` wrote, for every Int32. */
  lemma ParseIntToString(n: int)
    requires InInt32(n)
    ensures ParseInt32(IntToString(n)) == Some(n)
  {
    var m: nat := if n < 0 then -n else n;
    NatToStringDigits(m);
    var d := NatToString(m);
    var s := IntToString(n);
    ParseSignedDigits(d, n < 0);
    assert s == if n < 0 then "-" + d else d;
    assert IsDigit(s[|s| - 1]) by {
      assert s[|s| - 1] == d[|d| - 1];
    }
    assert !IsNumberWhiteSpace(s[0]) by {
      assert s[0] == '-' || s[0] == d[0];
    }
    TrimStartKeeps(s, IsNumberWhiteSpace);
    TrimEndKeeps(s, IsNumberWhiteSpace);
  }

  lemma ParseSignedDigits(d: string, negative: bool)
    requires |d| > 0 && AllDigits(d)
    requires if negative then DigitsValue(d) <= -Int32Min else DigitsValue(d) <= Int32Max
    ensures ParseSigned(if negative then "-" + d else d)
         == Some(if negative then -(DigitsValue(d) as int) else DigitsValue(d))
  {
    if negative {
      var t := "-" + d;
      assert t[0] == '-' && t[1..] == d;
      assert ParseSigned(t) == Some(-(DigitsValue(d) as int));
    } else {
      assert IsDigit(d[0]);
      assert d[0] != '-' && d[0] != '+';
      assert ParseSigned(d) == Some(DigitsValue(d));
    }
  }



}
