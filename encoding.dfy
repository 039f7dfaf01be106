/**
 * Byte-to-text encodings used by the password store: lower-case hexadecimal
 * (`byte.ToString("x2")`) and Base64 (`Convert.ToBase64String`, the alphabet
 * of section 4 of RFC 4648 with `=` padding).
 */
module Encoding {

  type Byte = b: int | 0 <= b < 256

  /** The lower-case hex digit of a nibble. */
  function HexDigit(v: int): char
    requires 0 <= v < 16
  {
    if v < 10 then ('0' as int + v) as char else ('a' as int + v - 10) as char
  }

  /** The value of a lower-case hex digit. */
  function HexValue(c: char): int {
    if '0' <= c <= '9' then c as int - '0' as int else c as int - 'a' as int + 10
  }

  predicate IsLowerHexDigit(c: char) {
    '0' <= c <= '9' || 'a' <= c <= 'f'
  }

  /** `b.ToString("x2")`: two lower-case hex digits, high nibble first. */
  function HexByte(b: Byte): string {
    [HexDigit(b / 16), HexDigit(b % 16)]
  }

  /** The hex digits of every byte, in order, as the `StringBuilder` loop appends them. */
  function Hex(bytes: seq<Byte>): (r: string)
    ensures |r| == 2 * |bytes|
  {
    if |bytes| == 0 then "" else Hex(bytes[..|bytes| - 1]) + HexByte(bytes[|bytes| - 1])
  }

  /** Every character of a hex string is a lower-case hex digit, so never a `:`. */
  lemma {:induction false} HexIsLowerHex(bytes: seq<Byte>)
    ensures forall i :: 0 <= i < |Hex(bytes)| ==> IsLowerHexDigit(Hex(bytes)[i])
    ensures ':' !in Hex(bytes)
  {
    if |bytes| > 0 {
      HexIsLowerHex(bytes[..|bytes| - 1]);
    }
  }

  lemma HexByteInjective(x: Byte, y: Byte)
    requires HexByte(x) == HexByte(y)
    ensures x == y
  {
    assert HexValue(HexDigit(x / 16)) == x / 16 && HexValue(HexDigit(x % 16)) == x % 16;
    assert HexValue(HexDigit(y / 16)) == y / 16 && HexValue(HexDigit(y % 16)) == y % 16;
    assert HexByte(x)[0] == HexByte(y)[0] && HexByte(x)[1] == HexByte(y)[1];
  }

  lemma HexSplitsAtLastByte(a: seq<Byte>)
    requires |a| > 0
    ensures Hex(a)[..2 * |a| - 2] == Hex(a[..|a| - 1])
    ensures Hex(a)[2 * |a| - 2..] == HexByte(a[|a| - 1])
  {
  }

  /** Distinct byte strings have distinct hex text: the hex text determines the bytes. */
  lemma {:induction false} HexInjective(a: seq<Byte>, b: seq<Byte>)
    requires Hex(a) == Hex(b)
    ensures a == b
  {
    if |a| > 0 {
      var n := |a|;
      HexSplitsAtLastByte(a);
      HexSplitsAtLastByte(b);
      HexInjective(a[..n - 1], b[..n - 1]);
      HexByteInjective(a[n - 1], b[n - 1]);
      assert a == a[..n - 1] + [a[n - 1]] && b == b[..n - 1] + [b[n - 1]];
    }
  }

  /** The Base64 alphabet of section 4 of RFC 4648: value 0-25 is `A`-`Z`, 26-51 `a`-`z`, 52-61 `0`-`9`, 62 `+`, 63 `/`. */
  function Base64Digit(v: int): char
    requires 0 <= v < 64
  {
    if v < 26 then ('A' as int + v) as char
    else if v < 52 then ('a' as int + v - 26) as char
    else if v < 62 then ('0' as int + v - 52) as char
    else if v == 62 then '+'
    else '/'
  }

  /** Three bytes as four Base64 characters, six bits each, most significant first. */
  function Base64Group(b0: Byte, b1: Byte, b2: Byte): (r: string)
    ensures |r| == 4 && forall i :: 0 <= i < 4 ==> IsBase64Char(r[i]) && r[i] != ':'
  {
    Base64DigitInAlphabet(b0 / 4);
    Base64DigitInAlphabet(b0 % 4 * 16 + b1 / 16);
    Base64DigitInAlphabet(b1 % 16 * 4 + b2 / 64);
    Base64DigitInAlphabet(b2 % 64);
    [Base64Digit(b0 / 4), Base64Digit(b0 % 4 * 16 + b1 / 16), Base64Digit(b1 % 16 * 4 + b2 / 64), Base64Digit(b2 % 64)]
  }

  /** The last one or two bytes as four characters, with `==` or `=` for the missing ones. */
  function Base64Tail(bytes: seq<Byte>): (r: string)
    requires 1 <= |bytes| <= 2
    ensures |r| == 4 && forall i :: 0 <= i < 4 ==> IsBase64Char(r[i]) && r[i] != ':'
  {
    if |bytes| == 1 then
      Base64DigitInAlphabet(bytes[0] / 4);
      Base64DigitInAlphabet(bytes[0] % 4 * 16);
      [Base64Digit(bytes[0] / 4), Base64Digit(bytes[0] % 4 * 16)] + "=="
    else
      Base64DigitInAlphabet(bytes[0] / 4);
      Base64DigitInAlphabet(bytes[0] % 4 * 16 + bytes[1] / 16);
      Base64DigitInAlphabet(bytes[1] % 16 * 4);
      [Base64Digit(bytes[0] / 4), Base64Digit(bytes[0] % 4 * 16 + bytes[1] / 16),
       Base64Digit(bytes[1] % 16 * 4)] + "="
  }

  /** `Convert.ToBase64String`: each 3 bytes become 4 characters; a final 1 or 2 bytes are padded with `==` or `=`. */
  function Base64Encode(bytes: seq<Byte>): string
    decreases |bytes|
  {
    if |bytes| == 0 then ""
    else if |bytes| <= 2 then Base64Tail(bytes)
    else Base64Group(bytes[0], bytes[1], bytes[2]) + Base64Encode(bytes[3..])
  }

  predicate IsBase64Char(c: char) {
    'A' <= c <= 'Z' || 'a' <= c <= 'z' || '0' <= c <= '9' || c == '+' || c == '/' || c == '='
  }

  lemma Base64DigitInAlphabet(v: int)
    requires 0 <= v < 64
    ensures IsBase64Char(Base64Digit(v)) && Base64Digit(v) != ':'
  {
  }

  /** Base64 text has four characters per started group of three bytes, all from the RFC 4648 alphabet or `=`; in particular it has no `:`. */
  lemma {:induction false} Base64Shape(bytes: seq<Byte>)
    ensures |Base64Encode(bytes)| == 4 * ((|bytes| + 2) / 3)
    ensures forall i :: 0 <= i < |Base64Encode(bytes)| ==> IsBase64Char(Base64Encode(bytes)[i])
    ensures ':' !in Base64Encode(bytes)
    decreases |bytes|
  {
    if |bytes| >= 3 {
      var group := Base64Group(bytes[0], bytes[1], bytes[2]);
      var rest := Base64Encode(bytes[3..]);
      var e := group + rest;
      Base64Shape(bytes[3..]);
      assert (|bytes| + 2) / 3 == (|bytes[3..]| + 2) / 3 + 1;
      assert |e| == 4 + |rest|;
      forall i | 0 <= i < |e|
        ensures IsBase64Char(e[i]) && e[i] != ':'
      {
        if i >= 4 {
          assert e[i] == rest[i - 4];
        }
      }
    }
  }
}
