/**
 * Machine-level numeric helpers shared by the model: bytes, 32-bit unsigned
 * integers, the C++ rounding and truncation operators on real numbers,
 * std::clamp, decimal printing of integers and little-endian byte encoding.
 */
module Numeric {

  /** An `unsigned char` / `uint8_t`. */
  newtype byte = b: int | 0 <= b < 256

  const UINT32_COUNT: int := 0x1_0000_0000

  /** An `unsigned int` / `uint32_t`. */
  type uint32 = n: int | 0 <= n < UINT32_COUNT

  /** std::clamp(v, lo, hi) on floats. */
  function Clamp(v: real, lo: real, hi: real): (r: real)
    requires lo <= hi
    ensures lo <= r <= hi
    ensures lo <= v <= hi ==> r == v
    ensures v < lo ==> r == lo
    ensures hi < v ==> r == hi
  {
    if v < lo then lo else if hi < v then hi else v
  }

  /** std::clamp(v, lo, hi) on ints. */
  function ClampInt(v: int, lo: int, hi: int): (r: int)
    requires lo <= hi
    ensures lo <= r <= hi
    ensures lo <= v <= hi ==> r == v
    ensures v < lo ==> r == lo
    ensures hi < v ==> r == hi
  {
    if v < lo then lo else if hi < v then hi else v
  }

  /** static_cast<int>(x): truncation toward zero. */
  function Trunc(x: real): (r: int)
    ensures 0.0 <= x ==> 0 <= r && r as real <= x < r as real + 1.0
    ensures x < 0.0 ==> r <= 0 && r as real - 1.0 < x <= r as real
  {
    if x >= 0.0 then x.Floor else -((-x).Floor)
  }

  /** std::roundf / std::lround: nearest integer, halfway cases away from zero. */
  function Round(x: real): (r: int)
    ensures 0.0 <= x ==> 0 <= r && r as real - 0.5 <= x < r as real + 0.5
    ensures x < 0.0 ==> r <= 0 && r as real - 0.5 < x <= r as real + 0.5
  {
    if x >= 0.0 then (x + 0.5).Floor else -((-x + 0.5).Floor)
  }

  lemma {:induction false} RoundMonotone(x: real, y: real)
    requires 0.0 <= x <= y
    ensures Round(x) <= Round(y)
  {
    assert (x + 0.5).Floor <= (y + 0.5).Floor by {
      FloorMonotone(x + 0.5, y + 0.5);
    }
  }

  lemma FloorMonotone(x: real, y: real)
    requires x <= y
    ensures x.Floor <= y.Floor
  {
  }

  /** Round of an integer is that integer. */
  lemma RoundOfInt(n: int)
    requires 0 <= n
    ensures Round(n as real) == n
  {
    assert (n as real + 0.5).Floor == n;
  }

  function Abs(x: real): (r: real)
    ensures 0.0 <= r
    ensures r == x || r == -x
  {
    if x < 0.0 then -x else x
  }

  // ----- decimal printing of integers (what `os << n` prints for an integer) -----

  predicate IsDigit(c: char) { '0' <= c <= '9' }

  function DigitChar(d: int): (c: char)
    requires 0 <= d < 10
    ensures IsDigit(c) && (c as int) - ('0' as int) == d
  {
    ('0' as int + d) as char
  }

  /** The decimal digits of n, without leading zeros ("0" for zero). */
  function NatToString(n: nat): (s: string)
    ensures 1 <= |s|
    ensures forall i :: 0 <= i < |s| ==> IsDigit(s[i])
    ensures |s| > 1 ==> s[0] != '0'
    decreases n
  {
    if n < 10 then [DigitChar(n)] else NatToString(n / 10) + [DigitChar(n % 10)]
  }

  /** An `int` printed with a leading '-' when negative. */
  function IntToString(n: int): (s: string)
    ensures 1 <= |s|
    ensures n < 0 <==> s[0] == '-'
  {
    if n < 0 then "-" + NatToString(-n) else NatToString(n)
  }

  /** The value of a run of decimal digits. */
  function DigitsValue(s: string): (n: nat)
    requires forall i :: 0 <= i < |s| ==> IsDigit(s[i])
    decreases |s|
  {
    if |s| == 0 then 0
    else DigitsValue(s[..|s| - 1]) * 10 + DigitValue(s[|s| - 1])
  }

  function DigitValue(c: char): (d: nat)
    requires IsDigit(c)
    ensures d < 10
  {
    (c as int) - ('0' as int)
  }

  /** Reading back what NatToString printed gives the number. */
  lemma {:induction false} NatToStringRoundTrip(n: nat)
    ensures DigitsValue(NatToString(n)) == n
    decreases n
  {
    var s := NatToString(n);
    if n >= 10 {
      NatToStringRoundTrip(n / 10);
      assert s[..|s| - 1] == NatToString(n / 10);
    }
  }

  // ----- little-endian encoding of 32-bit integers -----

  /** The four bytes of n, least significant first (an int32/uint32 written by a little-endian host). */
  function LE32(n: uint32): (b: seq<byte>)
    ensures |b| == 4
  {
    [(n % 256) as byte, ((n / 256) % 256) as byte, ((n / 65536) % 256) as byte, (n / 16777216) as byte]
  }

  /** The uint32 a little-endian host reads from four bytes. */
  function DecodeLE32(b: seq<byte>): (n: uint32)
    requires |b| == 4
  {
    b[0] as int + 256 * b[1] as int + 65536 * b[2] as int + 16777216 * b[3] as int
  }

  lemma LE32RoundTrip(n: uint32)
    ensures DecodeLE32(LE32(n)) == n
  {
    Base256(n);
  }

  /** n is the sum of its base-256 digits, each times its place value. */
  lemma Base256(n: uint32)
    ensures n == n % 256 + 256 * ((n / 256) % 256) + 65536 * ((n / 65536) % 256) + 16777216 * (n / 16777216)
  {
  }

  // ----- text as bytes -----

  /** Every character fits in seven bits. */
  predicate IsAscii(s: string)
  {
    forall i :: 0 <= i < |s| ==> s[i] as int < 128
  }

  /** The bytes of an ASCII string, one per character. */
  function Ascii(s: string): (b: seq<byte>)
    requires IsAscii(s)
    ensures |b| == |s|
    ensures forall i :: 0 <= i < |s| ==> b[i] as int == s[i] as int
  {
    seq(|s|, i requires 0 <= i < |s| => s[i] as int as byte)
  }

  /** Bytes read back as characters, one per byte. */
  function Text(b: seq<byte>): (s: string)
    ensures |s| == |b|
    ensures forall i :: 0 <= i < |b| ==> s[i] as int == b[i] as int
  {
    seq(|b|, i requires 0 <= i < |b| => b[i] as int as char)
  }

  lemma TextOfAscii(s: string)
    requires IsAscii(s)
    ensures Text(Ascii(s)) == s
  {
  }

  lemma AsciiAppend(s: string, t: string)
    requires IsAscii(s) && IsAscii(t)
    ensures IsAscii(s + t) && Ascii(s + t) == Ascii(s) + Ascii(t)
  {
  }

  /** Decimal digits are ASCII. */
  lemma NatToStringIsAscii(n: nat)
    ensures IsAscii(NatToString(n))
  {
  }
}
