/** The text conversions the library relies on: `TextEncoder.encode` (UTF-8)
    and the decimal form a template literal gives a non-negative integer. */
module Text {
  import opened Chunking

  /** The bytes of `ch` in UTF-8 (a Dafny `char` is a Unicode scalar value,
      so no lone surrogates occur). */
  function Utf8Char(ch: char): (r: seq<byte>)
    ensures 1 <= |r| <= 4
    ensures |r| == 1 <==> ch as int < 0x80
    ensures ch as int < 0x80 ==> r[0] as int == ch as int
  {
    var c := ch as int;
    if c < 0x80 then [c as byte]
    else if c < 0x800 then
      [Lead(0xC0, c / 0x40, 0x20), Continuation(c)]
    else if c < 0x1_0000 then
      [Lead(0xE0, c / 0x1000, 0x10), Continuation(c / 0x40), Continuation(c)]
    else
      assert c < 0x11_0000;
      [Lead(0xF0, c / 0x4_0000, 0x08), Continuation(c / 0x1000), Continuation(c / 0x40), Continuation(c)]
  }

  /** A leading byte: the marker `tag` plus the top bits `bits < limit`. */
  function Lead(tag: nat, bits: nat, limit: nat): byte
    requires tag + limit <= 0x100 && bits < limit
  {
    (tag + bits) as byte
  }

  /** A continuation byte: `10` followed by the low six bits of `c`. */
  function Continuation(c: nat): byte
  {
    (0x80 + c % 0x40) as byte
  }

  /** `new TextEncoder().encode(s)`. */
  function Utf8Encode(s: string): seq<byte>
  {
    if s == [] then [] else Utf8Encode(s[..|s| - 1]) + Utf8Char(s[|s| - 1])
  }

  predicate IsAscii(s: string)
  {
    forall i :: 0 <= i < |s| ==> s[i] as int < 0x80
  }

  /** Encoding a concatenation encodes each part. */
  lemma {:induction false} Utf8EncodeAppend(a: string, b: string)
    ensures Utf8Encode(a + b) == Utf8Encode(a) + Utf8Encode(b)
    decreases |b|
  {
    if b == [] {
      assert a + b == a;
    } else {
      var n := |b| - 1;
      assert (a + b)[..|a + b| - 1] == a + b[..n];
      Utf8EncodeAppend(a, b[..n]);
    }
  }

  /** Every character takes one to four bytes. */
  lemma {:induction false} Utf8EncodeLength(s: string)
    ensures |s| <= |Utf8Encode(s)| <= 4 * |s|
  {
    if s != [] {
      Utf8EncodeLength(s[..|s| - 1]);
    }
  }

  /** ASCII text encodes byte for byte: one byte per character, equal to its code. */
  lemma {:induction false} Utf8EncodeAscii(s: string)
    requires IsAscii(s)
    ensures |Utf8Encode(s)| == |s|
    ensures forall i :: 0 <= i < |s| ==> Utf8Encode(s)[i] as int == s[i] as int
  {
    if s != [] {
      var n := |s| - 1;
      assert IsAscii(s[..n]);
      Utf8EncodeAscii(s[..n]);
    }
  }

  predicate IsDigit(ch: char) { '0' <= ch <= '9' }

  predicate AllDigits(s: string) { forall i :: 0 <= i < |s| ==> IsDigit(s[i]) }

  function DigitChar(d: nat): (ch: char)
    requires d < 10
    ensures IsDigit(ch) && ch as int - '0' as int == d
  {
    ('0' as int + d) as char
  }

  /** `${n}` for a non-negative integer: its decimal digits without leading zeros. */
  function NatToString(n: nat): (s: string)
    ensures |s| >= 1 && AllDigits(s)
    ensures s[0] == '0' ==> n == 0
    decreases n
  {
    if n < 10 then [DigitChar(n)] else NatToString(n / 10) + [DigitChar(n % 10)]
  }

  /** The number a string of decimal digits denotes. */
  function DigitsValue(s: string): nat
    requires AllDigits(s)
  {
    if s == [] then 0
    else DigitsValue(s[..|s| - 1]) * 10 + (s[|s| - 1] as int - '0' as int)
  }

  /** Reading the decimal rendering back yields the number. */
  lemma {:induction false} NatToStringRoundTrip(n: nat)
    ensures DigitsValue(NatToString(n)) == n
    decreases n
  {
    if n >= 10 {
      NatToStringRoundTrip(n / 10);
      var s := NatToString(n);
      assert s[..|s| - 1] == NatToString(n / 10);
    }
  }

  /** Distinct numbers render differently. */
  lemma NatToStringInjective(m: nat, n: nat)
    requires NatToString(m) == NatToString(n)
    ensures m == n
  {
    NatToStringRoundTrip(m);
    NatToStringRoundTrip(n);
  }
}
