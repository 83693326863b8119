/** Text helpers shared by the generator and the command-line driver:
    bytes, decimal rendering of an unsigned integer (Rust's `to_string`
    on `usize`), and lower-case hex (the `hex::encode` crate function). */
module Text {
  import opened Wrappers

  type byte = x: int | 0 <= x < 256

  predicate IsDigit(c: char) { '0' <= c <= '9' }

  predicate IsDigits(s: string) {
    forall i :: 0 <= i < |s| ==> IsDigit(s[i])
  }

  function DigitChar(d: nat): char
    requires d < 10
  {
    ('0' as int + d) as char
  }

  /** The digit character of `d` is a digit whose value is `d`. */
  lemma DigitCharValue(d: nat)
    requires d < 10
    ensures IsDigit(DigitChar(d)) && DigitChar(d) as int - '0' as int == d
  {
  }

  /** Decimal rendering without leading zeros, as `usize::to_string` produces. */
  function NatToDecimal(n: nat): string {
    if n < 10 then [DigitChar(n)] else NatToDecimal(n / 10) + [DigitChar(n % 10)]
  }

  /** The decimal form is a non-empty digit string with no leading zero. */
  lemma {:induction false} NatToDecimalDigits(n: nat)
    ensures var s := NatToDecimal(n);
      |s| >= 1 && IsDigits(s) && (s[0] == '0' ==> n == 0)
  {
    DigitCharValue(n % 10);
    if n >= 10 {
      NatToDecimalDigits(n / 10);
    }
  }

  /** The value of a string of decimal digits (reading left to right). */
  function DecimalValue(s: string): nat
    requires IsDigits(s)
  {
    if s == [] then 0
    else DecimalValue(s[..|s| - 1]) * 10 + (s[|s| - 1] as int - '0' as int)
  }

  /** Parsing the rendering gives back the number. */
  lemma {:induction false} DecimalRoundTrip(n: nat)
    ensures IsDigits(NatToDecimal(n)) && DecimalValue(NatToDecimal(n)) == n
  {
    NatToDecimalDigits(n);
    if n >= 10 {
      var s := NatToDecimal(n);
      assert s[..|s| - 1] == NatToDecimal(n / 10);
      DecimalRoundTrip(n / 10);
    }
  }

  /** Distinct numbers render as distinct strings. */
  lemma DecimalInjective(m: nat, n: nat)
    ensures NatToDecimal(m) == NatToDecimal(n) <==> m == n
  {
    DecimalRoundTrip(m);
    DecimalRoundTrip(n);
  }

  function HexDigit(d: nat): (c: char)
    requires d < 16
  {
    if d < 10 then ('0' as int + d) as char else ('a' as int + d - 10) as char
  }

  /** `hex::encode`: two lower-case hex digits per byte, high nibble first. */
  function Hex(bytes: seq<byte>): (s: string)
    ensures |s| == 2 * |bytes|
  {
    if bytes == [] then []
    else [HexDigit(bytes[0] / 16), HexDigit(bytes[0] % 16)] + Hex(bytes[1..])
  }

  function HexValue(c: char): Option<nat> {
    if '0' <= c <= '9' then Some(c as int - '0' as int)
    else if 'a' <= c <= 'f' then Some(c as int - 'a' as int + 10)
    else None
  }

  /** A decoder for lower-case hex, the partner of Hex. */
  function HexDecode(s: string): Option<seq<byte>>
    decreases |s|
  {
    if s == [] then Some([])
    else if |s| == 1 then None
    else match (HexValue(s[0]), HexValue(s[1]), HexDecode(s[2..]))
      case (Some(hi), Some(lo), Some(rest)) =>
        if hi < 16 && lo < 16 then Some([hi * 16 + lo] + rest) else None
      case _ => None
  }

  lemma HexDigitValue(d: nat)
    requires d < 16
    ensures HexValue(HexDigit(d)) == Some(d)
  {
  }

  /** Decoding two digits in front of `t` puts their byte in front of the decoding of `t`. */
  lemma HexDecodePair(hi: nat, lo: nat, t: string)
    requires hi < 16 && lo < 16
    ensures HexDecode([HexDigit(hi), HexDigit(lo)] + t)
         == if HexDecode(t).Some? then Some([hi * 16 + lo] + HexDecode(t).value) else None
  {
    HexDigitValue(hi);
    HexDigitValue(lo);
    assert ([HexDigit(hi), HexDigit(lo)] + t)[2..] == t;
  }

  /** Decoding the hex of a byte string gives back the bytes. */
  lemma {:induction false} HexRoundTrip(bytes: seq<byte>)
    ensures HexDecode(Hex(bytes)) == Some(bytes)
  {
    if bytes != [] {
      var hi, lo := bytes[0] / 16, bytes[0] % 16;
      HexDecodePair(hi, lo, Hex(bytes[1..]));
      HexRoundTrip(bytes[1..]);
      assert [hi * 16 + lo] + bytes[1..] == bytes;
    }
  }
}
