/**
 * Bytes and decimal numerals.
 *
 * Every `std::string` of the source holds bytes; a byte is written here as a
 * character below 256 so that text literals such as "true" can be used as
 * byte strings directly.
 */
module Text {

  type Byte = c: char | c as int < 256
  type Bytes = seq<Byte>

  predicate IsDigit(c: Byte) { '0' <= c <= '9' }

  /** The four insignificant whitespace bytes of RFC 8259, section 2. */
  predicate IsWhitespace(c: Byte) { c == ' ' || c == '\t' || c == '\n' || c == '\r' }

  predicate AllDigits(t: Bytes) { forall k | 0 <= k < |t| :: IsDigit(t[k]) }

  function DigitValue(c: Byte): (d: nat)
    requires IsDigit(c)
    ensures d < 10
  {
    c as int - '0' as int
  }

  function DigitChar(d: nat): (c: Byte)
    requires d < 10
    ensures IsDigit(c) && DigitValue(c) == d
  {
    (d + '0' as int) as char
  }

  /** The shortest decimal numeral of `n` (no sign, no leading zero). */
  function Decimal(n: nat): (t: Bytes)
    ensures |t| > 0 && AllDigits(t)
    ensures |t| > 1 ==> t[0] != '0'
    decreases n
  {
    if n < 10 then [DigitChar(n)] else Decimal(n / 10) + [DigitChar(n % 10)]
  }

  /** The number a string of decimal digits denotes (leading zeros allowed). */
  function DecimalValue(t: Bytes): nat
    requires AllDigits(t)
    decreases |t|
  {
    if t == [] then 0 else DecimalValue(t[..|t| - 1]) * 10 + DigitValue(t[|t| - 1])
  }

  /** Reading back a rendered numeral gives the number. */
  lemma {:induction false} DecimalRoundTrip(n: nat)
    ensures DecimalValue(Decimal(n)) == n
    decreases n
  {
    if n >= 10 {
      var t := Decimal(n);
      assert t[..|t| - 1] == Decimal(n / 10);
      DecimalRoundTrip(n / 10);
    }
  }

  /** Different numbers have different numerals. */
  lemma DecimalInjective(m: nat, n: nat)
    requires m != n
    ensures Decimal(m) != Decimal(n)
  {
    DecimalRoundTrip(m);
    DecimalRoundTrip(n);
  }

  /** The position of the first occurrence of `c` in a text that holds one. */
  function IndexOf(t: Bytes, c: Byte): (i: nat)
    requires c in t
    ensures i < |t| && t[i] == c && c !in t[..i]
    decreases |t|
  {
    if t[0] == c then 0
    else
      assert t == [t[0]] + t[1..];
      var i := 1 + IndexOf(t[1..], c);
      assert t[..i] == [t[0]] + t[1..][..i - 1];
      i
  }

  /** In `a + [c] + b` with no `c` in `a`, the first `c` is the one after `a`. */
  lemma IndexOfAfter(a: Bytes, c: Byte, b: Bytes)
    requires c !in a
    ensures IndexOf(a + [c] + b, c) == |a|
  {
    var t := a + [c] + b;
    assert t[|a|] == c;
    assert t[..|a|] == a;
  }
}
