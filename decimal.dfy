/**
 * Decimal rendering of unsigned integers, as `std::to_string` produces it for the
 * byte counts and the response code, together with its inverse.
 */
module Decimal {

  predicate IsDigit(c: char) {
    '0' <= c <= '9'
  }

  /** A non-empty string of decimal digits. */
  predicate IsDecimal(s: string) {
    |s| > 0 && forall i :: 0 <= i < |s| ==> IsDigit(s[i])
  }

  function DigitChar(d: nat): (c: char)
    requires d < 10
    ensures IsDigit(c) && c as int - '0' as int == d
  {
    ('0' as int + d) as char
  }

  /** The shortest decimal numeral of `n`: digits only, no leading zero. */
  function NatToString(n: nat): (s: string)
    ensures IsDecimal(s)
    ensures s[0] == '0' ==> n == 0 && s == "0"
    decreases n
  {
    if n < 10 then [DigitChar(n)] else NatToString(n / 10) + [DigitChar(n % 10)]
  }

  /** The number a decimal numeral denotes. */
  function DecimalValue(s: string): nat
    requires IsDecimal(s)
    decreases |s|
  {
    var d: nat := s[|s| - 1] as int - '0' as int;
    if |s| == 1 then d else 10 * DecimalValue(s[..|s| - 1]) + d
  }

  /** Reading back a rendered number gives the number. */
  lemma {:induction false} DecimalRoundTrip(n: nat)
    ensures DecimalValue(NatToString(n)) == n
    decreases n
  {
    if n >= 10 {
      DecimalRoundTrip(n / 10);
      var s := NatToString(n);
      assert s[..|s| - 1] == NatToString(n / 10);
    }
  }

  /** A numeral with no leading zero, unless it is "0" itself. */
  predicate IsCanonicalDecimal(s: string) {
    IsDecimal(s) && (s[0] == '0' ==> s == "0")
  }

  /** A numeral with no leading zero is the rendering of the number it denotes. */
  lemma {:induction false} CanonicalDecimal(s: string)
    requires IsCanonicalDecimal(s)
    ensures NatToString(DecimalValue(s)) == s
    decreases |s|
  {
    var d: nat := s[|s| - 1] as int - '0' as int;
    if |s| == 1 {
      assert s == [DigitChar(d)];
    } else {
      var p := s[..|s| - 1];
      assert p[0] == s[0];
      CanonicalDecimal(p);
      var v := DecimalValue(p);
      assert v != 0;
      var n := DecimalValue(s);
      assert n == 10 * v + d;
      assert n / 10 == v && n % 10 == d;
      assert s == p + [DigitChar(d)];
    }
  }

  /** Distinct numbers are rendered as distinct strings. */
  lemma NatToStringInjective(a: nat, b: nat)
    ensures NatToString(a) == NatToString(b) ==> a == b
  {
    DecimalRoundTrip(a);
    DecimalRoundTrip(b);
  }
}
