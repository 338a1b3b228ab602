/** Decimal rendering of natural numbers, as Python's `str(n)` (and an
    f-string `{n}`) produces it for a non-negative `int`: the shortest string
    of ASCII digits, no sign, no padding, no leading zero except for `0`. */
module Decimal {

  predicate IsDigit(c: char) {
    '0' <= c <= '9'
  }

  predicate AllDigits(s: string) {
    forall i :: 0 <= i < |s| ==> IsDigit(s[i])
  }

  function DigitValue(c: char): (d: nat)
    requires IsDigit(c)
    ensures d < 10
  {
    (c as int) - ('0' as int)
  }

  function DigitChar(d: nat): (c: char)
    requires d < 10
    ensures IsDigit(c) && DigitValue(c) == d
  {
    (('0' as int) + d) as char
  }

  /** The characters of `n` written in base ten. */
  function NatToDecimal(n: nat): (r: string)
    ensures |r| >= 1
    ensures AllDigits(r)
    ensures (r[0] == '0') <==> n == 0
    ensures (|r| == 1) <==> n < 10
  {
    if n < 10 then [DigitChar(n)] else NatToDecimal(n / 10) + [DigitChar(n % 10)]
  }

  /** The number a string of digits denotes (the inverse of `NatToDecimal`,
      tolerant of leading zeros). */
  function DecimalValue(s: string): nat
    requires AllDigits(s)
  {
    if s == [] then 0 else 10 * DecimalValue(s[..|s| - 1]) + DigitValue(s[|s| - 1])
  }

  /** Reading the rendering back gives the number: nothing is lost. */
  lemma {:induction false} DecimalRoundTrip(n: nat)
    ensures DecimalValue(NatToDecimal(n)) == n
  {
    if n >= 10 {
      var s := NatToDecimal(n);
      assert s[..|s| - 1] == NatToDecimal(n / 10);
      DecimalRoundTrip(n / 10);
    }
  }

  /** Distinct numbers have distinct renderings. */
  lemma NatToDecimalInjective(a: nat, b: nat)
    requires NatToDecimal(a) == NatToDecimal(b)
    ensures a == b
  {
    DecimalRoundTrip(a);
    DecimalRoundTrip(b);
  }

  /** `s` may follow a rendered number without being read as part of it. */
  predicate EndsNumber(s: string) {
    s == [] || !IsDigit(s[0])
  }

  /** The length of the longest run of digits `w` starts with. */
  function LeadingDigits(w: string): (n: nat)
    ensures n <= |w|
  {
    if w == [] || !IsDigit(w[0]) then 0 else 1 + LeadingDigits(w[1..])
  }

  lemma {:induction false} LeadingDigitsOf(x: string, s: string)
    requires AllDigits(x) && EndsNumber(s)
    ensures LeadingDigits(x + s) == |x|
  {
    if x != [] {
      assert (x + s)[1..] == x[1..] + s;
      LeadingDigitsOf(x[1..], s);
    } else {
      assert x + s == s;
    }
  }

  /** A rendered number followed by a non-digit (or by nothing) can be split
      off unambiguously: the number and the rest are both determined. */
  lemma DecimalPrefixCancel(a: nat, b: nat, s: string, t: string)
    requires NatToDecimal(a) + s == NatToDecimal(b) + t
    requires EndsNumber(s) && EndsNumber(t)
    ensures a == b && s == t
  {
    var x, y := NatToDecimal(a), NatToDecimal(b);
    LeadingDigitsOf(x, s);
    LeadingDigitsOf(y, t);
    assert x == (x + s)[..|x|];
    assert y == (y + t)[..|y|];
    NatToDecimalInjective(a, b);
    assert s == (x + s)[|x|..];
    assert t == (y + t)[|y|..];
  }
}
