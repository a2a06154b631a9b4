/**
 * Decimal rendering of non-negative integers, as JavaScript's
 * `Number.prototype.toString()` produces it for the whole numbers this
 * site displays (visit counts, day/hour/minute/second counts, the clock
 * value inside a generated visitor id), and the value a string of digits
 * denotes.
 */
module Decimal {

  predicate IsDigit(c: char) {
    '0' <= c <= '9'
  }

  predicate AllDigits(s: string) {
    forall i :: 0 <= i < |s| ==> IsDigit(s[i])
  }

  function DigitChar(d: nat): (c: char)
    requires d < 10
    ensures IsDigit(c)
  {
    ('0' as int + d) as char
  }

  function DigitValue(c: char): (d: nat)
    requires IsDigit(c)
    ensures d < 10
  {
    c as int - '0' as int
  }

  /** The shortest decimal spelling of `n`: only digits, no leading zero. */
  function DecimalString(n: nat): (s: string)
    ensures |s| > 0 && AllDigits(s)
    ensures |s| > 1 ==> s[0] != '0'
    decreases n
  {
    if n < 10 then [DigitChar(n)] else DecimalString(n / 10) + [DigitChar(n % 10)]
  }

  /** The number a string of decimal digits denotes (most significant first). */
  function DecimalValue(s: string): nat
    requires AllDigits(s)
  {
    if s == [] then 0 else DecimalValue(s[..|s| - 1]) * 10 + DigitValue(s[|s| - 1])
  }

  /** Reading back a rendered number gives the number. */
  lemma {:induction false} DecimalRoundTrip(n: nat)
    ensures DecimalValue(DecimalString(n)) == n
    decreases n
  {
    var s := DecimalString(n);
    if n >= 10 {
      assert s[..|s| - 1] == DecimalString(n / 10);
      DecimalRoundTrip(n / 10);
    }
  }

  /** Different numbers are rendered differently. */
  lemma DecimalStringInjective(a: nat, b: nat)
    requires DecimalString(a) == DecimalString(b)
    ensures a == b
  {
    DecimalRoundTrip(a);
    DecimalRoundTrip(b);
  }

  /**
   * A rendered number followed by text that starts with a non-digit can be
   * split back uniquely: the number and the text after it are determined.
   */
  lemma NumberThenSeparator(a: nat, x: string, b: nat, y: string)
    requires |x| > 0 && !IsDigit(x[0])
    requires |y| > 0 && !IsDigit(y[0])
    requires DecimalString(a) + x == DecimalString(b) + y
    ensures a == b && x == y
  {
    var sa, sb := DecimalString(a), DecimalString(b);
    assert sa == (sa + x)[..|sa|];
    assert sb == (sb + y)[..|sb|];
    DecimalStringInjective(a, b);
    assert x == (sa + x)[|sa|..];
    assert y == (sb + y)[|sb|..];
  }
}
