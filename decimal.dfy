/**
 * Decimal rendering of integers as Go's `fmt` does it for `%d` and `%06d`, with
 * the parser that reads the digits back.
 */
module Decimal {

  import opened Text

  function Pow10(k: nat): (r: nat)
    ensures r >= 1
  {
    if k == 0 then 1 else 10 * Pow10(k - 1)
  }

  predicate AllDigits(s: string)
  {
    forall i :: 0 <= i < |s| ==> IsAsciiDigit(s[i])
  }

  function DigitChar(d: nat): (c: char)
    requires d < 10
    ensures IsAsciiDigit(c)
  {
    (48 + d) as char
  }

  /** The number a string of decimal digits denotes, most significant digit first. */
  function ValueOf(s: string): nat
    requires AllDigits(s)
  {
    if s == [] then 0 else 10 * ValueOf(s[..|s| - 1]) + (s[|s| - 1] as int - 48)
  }

  /** The shortest decimal rendering of `n` (no leading zeros; "0" for zero). */
  function Digits(n: nat): string
  {
    if n < 10 then [DigitChar(n)] else Digits(n / 10) + [DigitChar(n % 10)]
  }

  /** Rendering then reading back gives the number; the rendering is all digits and starts with a non-zero digit unless it is "0". */
  lemma {:induction false} DigitsRoundTrip(n: nat)
    ensures AllDigits(Digits(n))
    ensures |Digits(n)| >= 1
    ensures ValueOf(Digits(n)) == n
    ensures n > 0 ==> Digits(n)[0] != '0'
  {
    if n >= 10 {
      DigitsRoundTrip(n / 10);
      var s := Digits(n);
      assert s[..|s| - 1] == Digits(n / 10);
    }
  }

  /** A number below 10^k needs at most k digits. */
  lemma {:induction false} DigitsLength(n: nat, k: nat)
    requires n < Pow10(k)
    ensures |Digits(n)| <= k || (n == 0 && k == 0)
  {
    if n >= 10 {
      assert k >= 1;
      DigitsLength(n / 10, k - 1);
    }
  }

  /** `count` copies of the character `c`. */
  function Repeat(c: char, count: nat): (r: string)
    ensures |r| == count && forall i :: 0 <= i < count ==> r[i] == c
  {
    if count == 0 then [] else [c] + Repeat(c, count - 1)
  }

  /** Leading zeros do not change the value of a digit string. */
  lemma {:induction false} LeadingZeros(z: nat, s: string)
    requires AllDigits(s)
    ensures AllDigits(Repeat('0', z) + s)
    ensures ValueOf(Repeat('0', z) + s) == ValueOf(s)
  {
    if s == [] {
      assert Repeat('0', z) + s == Repeat('0', z);
      ZerosValue(z);
    } else {
      var t := Repeat('0', z) + s;
      assert t[..|t| - 1] == Repeat('0', z) + s[..|s| - 1];
      LeadingZeros(z, s[..|s| - 1]);
    }
  }

  lemma {:induction false} ZerosValue(z: nat)
    ensures AllDigits(Repeat('0', z)) && ValueOf(Repeat('0', z)) == 0
  {
    if z > 0 {
      var t := Repeat('0', z);
      assert t[..|t| - 1] == Repeat('0', z - 1);
      ZerosValue(z - 1);
    }
  }

  /** Go's `%0<width>d` for a non-negative value: the digits, left-padded with zeros to `width`. */
  function ZeroPadded(n: nat, width: nat): (r: string)
    ensures AllDigits(r) && ValueOf(r) == n
    ensures |r| == if |Digits(n)| < width then width else |Digits(n)|
  {
    DigitsRoundTrip(n);
    var d := Digits(n);
    var pad := if |d| < width then width - |d| else 0;
    LeadingZeros(pad, d);
    Repeat('0', pad) + d
  }

  /** Go's `%d` for any integer: a minus sign before the digits of a negative value. */
  function FormatInt(n: int): (r: string)
    ensures |r| >= 1
    ensures n >= 0 ==> AllDigits(r) && ValueOf(r) == n
    ensures n < 0 ==> r[0] == '-' && AllDigits(r[1..]) && ValueOf(r[1..]) == -n
  {
    DigitsRoundTrip(if n < 0 then -n else n);
    if n < 0 then "-" + Digits(-n) else Digits(n)
  }
}
