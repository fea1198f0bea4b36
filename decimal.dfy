// Decimal text of integers, as a JavaScript template literal renders a
// whole number (`${depotId}`): an optional '-' followed by digits without
// leading zeros.
module Decimal {

  predicate IsDigit(c: char) {
    '0' <= c <= '9'
  }

  predicate AllDigits(s: string) {
    forall i :: 0 <= i < |s| ==> IsDigit(s[i])
  }

  function DigitChar(d: nat): (c: char)
    requires d < 10
    ensures IsDigit(c)
  {
    ('0' as int + d) as char
  }

  function DigitValue(c: char): nat
    requires IsDigit(c)
  {
    c as int - '0' as int
  }

  /** The digits of `n`, most significant first. */
  function NatText(n: nat): (s: string)
    ensures |s| >= 1 && AllDigits(s)
    ensures s[0] == '0' <==> n == 0
    decreases n
  {
    if n < 10 then [DigitChar(n)] else NatText(n / 10) + [DigitChar(n % 10)]
  }

  /** The number a string of digits denotes. */
  function DigitsValue(s: string): nat
    requires AllDigits(s)
    decreases |s|
  {
    if s == [] then 0 else 10 * DigitsValue(s[..|s| - 1]) + DigitValue(s[|s| - 1])
  }

  lemma {:induction false} NatTextRoundTrip(n: nat)
    ensures DigitsValue(NatText(n)) == n
  {
    if n >= 10 {
      var s := NatText(n / 10);
      var t := s + [DigitChar(n % 10)];
      assert t[..|t| - 1] == s;
      NatTextRoundTrip(n / 10);
    }
  }

  /** The shape of a decimal integer: digits, possibly after one '-'. */
  predicate IsIntText(s: string) {
    |s| >= 1 &&
    if s[0] == '-' then |s| >= 2 && AllDigits(s[1..]) else AllDigits(s)
  }

  function IntValue(s: string): int
    requires IsIntText(s)
  {
    if s[0] == '-' then -(DigitsValue(s[1..]) as int) else DigitsValue(s)
  }

  /** The decimal text of a whole number. */
  function IntText(n: int): (s: string)
    ensures IsIntText(s)
    ensures s[0] == '-' <==> n < 0
  {
    if n < 0 then "-" + NatText(-n) else NatText(n)
  }

  /** Reading the text back gives the number: the text loses nothing. */
  lemma IntTextRoundTrip(n: int)
    ensures IntValue(IntText(n)) == n
  {
    if n < 0 {
      assert IntText(n)[1..] == NatText(-n);
      NatTextRoundTrip(-n);
    } else {
      NatTextRoundTrip(n);
    }
  }

  /** Different numbers have different texts. */
  lemma IntTextInjective(a: int, b: int)
    requires IntText(a) == IntText(b)
    ensures a == b
  {
    IntTextRoundTrip(a);
    IntTextRoundTrip(b);
  }

  /** A decimal text never holds a quote or a line break. */
  lemma IntTextPlain(n: int)
    ensures '"' !in IntText(n) && '\n' !in IntText(n)
  {
    var s := IntText(n);
    if n < 0 {
      assert s == "-" + s[1..];
    }
  }
}
