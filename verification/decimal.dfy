/**
 Decimal rendering of integers, as Go's `%d` verb prints an `int` inside
 `fmt.Errorf`. The length rules put their configured bound into the failure
 message this way; the parser below is the partner that shows the rendering
 loses nothing.
 */
module Decimal {

  /** The character of one decimal digit. */
  function DigitChar(d: int): (c: char)
    requires 0 <= d < 10
    ensures '0' <= c <= '9'
    ensures c as int - '0' as int == d
  {
    ('0' as int + d) as char
  }

  predicate IsDigit(c: char) {
    '0' <= c <= '9'
  }

  predicate AllDigits(s: string) {
    forall i :: 0 <= i < |s| ==> IsDigit(s[i])
  }

  /** Shortest decimal rendering of a natural number: at least one digit, and no leading zero. */
  function NatToDecimal(n: nat): (s: string)
    ensures |s| >= 1 && AllDigits(s)
    ensures |s| > 1 ==> s[0] != '0'
    ensures s[0] == '0' ==> n == 0
    decreases n
  {
    if n < 10 then [DigitChar(n)] else NatToDecimal(n / 10) + [DigitChar(n % 10)]
  }

  /** Go's `%d` of a signed integer: a minus sign before the magnitude when negative. */
  function FormatInt(n: int): (s: string)
    ensures IsCanonical(s)
    ensures n < 0 <==> s[0] == '-'
  {
    if n < 0 then "-" + NatToDecimal(-n) else NatToDecimal(n)
  }

  /** The strings `%d` can produce: optional minus sign, then one or more digits. */
  predicate IsDecimal(s: string) {
    if |s| > 0 && s[0] == '-' then |s| > 1 && AllDigits(s[1..]) else |s| > 0 && AllDigits(s)
  }

  /**
   The strings `%d` actually prints: no leading zero, and no minus sign
   before zero.
   */
  predicate IsCanonical(s: string) {
    if |s| > 0 && s[0] == '-' then |s| > 1 && AllDigits(s[1..]) && s[1] != '0'
    else |s| > 0 && AllDigits(s) && (|s| > 1 ==> s[0] != '0')
  }

  /** Value of a digit string, most significant digit first. */
  function DigitsValue(s: string): nat
    requires AllDigits(s)
  {
    if |s| == 0 then 0 else DigitsValue(s[..|s| - 1]) * 10 + (s[|s| - 1] as int - '0' as int)
  }

  /** Reads back a `%d` rendering. */
  function ParseInt(s: string): int
    requires IsDecimal(s)
  {
    if s[0] == '-' then -(DigitsValue(s[1..]) as int) else DigitsValue(s)
  }

  lemma {:induction false} NatToDecimalRoundTrip(n: nat)
    ensures DigitsValue(NatToDecimal(n)) == n
    decreases n
  {
    if n >= 10 {
      var s := NatToDecimal(n);
      NatToDecimalRoundTrip(n / 10);
      assert s[..|s| - 1] == NatToDecimal(n / 10);
    }
  }

  /** Parsing the rendering of any integer gives that integer back. */
  lemma FormatIntRoundTrip(n: int)
    ensures ParseInt(FormatInt(n)) == n
  {
    if n < 0 {
      NatToDecimalRoundTrip(-n);
      assert FormatInt(n)[1..] == NatToDecimal(-n);
    } else {
      NatToDecimalRoundTrip(n);
    }
  }

  /** Distinct integers render differently, so a message names its bound unambiguously. */
  lemma FormatIntInjective(m: int, n: int)
    requires FormatInt(m) == FormatInt(n)
    ensures m == n
  {
    FormatIntRoundTrip(m);
    FormatIntRoundTrip(n);
  }

  /** A digit string that does not start with `0` has a positive value. */
  lemma {:induction false} LeadingDigitPositive(s: string)
    requires |s| > 0 && AllDigits(s) && s[0] != '0'
    ensures DigitsValue(s) > 0
    decreases |s|
  {
    if |s| > 1 {
      LeadingDigitPositive(s[..|s| - 1]);
    }
  }

  /** A canonical digit string is the rendering of its own value. */
  lemma {:induction false} NatToDecimalOfValue(s: string)
    requires |s| > 0 && AllDigits(s) && (|s| > 1 ==> s[0] != '0')
    ensures NatToDecimal(DigitsValue(s)) == s
    decreases |s|
  {
    var last := |s| - 1;
    var d := s[last] as int - '0' as int;
    if last == 0 {
      assert DigitChar(d) == s[0];
    } else {
      var front := s[..last];
      assert front[0] == s[0];
      LeadingDigitPositive(front);
      NatToDecimalOfValue(front);
      var v := DigitsValue(s);
      assert v == DigitsValue(front) * 10 + d;
      assert v / 10 == DigitsValue(front) && v % 10 == d;
      assert DigitChar(d) == s[last];
      assert s == front + [s[last]];
    }
  }

  /**
   Rendering is onto the canonical strings: each one is the `%d` of the
   integer it denotes. With the round trip, `FormatInt` is a bijection
   between the integers and the canonical strings.
   */
  lemma FormatIntCanonical(s: string)
    requires IsCanonical(s)
    ensures FormatInt(ParseInt(s)) == s
  {
    if s[0] == '-' {
      var digits := s[1..];
      assert digits[0] == s[1];
      LeadingDigitPositive(digits);
      NatToDecimalOfValue(digits);
      assert s == "-" + digits;
    } else {
      NatToDecimalOfValue(s);
    }
  }
}
