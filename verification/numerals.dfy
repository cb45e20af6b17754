/** Decimal rendering of integers, as Python's `str(n)` and `f"{n:02}"` produce it. */
module Numerals {

  predicate IsDigit(c: char) {
    '0' <= c <= '9'
  }

  predicate AllDigits(s: string) {
    forall i :: 0 <= i < |s| ==> IsDigit(s[i])
  }

  function DigitValue(c: char): (d: nat)
    requires IsDigit(c)
    ensures d < 10
  {
    c as int - '0' as int
  }

  function DigitChar(d: nat): (c: char)
    requires d < 10
    ensures IsDigit(c) && DigitValue(c) == d
  {
    ('0' as int + d) as char
  }

  /** Python `str(n)` for a non-negative `n`: its decimal digits, no leading zero. */
  function NatToString(n: nat): (s: string)
    ensures |s| >= 1 && AllDigits(s)
    ensures |s| > 1 ==> s[0] != '0'
    decreases n
  {
    if n < 10 then [DigitChar(n)]
    else NatToString(n / 10) + [DigitChar(n % 10)]
  }

  /** Python `int(s)` on a string of decimal digits. */
  function ParseNat(s: string): nat
    requires AllDigits(s)
  {
    if s == [] then 0
    else 10 * ParseNat(s[..|s| - 1]) + DigitValue(s[|s| - 1])
  }

  /** Reading back the decimal rendering of `n` gives `n`. */
  lemma {:induction false} ParseNatToString(n: nat)
    ensures ParseNat(NatToString(n)) == n
    decreases n
  {
    if n >= 10 {
      ParseNatToString(n / 10);
      var s := NatToString(n);
      assert s[..|s| - 1] == NatToString(n / 10);
    }
  }

  /** Python `str(i)` for any integer. */
  function IntToString(i: int): string {
    if i < 0 then "-" + NatToString(-i) else NatToString(i)
  }

  /** Python `int(s)` on an optional minus sign followed by decimal digits. */
  function ParseInt(s: string): int
    requires |s| > 0 && (if s[0] == '-' then AllDigits(s[1..]) else AllDigits(s))
  {
    if s[0] == '-' then -(ParseNat(s[1..]) as int) else ParseNat(s)
  }

  /** A string of digits holds no tab, newline or space. */
  lemma DigitsHaveNoSeparator(s: string)
    requires AllDigits(s)
    ensures '\t' !in s && '\n' !in s && ' ' !in s
  {
    forall c | c in s
      ensures IsDigit(c)
    {
      var k :| 0 <= k < |s| && s[k] == c;
    }
  }

  /** Reading back the decimal rendering of `i` gives `i`; it never contains a tab, a newline or a space. */
  lemma IntToStringRoundTrip(i: int)
    ensures var s := IntToString(i);
      |s| > 0 && (if s[0] == '-' then AllDigits(s[1..]) else AllDigits(s)) && ParseInt(s) == i
    ensures '\t' !in IntToString(i) && '\n' !in IntToString(i) && ' ' !in IntToString(i)
  {
    if i < 0 {
      var d := NatToString(-i);
      ParseNatToString(-i);
      DigitsHaveNoSeparator(d);
      assert ("-" + d)[1..] == d;
    } else {
      ParseNatToString(i);
      DigitsHaveNoSeparator(NatToString(i));
    }
  }

  /** Python `f"{n:02}"`: at least two digits, zero-padded. */
  function Pad2(n: nat): (s: string)
    ensures |s| >= 2 && AllDigits(s) && ParseNat(s) == n
  {
    ParseNatToString(n);
    if n < 10 then
      var s := "0" + NatToString(n);
      assert s[1..] == NatToString(n);
      ParseLeadingZero(NatToString(n));
      s
    else NatToString(n)
  }

  /** A leading zero does not change the value read. */
  lemma {:induction false} ParseLeadingZero(s: string)
    requires AllDigits(s)
    ensures AllDigits("0" + s) && ParseNat("0" + s) == ParseNat(s)
    decreases |s|
  {
    if s != [] {
      ParseLeadingZero(s[..|s| - 1]);
      assert ("0" + s)[..|s|] == "0" + s[..|s| - 1];
    }
  }
}
