/**
  Decimal rendering of a signed integer, as Go's `fmt.Sprint` prints an `int`:
  an optional '-' followed by the digits of the magnitude, with no leading zeros.

  `ParseDecimal` is an independent reference reader; the lemmas show that the
  rendering is exactly the set of canonical decimal strings, read back to the
  same value.
*/
module Decimal {
  import opened Wrappers

  predicate IsDigit(c: char) {
    '0' <= c <= '9'
  }

  predicate AllDigits(s: string) {
    forall i :: 0 <= i < |s| ==> IsDigit(s[i])
  }

  function DigitValue(c: char): (d: nat)
    requires IsDigit(c)
    ensures d < 10
  {
    c as int - '0' as int
  }

  function DigitChar(d: nat): (c: char)
    requires d < 10
    ensures IsDigit(c) && DigitValue(c) == d
  {
    ('0' as int + d) as char
  }

  /** A non-empty digit string without a superfluous leading zero. */
  predicate IsCanonicalNat(s: string) {
    |s| >= 1 && AllDigits(s) && (s[0] == '0' ==> |s| == 1)
  }

  /** What Go prints for an integer: a canonical magnitude, with '-' only before a non-zero one. */
  predicate IsCanonicalInt(s: string) {
    IsCanonicalNat(s) || (|s| >= 2 && s[0] == '-' && IsCanonicalNat(s[1..]) && s[1] != '0')
  }

  /** Digits of a natural number, most significant first. */
  function NatToDecimal(n: nat): (s: string)
    ensures IsCanonicalNat(s)
    ensures s[0] == '0' <==> n == 0
    decreases n
  {
    if n < 10 then [DigitChar(n)]
    else NatToDecimal(n / 10) + [DigitChar(n % 10)]
  }

  /** `fmt.Sprint(n)` for an integer `n`. */
  function IntToDecimal(n: int): (s: string)
    ensures IsCanonicalInt(s)
    ensures s[0] == '-' <==> n < 0
  {
    if n < 0 then "-" + NatToDecimal(-n) else NatToDecimal(n)
  }

  /** Value of a digit string read left to right (0 for the empty string). */
  function ParseNat(s: string): nat
    requires AllDigits(s)
    decreases |s|
  {
    if |s| == 0 then 0
    else ParseNat(s[..|s| - 1]) * 10 + DigitValue(s[|s| - 1])
  }

  /** Reference reader: an optional '-' followed by at least one digit. */
  function ParseDecimal(s: string): (r: Option<int>)
    ensures r.Some? ==> |s| >= 1
  {
    if |s| >= 2 && s[0] == '-' && AllDigits(s[1..]) then Some(-(ParseNat(s[1..]) as int))
    else if |s| >= 1 && AllDigits(s) then Some(ParseNat(s))
    else None
  }

  lemma ParseNatSnoc(p: string, c: char)
    requires AllDigits(p) && IsDigit(c)
    ensures AllDigits(p + [c])
    ensures ParseNat(p + [c]) == ParseNat(p) * 10 + DigitValue(c)
  {
    assert (p + [c])[..|p|] == p;
  }

  lemma {:induction false} NatRoundTrip(n: nat)
    ensures ParseNat(NatToDecimal(n)) == n
    decreases n
  {
    if n >= 10 {
      NatRoundTrip(n / 10);
      ParseNatSnoc(NatToDecimal(n / 10), DigitChar(n % 10));
    }
  }

  /** A canonical digit string with a leading non-zero digit has a value of at least 10^(len-1) > 0. */
  lemma {:induction false} ParseNatPositive(s: string)
    requires AllDigits(s) && |s| >= 1 && s[0] != '0'
    ensures ParseNat(s) >= 1
    decreases |s|
  {
    if |s| > 1 {
      var p := s[..|s| - 1];
      assert p[0] == s[0];
      ParseNatPositive(p);
    }
  }

  lemma {:induction false} NatCanonicalRoundTrip(s: string)
    requires IsCanonicalNat(s)
    ensures NatToDecimal(ParseNat(s)) == s
    decreases |s|
  {
    if |s| > 1 {
      var p := s[..|s| - 1];
      var c := s[|s| - 1];
      assert p[0] == s[0];
      assert IsCanonicalNat(p);
      ParseNatPositive(p);
      NatCanonicalRoundTrip(p);
      var n := ParseNat(s);
      assert n == ParseNat(p) * 10 + DigitValue(c);
      assert n / 10 == ParseNat(p) && n % 10 == DigitValue(c);
      assert s == p + [c];
    } else {
      assert s == [DigitChar(DigitValue(s[0]))];
    }
  }

  /** Printing then reading gives the integer back. */
  lemma DecimalRoundTrip(n: int)
    ensures ParseDecimal(IntToDecimal(n)) == Some(n)
  {
    var s := IntToDecimal(n);
    if n < 0 {
      assert s[1..] == NatToDecimal(-n);
      NatRoundTrip(-n);
    } else {
      NatRoundTrip(n);
    }
  }

  /** Reading a canonical decimal string and printing the value gives the string back. */
  lemma CanonicalRoundTrip(s: string)
    requires IsCanonicalInt(s)
    ensures ParseDecimal(s).Some? && IntToDecimal(ParseDecimal(s).value) == s
  {
    if s[0] == '-' {
      var m := s[1..];
      NatCanonicalRoundTrip(m);
      ParseNatPositive(m);
      var n := -(ParseNat(m) as int);
      assert ParseDecimal(s) == Some(n);
      assert IntToDecimal(n) == "-" + NatToDecimal(ParseNat(m));
      assert s == "-" + m;
    } else {
      NatCanonicalRoundTrip(s);
    }
  }

  /** The strings `fmt.Sprint` produces for integers are exactly the canonical decimal strings. */
  lemma DecimalCharacterization(s: string, n: int)
    ensures s == IntToDecimal(n) <==> IsCanonicalInt(s) && ParseDecimal(s) == Some(n)
  {
    if s == IntToDecimal(n) {
      DecimalRoundTrip(n);
    }
    if IsCanonicalInt(s) && ParseDecimal(s) == Some(n) {
      CanonicalRoundTrip(s);
    }
  }

  /** Distinct integers print differently. */
  lemma DecimalInjective(a: int, b: int)
    ensures IntToDecimal(a) == IntToDecimal(b) <==> a == b
  {
    DecimalRoundTrip(a);
    DecimalRoundTrip(b);
  }
}
