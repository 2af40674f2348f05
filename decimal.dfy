/** Python's `str(n)` for an `int`: the decimal rendering used when the LIMIT
    clause is appended (`f"{query} LIMIT {limit}"`) and when an integer value is
    formatted into a line of text. */
module Decimal {

  predicate IsDigit(c: char) {
    '0' <= c <= '9'
  }

  predicate AllDigits(s: string) {
    forall i :: 0 <= i < |s| ==> IsDigit(s[i])
  }

  function DigitChar(d: nat): (c: char)
    requires d < 10
    ensures IsDigit(c)
  {
    ('0' as int + d) as char
  }

  /** Decimal digits of a natural number: never empty, digits only, and no
      leading zero unless the number is zero itself. */
  function NatToDecimal(n: nat): (s: string)
    ensures |s| >= 1 && AllDigits(s)
    ensures s[0] == '0' ==> n == 0 && s == "0"
    decreases n
  {
    if n < 10 then [DigitChar(n)] else NatToDecimal(n / 10) + [DigitChar(n % 10)]
  }

  /** `str(i)`: a minus sign exactly for negative numbers, then the digits of
      the magnitude, in canonical form. */
  function IntToDecimal(i: int): (s: string)
    ensures Canonical(s)
    ensures s[0] == '-' <==> i < 0
    ensures i < 0 ==> AllDigits(s[1..])
    ensures i >= 0 ==> AllDigits(s)
  {
    if i < 0 then "-" + NatToDecimal(-i) else NatToDecimal(i)
  }

  /** The number a string of digits denotes (the reading side of `int(s)`). */
  function DigitsValue(s: string): nat
    requires AllDigits(s)
    decreases |s|
  {
    if s == [] then 0
    else 10 * DigitsValue(s[..|s| - 1]) + (s[|s| - 1] as int - '0' as int)
  }

  /** An optional minus sign followed by at least one digit. */
  predicate IsDecimal(s: string) {
    (|s| > 1 && s[0] == '-' && AllDigits(s[1..])) || (|s| > 0 && AllDigits(s))
  }

  /** The form `str(int)` produces: no leading zero other than `0` itself, and
      no minus sign before a zero. */
  predicate Canonical(s: string) {
    && IsDecimal(s)
    && (s[0] == '-' ==> s[1] != '0')
    && (s[0] == '0' ==> s == "0")
  }

  /** The number an optionally signed digit string denotes. */
  function DecimalValue(s: string): int
    requires IsDecimal(s)
  {
    if |s| > 0 && s[0] == '-' && AllDigits(s[1..]) then -(DigitsValue(s[1..]) as int) else DigitsValue(s)
  }

  lemma {:induction false} NatToDecimalRoundTrip(n: nat)
    ensures DigitsValue(NatToDecimal(n)) == n
    decreases n
  {
    if n >= 10 {
      var s := NatToDecimal(n);
      assert s[..|s| - 1] == NatToDecimal(n / 10);
      NatToDecimalRoundTrip(n / 10);
    }
  }

  /** Reading back the rendering of an integer gives the integer. */
  lemma IntToDecimalRoundTrip(i: int)
    ensures DecimalValue(IntToDecimal(i)) == i
  {
    var s := IntToDecimal(i);
    if i < 0 {
      var digits := NatToDecimal(-i);
      assert s[1..] == digits;
      NatToDecimalRoundTrip(-i);
      assert DecimalValue(s) == -(DigitsValue(digits) as int);
    } else {
      assert s == NatToDecimal(i);
      NatToDecimalRoundTrip(i);
      assert DecimalValue(s) == DigitsValue(s);
    }
  }

  /** Digits without a leading zero (other than `0` itself) are the rendering
      of the number they denote. */
  lemma {:induction false} CanonicalDigits(a: string)
    requires |a| >= 1 && AllDigits(a) && (a[0] == '0' ==> |a| == 1)
    ensures NatToDecimal(DigitsValue(a)) == a
    decreases |a|
  {
    var n := |a|;
    var d := a[n - 1] as int - '0' as int;
    if n == 1 {
      assert a[..0] == [];
      assert DigitsValue(a) == d;
      assert [DigitChar(d)] == a;
    } else {
      var p := a[..n - 1];
      assert p[0] == a[0];
      CanonicalDigits(p);
      var v := DigitsValue(p);
      assert NatToDecimal(0) == "0";
      assert v != 0;
      assert DigitsValue(a) == 10 * v + d;
      assert DigitsValue(a) / 10 == v && DigitsValue(a) % 10 == d;
      assert a == p + [DigitChar(d)];
    }
  }

  /** A canonical decimal is `str` of the integer it denotes, so `str(i)` is
      the only canonical decimal with value `i`. */
  lemma CanonicalIsStr(s: string)
    requires Canonical(s)
    ensures IntToDecimal(DecimalValue(s)) == s
  {
    if s[0] == '-' {
      CanonicalNegative(s);
    } else {
      CanonicalUnsigned(s);
    }
  }

  lemma CanonicalNegative(s: string)
    requires Canonical(s) && s[0] == '-'
    ensures IntToDecimal(DecimalValue(s)) == s
  {
    var digits := s[1..];
    assert digits[0] == s[1];
    CanonicalDigits(digits);
    var v := DigitsValue(digits);
    assert NatToDecimal(0) == "0";
    assert v > 0;
    assert DecimalValue(s) == -(v as int);
    assert IntToDecimal(-(v as int)) == "-" + NatToDecimal(v);
    assert s == "-" + digits;
  }

  lemma CanonicalUnsigned(s: string)
    requires Canonical(s) && s[0] != '-'
    ensures IntToDecimal(DecimalValue(s)) == s
  {
    assert !IsDigit('-');
    CanonicalDigits(s);
    assert DecimalValue(s) == DigitsValue(s);
  }
}
