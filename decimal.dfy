/** Python's `str(n)` for integers, as it appears in f-string URLs
    (`offset={offset}`, `/{year}/`), with its parser as the inverse. */
module Decimal {
  function DigitChar(d: nat): (c: char)
    requires d < 10
    ensures '0' <= c <= '9'
  {
    ['0', '1', '2', '3', '4', '5', '6', '7', '8', '9'][d]
  }

  function DigitValue(c: char): nat {
    if '0' <= c <= '9' then (c - '0') as nat else 0
  }

  lemma DigitRoundTrip(d: nat)
    requires d < 10
    ensures DigitValue(DigitChar(d)) == d
  {
  }

  /** The decimal digits of `n`, most significant first, without leading zeros. */
  function NatToDecimal(n: nat): (s: string)
    ensures |s| >= 1
    ensures forall i :: 0 <= i < |s| ==> '0' <= s[i] <= '9'
    ensures n >= 10 <==> |s| >= 2
  {
    if n < 10 then [DigitChar(n)] else NatToDecimal(n / 10) + [DigitChar(n % 10)]
  }

  /** `str(n)`: a leading `-` for negative numbers. */
  function IntToDecimal(n: int): (s: string)
    ensures s != [] && (s[0] == '-' <==> n < 0)
  {
    if n < 0 then ['-'] + NatToDecimal(-n) else NatToDecimal(n)
  }

  /** Reads a string of digits back as a number. */
  function ParseNat(s: string): nat {
    if s == [] then 0 else 10 * ParseNat(s[..|s| - 1]) + DigitValue(s[|s| - 1])
  }

  function ParseInt(s: string): int {
    if s != [] && s[0] == '-' then -(ParseNat(s[1..]) as int) else ParseNat(s)
  }

  lemma {:induction false} ParseNatToDecimal(n: nat)
    ensures ParseNat(NatToDecimal(n)) == n
  {
    var s := NatToDecimal(n);
    if n < 10 {
      assert s[..0] == [];
      DigitRoundTrip(n);
    } else {
      assert s[..|s| - 1] == NatToDecimal(n / 10);
      ParseNatToDecimal(n / 10);
      DigitRoundTrip(n % 10);
    }
  }

  lemma ParseIntToDecimal(n: int)
    ensures ParseInt(IntToDecimal(n)) == n
  {
    if n < 0 {
      ParseNegative(-n);
    } else {
      ParseNonNegative(n);
    }
  }

  lemma ParseNegative(m: nat)
    requires m > 0
    ensures ParseInt(IntToDecimal(-(m as int))) == -(m as int)
  {
    var digits := NatToDecimal(m);
    assert IntToDecimal(-(m as int)) == ['-'] + digits;
    ParseNatToDecimal(m);
    ParseSigned(digits);
  }

  lemma ParseNonNegative(n: nat)
    ensures ParseInt(IntToDecimal(n)) == n
  {
    var digits := NatToDecimal(n);
    assert IntToDecimal(n) == digits;
    ParseNatToDecimal(n);
    ParseUnsigned(digits);
  }

  lemma ParseSigned(digits: string)
    ensures ParseInt(['-'] + digits) == -(ParseNat(digits) as int)
  {
    var s := ['-'] + digits;
    assert s[1..] == digits;
  }

  lemma ParseUnsigned(s: string)
    requires forall i :: 0 <= i < |s| ==> '0' <= s[i] <= '9'
    ensures ParseInt(s) == ParseNat(s)
  {
  }

  /** Distinct numbers print differently. */
  lemma IntToDecimalInjective(a: int, b: int)
    requires IntToDecimal(a) == IntToDecimal(b)
    ensures a == b
  {
    ParseIntToDecimal(a);
    ParseIntToDecimal(b);
  }

  lemma NatToDecimalInjective(a: nat, b: nat)
    requires NatToDecimal(a) == NatToDecimal(b)
    ensures a == b
  {
    ParseNatToDecimal(a);
    ParseNatToDecimal(b);
  }
}
