/** Identifiers of the admission pipeline and their decimal rendering.

    Concert ids are JVM `Long`s and enter store keys and lock names through
    Kotlin string templates, that is through `Long.toString`: an optional
    minus sign followed by the decimal digits without leading zeros. User ids
    are random UUIDs; their canonical text form is fixed-width lower-case
    hexadecimal, so comparing two of them as strings agrees with comparing
    them as 128-bit numbers, which is how they are modelled here. */
module Ids {

  const LONG_MIN: int := -0x8000_0000_0000_0000
  const LONG_MAX: int := 0x7FFF_FFFF_FFFF_FFFF

  type Long = x: int | LONG_MIN <= x <= LONG_MAX

  const UUID_BOUND: int := 0x1_0000_0000_0000_0000_0000_0000_0000_0000

  /** A UUID, read as the 128-bit number its canonical text spells. */
  type UserId = u: nat | u < UUID_BOUND

  predicate IsDigit(c: char) {
    '0' <= c <= '9'
  }

  function DigitChar(d: nat): (c: char)
    requires d < 10
    ensures IsDigit(c)
  {
    "0123456789"[d]
  }

  function DigitValue(c: char): (d: nat)
    requires IsDigit(c)
    ensures d < 10 && DigitChar(d) == c
  {
    (c as int) - ('0' as int)
  }

  /** Decimal digits of `n`, most significant first, no leading zeros. */
  function NatToString(n: nat): (s: string)
    ensures 1 <= |s|
    ensures forall i :: 0 <= i < |s| ==> IsDigit(s[i])
    ensures |s| > 1 ==> s[0] != '0'
    decreases n
  {
    if n < 10 then [DigitChar(n)] else NatToString(n / 10) + [DigitChar(n % 10)]
  }

  /** `Long.toString`. */
  function LongToString(x: Long): string {
    if x < 0 then "-" + NatToString(-(x as int)) else NatToString(x)
  }

  predicate AllDigits(s: string) {
    forall i :: 0 <= i < |s| ==> IsDigit(s[i])
  }

  /** Reads back a non-empty digit string. */
  function ParseNat(s: string): nat
    requires 1 <= |s| && AllDigits(s)
    decreases |s|
  {
    if |s| == 1 then DigitValue(s[0])
    else ParseNat(s[..|s| - 1]) * 10 + DigitValue(s[|s| - 1])
  }

  function ParseLong(s: string): int
    requires 1 <= |s|
    requires s[0] == '-' ==> 2 <= |s| && AllDigits(s[1..])
    requires s[0] != '-' ==> AllDigits(s)
  {
    if s[0] == '-' then -(ParseNat(s[1..]) as int) else ParseNat(s)
  }

  lemma {:induction false} NatRoundTrip(n: nat)
    ensures ParseNat(NatToString(n)) == n
    decreases n
  {
    var s := NatToString(n);
    if n >= 10 {
      NatRoundTrip(n / 10);
      assert s[..|s| - 1] == NatToString(n / 10);
      assert s[|s| - 1] == DigitChar(n % 10);
    }
  }

  lemma LongRoundTrip(x: Long)
    ensures var s := LongToString(x);
              && 1 <= |s|
              && (s[0] == '-' ==> 2 <= |s| && AllDigits(s[1..]))
              && (s[0] != '-' ==> AllDigits(s))
              && ParseLong(s) == x
  {
    var s := LongToString(x);
    if x < 0 {
      assert s[1..] == NatToString(-(x as int));
      NatRoundTrip(-(x as int));
    } else {
      NatRoundTrip(x);
    }
  }

  /** Distinct ids render to distinct strings. */
  lemma LongToStringInjective(a: Long, b: Long)
    ensures LongToString(a) == LongToString(b) ==> a == b
  {
    LongRoundTrip(a);
    LongRoundTrip(b);
  }

  function Pow10(k: nat): (p: nat)
    ensures p >= 1
  {
    if k == 0 then 1 else 10 * Pow10(k - 1)
  }

  lemma {:induction false} NatToStringLength(n: nat, k: nat)
    requires 1 <= k && n < Pow10(k)
    ensures |NatToString(n)| <= k
    decreases k
  {
    if n >= 10 {
      assert k >= 2;
      NatToStringLength(n / 10, k - 1);
    }
  }

  lemma Pow10Nineteen()
    ensures Pow10(19) == 10_000_000_000_000_000_000
  {
    assert Pow10(4) == 10_000;
    assert Pow10(8) == 100_000_000;
    assert Pow10(12) == 1_000_000_000_000;
    assert Pow10(16) == 10_000_000_000_000_000;
  }

  /** A rendered `Long` is at most twenty characters (sign and nineteen digits). */
  lemma LongToStringLength(x: Long)
    ensures |LongToString(x)| <= 20
  {
    Pow10Nineteen();
    if x < 0 {
      NatToStringLength(-(x as int), 19);
    } else {
      NatToStringLength(x, 19);
    }
  }
}
