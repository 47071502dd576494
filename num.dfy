/**
 * Unsigned machine integers and the decimal rendering that Rust's `{}`
 * formatting gives them (used by the `Display` of lifecycle events).
 */
module Num {

  /** Exclusive upper bound of `u64`. */
  const U64_LIMIT: nat := 0x1_0000_0000_0000_0000

  /** Rust's `u64`. */
  type u64 = n: nat | n < 0x1_0000_0000_0000_0000

  /** The value of `x as u64` for a non-negative `x`: the low 64 bits. */
  function TruncateU64(x: nat): (r: u64)
    ensures x < U64_LIMIT ==> r == x
    ensures r < U64_LIMIT
  {
    x % U64_LIMIT
  }

  predicate IsDigit(c: char) {
    '0' <= c <= '9'
  }

  predicate AllDigits(s: string) {
    forall i :: 0 <= i < |s| ==> IsDigit(s[i])
  }

  function DigitChar(d: nat): (c: char)
    requires d < 10
    ensures IsDigit(c)
  {
    ('0' as int + d) as char
  }

  function DigitValue(c: char): (d: nat)
    requires IsDigit(c)
    ensures d < 10
  {
    c as int - '0' as int
  }

  /** The decimal digits of `n`, most significant first, without leading zeros. */
  function Decimal(n: nat): (s: string)
    ensures 1 <= |s|
    ensures AllDigits(s)
    ensures |s| > 1 ==> s[0] != '0'
    decreases n
  {
    if n < 10 then [DigitChar(n)] else Decimal(n / 10) + [DigitChar(n % 10)]
  }

  /** Reads a string of decimal digits back as a number. */
  function ParseDecimal(s: string): (n: nat)
    requires AllDigits(s)
    decreases |s|
  {
    if |s| == 0 then 0 else ParseDecimal(s[..|s| - 1]) * 10 + DigitValue(s[|s| - 1])
  }

  /** Reading back the rendering of a number gives the number. */
  lemma {:induction false} DecimalRoundTrip(n: nat)
    ensures ParseDecimal(Decimal(n)) == n
    decreases n
  {
    var s := Decimal(n);
    if n >= 10 {
      DecimalRoundTrip(n / 10);
      assert s[..|s| - 1] == Decimal(n / 10);
    }
  }

  /** Two numbers with the same rendering are equal. */
  lemma DecimalInjective(a: nat, b: nat)
    requires Decimal(a) == Decimal(b)
    ensures a == b
  {
    DecimalRoundTrip(a);
    DecimalRoundTrip(b);
  }
}
