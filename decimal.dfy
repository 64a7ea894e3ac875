/** Decimal rendering of integers (JavaScript's `Number.prototype.toString()` on integral values). */
module Decimal {

  function DigitChar(d: int): char
    requires 0 <= d < 10
  {
    "0123456789"[d]
  }

  function DigitValue(c: char): int
  {
    if '0' <= c <= '9' then (c as int) - ('0' as int) else 0
  }

  /** Decimal digits of a natural number, most significant first, without leading zeros. */
  function NatString(n: nat): (r: string)
    ensures |r| > 0
    ensures forall i :: 0 <= i < |r| ==> '0' <= r[i] <= '9'
  {
    if n < 10 then [DigitChar(n)] else NatString(n / 10) + [DigitChar(n % 10)]
  }

  /** `n.toString()`: a minus sign for negative values, then the digits. */
  function IntString(n: int): string
  {
    if n < 0 then "-" + NatString(-n) else NatString(n)
  }

  /** Reads a digit string back into its value. */
  function ParseDigits(s: string): nat
  {
    if s == [] then 0 else ParseDigits(s[..|s| - 1]) * 10 + DigitValue(s[|s| - 1])
  }

  function ParseInt(s: string): int
  {
    if |s| > 0 && s[0] == '-' then 0 - ParseDigits(s[1..]) else ParseDigits(s)
  }

  lemma DigitRoundTrip(d: int)
    requires 0 <= d < 10
    ensures DigitValue(DigitChar(d)) == d
  {
  }

  /** Reading back the digits of `n` gives `n`. */
  lemma {:induction false} NatStringRoundTrip(n: nat)
    ensures ParseDigits(NatString(n)) == n
  {
    DigitRoundTrip(n % 10);
    if n >= 10 {
      var prefix := NatString(n / 10);
      NatStringRoundTrip(n / 10);
      assert (prefix + [DigitChar(n % 10)])[..|prefix|] == prefix;
    } else {
      assert [DigitChar(n)][..0] == [];
    }
  }

  /** The rendered number is recovered exactly, sign included. */
  lemma {:induction false} IntStringRoundTrip(n: int)
    ensures ParseInt(IntString(n)) == n
  {
    if n < 0 {
      var digits := NatString(-n);
      NatStringRoundTrip(-n);
      assert ("-" + digits)[1..] == digits;
      assert ParseInt("-" + digits) == 0 - ParseDigits(digits);
    } else {
      var digits := NatString(n);
      NatStringRoundTrip(n);
      assert digits[0] != '-';
    }
  }
}
