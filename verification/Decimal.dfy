/** Decimal digits and the numbers they denote. */
module Decimal {
  predicate IsDigit(c: char) { '0' <= c <= '9' }

  function DigitChar(d: nat): char
    requires d < 10
  {
    ('0' as int + d) as char
  }

  function DigitValue(c: char): int { c as int - 48 }

  /** The number a digit string denotes. */
  function Value(s: string): int {
    if s == "" then 0 else Value(s[..|s| - 1]) * 10 + DigitValue(s[|s| - 1])
  }

  predicate AllDigits(s: string) { forall i :: 0 <= i < |s| ==> IsDigit(s[i]) }

  /** The digits of a number, without leading zeros. */
  function Digits(k: nat): (s: string)
    ensures s != "" && AllDigits(s)
  {
    if k < 10 then [DigitChar(k)] else Digits(k / 10) + [DigitChar(k % 10)]
  }

  lemma {:induction false} ValueOfDigits(k: nat)
    ensures Value(Digits(k)) == k
  {
    if k < 10 {
      assert [DigitChar(k)][..0] == "";
    } else {
      ValueOfDigits(k / 10);
      assert Digits(k)[..|Digits(k)| - 1] == Digits(k / 10);
    }
  }
}
