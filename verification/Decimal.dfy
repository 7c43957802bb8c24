/** Decimal numerals as ASCII bytes. */
module Decimal {
  import opened Utf8

  predicate IsDigit(b: Byte) { 48 <= b <= 57 }

  /** The decimal digits of `n`, without leading zeros. */
  function Digits(n: nat): (d: Text)
    ensures |d| > 0 && forall i :: 0 <= i < |d| ==> IsDigit(d[i])
  {
    if n < 10 then [48 + n] else Digits(n / 10) + [48 + n % 10]
  }

  /** The number a text of digits denotes. */
  function Value(d: Text): (n: nat)
    requires forall i :: 0 <= i < |d| ==> IsDigit(d[i])
  {
    if d == [] then 0 else
      assert IsDigit(d[|d| - 1]);
      10 * Value(d[..|d| - 1]) + (d[|d| - 1] as int - 48)
  }

  lemma {:induction false} DigitsHaveValue(n: nat)
    ensures Value(Digits(n)) == n
  {
    if n >= 10 {
      DigitsHaveValue(n / 10);
      assert Digits(n)[..|Digits(n)| - 1] == Digits(n / 10);
    } else {
      assert Digits(n)[..0] == [];
    }
  }

  /** How many digits small numbers take, and that large ones take few. */
  lemma {:induction false} DigitCount(n: nat)
    ensures n < 10 <==> |Digits(n)| == 1
    ensures 10 <= n < 100 <==> |Digits(n)| == 2
    ensures |Digits(n)| <= 1 + n / 10
  {
    if n >= 10 {
      DigitCount(n / 10);
    }
  }
}
