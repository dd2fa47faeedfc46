/**
 * Problem1/sumton.js: the sum 1 + 2 + ... + n computed three ways.
 * JavaScript numbers are modelled as unbounded integers; the formula's `/`
 * is real division, so `SumToNFormula` returns a `real`.
 */
module SumToN {

  /** sum_to_n_c: 0 for n <= 0, otherwise n plus the sum below it. */
  function SumToNRecursive(n: int): (r: int)
    ensures r >= 0
    ensures n > 0 ==> 2 * r == n * (n + 1)
  {
    if n <= 0 then 0 else n + SumToNRecursive(n - 1)
  }

  /** sum_to_n_a: the `for` loop from 1 to n accumulating into `sum`. */
  method SumToNLoop(n: int) returns (sum: int)
    ensures sum == SumToNRecursive(n)
    ensures n <= 0 ==> sum == 0
    ensures n >= 0 ==> sum as real == SumToNFormula(n)
  {
    sum := 0;
    var i := 1;
    while i <= n
      invariant 1 <= i <= if n < 1 then 1 else n + 1
      invariant sum == SumToNRecursive(i - 1)
    {
      sum := sum + i;
      i := i + 1;
    }
    if n >= 0 {
      FormulaAgreesFromMinusOne(n);
    }
  }

  lemma {:induction false} ConsecutiveProductIsEven(n: int)
    ensures (n * (1 + n)) % 2 == 0
  {
    var k := n / 2;
    if n % 2 == 0 {
      assert n == 2 * k;
      assert n * (1 + n) == 2 * (k * (1 + n));
    } else {
      assert 1 + n == 2 * (k + 1);
      assert n * (1 + n) == 2 * (n * (k + 1));
    }
  }

  /** sum_to_n_b: n * (1 + n) / 2 with real division. */
  function SumToNFormula(n: int): (r: real)
    ensures r == ((n * (1 + n)) / 2) as real  // the quotient is an exact integer
  {
    ConsecutiveProductIsEven(n);
    (n * (1 + n)) as real / 2.0
  }

  /** The formula agrees with the recursion (and so with the loop) exactly when n >= -1. */
  lemma FormulaAgreesFromMinusOne(n: int)
    requires n >= -1
    ensures SumToNFormula(n) == SumToNRecursive(n) as real
  {
  }

  /** For negative n the formula gives the sum 1 + ... + (-1 - n), where the loop gives 0. */
  lemma FormulaBelowZero(n: int)
    requires n < 0
    ensures SumToNFormula(n) == SumToNRecursive(-1 - n) as real
  {
  }

  lemma FormulaAgreesIff(n: int)
    ensures SumToNFormula(n) == SumToNRecursive(n) as real <==> n >= -1
  {
  }

  /** n = -3: the formula gives 3 while the loop and the recursion give 0; n = -1 agrees at 0. */
  lemma NegativeExamples()
    ensures SumToNFormula(-3) == 3.0 && SumToNRecursive(-3) == 0
    ensures SumToNFormula(-1) == 0.0 && SumToNRecursive(-1) == 0
  {
  }

  /** The fixtures of Problem1/test_sumton.js for the recursion and the formula. */
  lemma TestFixtures()
    ensures SumToNRecursive(1) == 1 && SumToNFormula(1) == 1.0
    ensures SumToNRecursive(5) == 15 && SumToNFormula(5) == 15.0
    ensures SumToNRecursive(10) == 55 && SumToNFormula(10) == 55.0
    ensures SumToNRecursive(100) == 5050 && SumToNFormula(100) == 5050.0
  {
  }

  /** The loop on the same fixtures. */
  method LoopFixtures() returns (a1: int, a5: int, a10: int, a100: int)
    ensures a1 == 1 && a5 == 15 && a10 == 55 && a100 == 5050
  {
    a1 := SumToNLoop(1);
    a5 := SumToNLoop(5);
    a10 := SumToNLoop(10);
    a100 := SumToNLoop(100);
  }
}
