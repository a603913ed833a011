/** The per-segment computation `calculate` of the depreciation calculator:
    the rounded straight-line share of one calendar year, and the closing part
    that absorbs whatever residual is left. */
module Kernel {

  const MonthsInYear := 12

  /** The value of a JavaScript division of two numbers: a finite quotient,
      an infinity (for a non-zero numerator over zero) or NaN (for 0 / 0). */
  datatype Ratio = Finite(value: real) | Infinity(negative: bool) | NaN

  function Divide(n: int, d: int): (r: Ratio)
    ensures d != 0 ==> r.Finite? && r.value * d as real == n as real
    ensures d == 0 && n == 0 ==> r == NaN
    ensures d == 0 && n != 0 ==> r == Infinity(n < 0)
  {
    if d != 0 then Finite(n as real / d as real)
    else if n == 0 then NaN
    else Infinity(n < 0)
  }

  /** `Math.round` on an exact real: the nearest integer, halves rounded up. */
  function MathRound(x: real): (r: int)
    ensures r as real - 0.5 <= x < r as real + 0.5
  {
    (x + 0.5).Floor
  }

  /** `r` is `n / d` rounded to the nearest integer, halves rounded up. */
  predicate IsRoundedQuotient(r: int, n: int, d: int)
  {
    2 * d * r - d <= 2 * n < 2 * d * r + d
  }

  /** `Math.round(n / d)` on integers, computed without reals. */
  function RoundHalfUp(n: int, d: int): (r: int)
    requires d > 0
    ensures IsRoundedQuotient(r, n, d)
  {
    var q := (2 * n + d) / (2 * d);
    assert 2 * n + d == 2 * d * q + (2 * n + d) % (2 * d);
    q
  }

  /** At most one integer is the rounded quotient. */
  lemma RoundedQuotientUnique(r: int, s: int, n: int, d: int)
    requires d > 0
    requires IsRoundedQuotient(r, n, d) && IsRoundedQuotient(s, n, d)
    ensures r == s
  {
    if r != s {
      var lo, hi := if r < s then r else s, if r < s then s else r;
      var k := hi - lo;
      assert 2 * d * hi == 2 * d * lo + 2 * d * k;
      MultiplyAtLeastOnce(2 * d, k);
    }
  }

  lemma MultiplyAtLeastOnce(a: int, k: int)
    requires a > 0 && k >= 1
    ensures a * k >= a
  {
  }

  /** The integer rounding agrees with `Math.round` applied to the exact quotient. */
  lemma RoundHalfUpIsMathRound(n: int, d: int)
    requires d > 0
    ensures RoundHalfUp(n, d) == MathRound(n as real / d as real)
  {
    var x := n as real / d as real;
    var r := MathRound(x);
    RealBracket(x, r as real, d as real, n as real);
    CastProduct(2 * d, r);
    assert (2 * d * r - d) as real == 2.0 * (r as real) * (d as real) - d as real;
    assert (2 * d * r + d) as real == 2.0 * (r as real) * (d as real) + d as real;
    assert (2 * n) as real == 2.0 * n as real;
    RoundedQuotientUnique(RoundHalfUp(n, d), r, n, d);
  }

  /** `x = n / d` within half of `r`, multiplied out by `2 * d`. */
  lemma RealBracket(x: real, r: real, d: real, n: real)
    requires d > 0.0 && x * d == n
    requires r - 0.5 <= x < r + 0.5
    ensures 2.0 * r * d - d <= 2.0 * n
    ensures 2.0 * n < 2.0 * r * d + d
  {
    var twoD := 2.0 * d;
    assert x * twoD == 2.0 * n;
    ScaleLe(r - 0.5, x, twoD);
    assert (r - 0.5) * twoD == 2.0 * r * d - d;
    ScaleLt(x, r + 0.5, twoD);
    assert (r + 0.5) * twoD == 2.0 * r * d + d;
    assert x * twoD < (r + 0.5) * twoD;
    assert 2.0 * n < (r + 0.5) * twoD;
  }

  lemma ScaleLe(a: real, b: real, c: real)
    requires a <= b && c > 0.0
    ensures a * c <= b * c
  {
  }

  lemma ScaleLt(a: real, b: real, c: real)
    requires a < b && c > 0.0
    ensures a * c < b * c
  {
  }

  lemma CastProduct(a: int, b: int)
    ensures (a * b) as real == a as real * b as real
  {
  }

  /** The JavaScript expression `purchaseAmount / years / 12 * months`,
      evaluated on exact reals, is the quotient `purchaseAmount * months / (12 * years)`. */
  lemma StraightLineShare(purchaseAmount: int, years: int, months: int)
    requires years > 0
    ensures purchaseAmount as real / years as real / MonthsInYear as real * months as real
            == (purchaseAmount * months) as real / (MonthsInYear * years) as real
  {
  }

  /** What `calculate` returns for one segment. */
  datatype Part = Part(depreciationAmount: int, percentage: Ratio, startAmount: int, endAmount: int)

  /** `calculate`: an ordinary segment depreciates its rounded straight-line share
      of the purchase amount; the last segment depreciates the whole previous residual
      and ends at zero. Only ever called with at least one depreciation year. */
  function Calculate(purchaseAmount: int, totalDepreciationYears: int, previousEndAmount: int,
                     monthsLeft: int, isLastPart: bool): (p: Part)
    requires totalDepreciationYears > 0
    ensures p.startAmount == previousEndAmount
    ensures p.endAmount == p.startAmount - p.depreciationAmount
    ensures p.percentage == Divide(p.depreciationAmount, purchaseAmount)
    ensures isLastPart ==> p.depreciationAmount == previousEndAmount && p.endAmount == 0
  {
    var depreciationAmount := RoundHalfUp(purchaseAmount * monthsLeft, MonthsInYear * totalDepreciationYears);
    var newEndAmount := previousEndAmount - depreciationAmount;
    if isLastPart then
      Part(previousEndAmount, Divide(previousEndAmount, purchaseAmount), previousEndAmount, 0)
    else
      Part(depreciationAmount, Divide(depreciationAmount, purchaseAmount), previousEndAmount, newEndAmount)
  }

  /** An ordinary part depreciates `purchaseAmount * months / (12 * years)` rounded
      half up: the straight-line monthly rate times the months of the segment. */
  lemma OrdinaryPartRounds(purchaseAmount: int, totalDepreciationYears: int, previousEndAmount: int,
                           monthsLeft: int)
    requires totalDepreciationYears > 0
    ensures var p := Calculate(purchaseAmount, totalDepreciationYears, previousEndAmount, monthsLeft, false);
            IsRoundedQuotient(p.depreciationAmount, purchaseAmount * monthsLeft,
                              MonthsInYear * totalDepreciationYears) &&
            p.depreciationAmount
              == MathRound(purchaseAmount as real / totalDepreciationYears as real
                           / MonthsInYear as real * monthsLeft as real)
  {
    StraightLineShare(purchaseAmount, totalDepreciationYears, monthsLeft);
    RoundHalfUpIsMathRound(purchaseAmount * monthsLeft, MonthsInYear * totalDepreciationYears);
  }
}
