/** Exact-real statistics used by the metrics: sums, means, the ddof=1 sample
    variance behind pandas `std`, and `int()` truncation. */
module Stats {

  /** Trading days per year used to annualise volatility and mean return. */
  const TradingDays: real := 252.0

  /** Every value is strictly positive. */
  predicate AllPositive(s: seq<real>) {
    forall i :: 0 <= i < |s| ==> s[i] > 0.0
  }

  /** No value is below an earlier one. */
  predicate NonDecreasing(s: seq<real>) {
    forall i, j :: 0 <= i <= j < |s| ==> s[i] <= s[j]
  }

  /** Every value equals the first one. */
  predicate Constant(s: seq<real>) {
    forall i :: 0 <= i < |s| ==> s[i] == s[0]
  }

  function Sum(s: seq<real>): real {
    if |s| == 0 then 0.0 else s[0] + Sum(s[1..])
  }

  lemma {:induction false} SumConcat(a: seq<real>, b: seq<real>)
    ensures Sum(a + b) == Sum(a) + Sum(b)
  {
    if |a| == 0 {
      assert a + b == b;
    } else {
      assert (a + b)[1..] == a[1..] + b;
      SumConcat(a[1..], b);
    }
  }

  lemma {:induction false} SumOfConstant(s: seq<real>, c: real)
    requires forall i :: 0 <= i < |s| ==> s[i] == c
    ensures Sum(s) == |s| as real * c
  {
    if |s| > 0 {
      SumOfConstant(s[1..], c);
    }
  }

  function Mean(s: seq<real>): real
    requires |s| > 0
  {
    Sum(s) / |s| as real
  }

  /** Product of two reals. Kept behind a function with two distinct
      parameters so that sign facts about it are proved once and reused. */
  /** `a * b` under a name of its own. Contracts about shares and squares
      use it so that the solver meets a product of two variables only
      where a proof unfolds it, instead of attempting nonlinear arithmetic
      wherever such a fact is in scope. */
  function Product(a: real, b: real): real {
    a * b
  }

  lemma ProductSign(a: real, b: real)
    ensures (a > 0.0 && b > 0.0) || (a < 0.0 && b < 0.0) ==> Product(a, b) > 0.0
    ensures a == 0.0 || b == 0.0 ==> Product(a, b) == 0.0
  {
  }

  function Square(x: real): real {
    Product(x, x)
  }

  lemma SquareSign(x: real)
    ensures Square(x) >= 0.0
    ensures x != 0.0 ==> Square(x) > 0.0
  {
    ProductSign(x, x);
  }

  /** Sum of the squared deviations of the values from `m`. */
  function SquaredDeviations(s: seq<real>, m: real): (d: real)
    ensures d >= 0.0
  {
    if |s| == 0 then 0.0
    else
      SquareSign(s[0] - m);
      Square(s[0] - m) + SquaredDeviations(s[1..], m)
  }

  lemma {:induction false} NoDeviationMeansAllAtCentre(s: seq<real>, m: real)
    requires SquaredDeviations(s, m) == 0.0
    ensures forall i :: 0 <= i < |s| ==> s[i] == m
  {
    if |s| > 0 {
      SquareSign(s[0] - m);
      NoDeviationMeansAllAtCentre(s[1..], m);
      forall i | 1 <= i < |s|
        ensures s[i] == m
      {
        assert s[i] == s[1..][i - 1];
      }
    }
  }

  lemma {:induction false} NoDeviationFromOwnValue(s: seq<real>, c: real)
    requires forall i :: 0 <= i < |s| ==> s[i] == c
    ensures SquaredDeviations(s, c) == 0.0
  {
    if |s| > 0 {
      NoDeviationFromOwnValue(s[1..], c);
    }
  }

  /** Sample variance with ddof=1, the square of pandas `Series.std()`. */
  function SampleVariance(s: seq<real>): (v: real)
    requires |s| >= 2
    ensures v >= 0.0
  {
    SquaredDeviations(s, Mean(s)) / (|s| - 1) as real
  }

  lemma HalfSquare(d: real)
    ensures Square(d / 2.0) == Square(d) / 4.0
    ensures Square(-d) == Square(d)
  {
  }

  /** With ddof=1 the variance of two values is half their squared
      difference (ddof=0 would give a quarter). */
  lemma TwoPointVariance(s: seq<real>)
    requires |s| == 2
    ensures SampleVariance(s) == Square(s[0] - s[1]) / 2.0
  {
    var a, b := s[0], s[1];
    var d := a - b;
    assert Sum(s) == a + b by {
      assert s[1..][1..] == [];
      assert s[1..][0] == b;
      assert Sum(s[1..]) == b + Sum(s[1..][1..]);
    }
    var m := Mean(s);
    assert m == (a + b) / 2.0;
    assert a - m == d / 2.0 && b - m == -(d / 2.0);
    HalfSquare(d);
    assert SquaredDeviations(s[1..][1..], m) == 0.0 by {
      assert s[1..][1..] == [];
    }
    assert SquaredDeviations(s, m) == Square(d / 2.0) + Square(-(d / 2.0));
    HalfSquare(d / 2.0);
  }

  /** The guard `std() > 0` holds exactly when the values are not all equal. */
  lemma VariancePositiveIffNotConstant(s: seq<real>)
    requires |s| >= 2
    ensures SampleVariance(s) > 0.0 <==> !Constant(s)
  {
    var m := Mean(s);
    if Constant(s) {
      SumOfConstant(s, s[0]);
      assert m == s[0];
      NoDeviationFromOwnValue(s, s[0]);
    } else {
      var i :| 0 <= i < |s| && s[i] != s[0];
      if SquaredDeviations(s, m) == 0.0 {
        NoDeviationMeansAllAtCentre(s, m);
        assert false;
      }
      assert SquaredDeviations(s, m) > 0.0;
    }
  }

  /** An annualised volatility `sqrt(annualVariance)`, or NaN. The square
      root is irrational in general, so the model keeps its radicand. */
  datatype Volatility = VolUndefined | VolSqrt(annualVariance: real)

  /** pandas `returns.std() * sqrt(252)`: NaN for fewer than two values. */
  function AnnualVolatility(r: seq<real>): (v: Volatility)
    ensures v.VolUndefined? <==> |r| < 2
    ensures v.VolSqrt? ==> v.annualVariance >= 0.0
    ensures v.VolSqrt? ==> (v.annualVariance == 0.0 <==> Constant(r))
  {
    if |r| < 2 then VolUndefined
    else
      VariancePositiveIffNotConstant(r);
      VolSqrt(SampleVariance(r) * TradingDays)
  }

  /** Python `int(x)` on a float: truncation toward zero. */
  function Trunc(x: real): (n: int)
    ensures 0.0 <= x ==> n as real <= x < n as real + 1.0
    ensures x < 0.0 ==> n as real - 1.0 < x <= n as real
  {
    if x >= 0.0 then x.Floor else -((-x).Floor)
  }
}
