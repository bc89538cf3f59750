/** The dashboard's quick metrics over a NAV series: total return, CAGR,
    annualised volatility, Sharpe ratio and maximum drawdown. */
module Metrics {
  import opened Results
  import opened Stats
  import opened Returns
  import opened Drawdown

  /** Average year length used to turn elapsed days into years. */
  const DaysPerYear: real := 365.25

  /** CAGR `growth^(1/years) - 1`, or NaN. The fractional power is
      irrational in general, so the model keeps its two operands. */
  datatype Cagr = CagrUndefined | CagrRoot(growth: real, years: real)

  /** Sharpe ratio `annualMean / sqrt(annualVariance)`, or NaN. */
  datatype Sharpe = SharpeUndefined | SharpeRatio(annualMean: real, annualVariance: real)

  datatype Summary = Summary(total: real, cagr: Cagr, annVol: Volatility, sharpe: Sharpe, maxDrawdown: real)

  lemma PositiveRatio(a: real, b: real)
    requires a > 0.0 && b > 0.0
    ensures a / b > 0.0
  {
  }

  /** Total return `nav[last] / nav[first] - 1`: compounding the period
      returns reproduces it, and it is above -1 for a positive NAV. */
  function TotalReturn(nav: seq<real>): (total: real)
    requires AllPositive(nav) && |nav| > 0
    ensures total + 1.0 == Compound(PctChange(nav))
    ensures total > -1.0
    ensures Constant(nav) ==> total == 0.0
  {
    var first := nav[0];
    var last := nav[|nav| - 1];
    PositiveRatio(last, first);
    CompoundedReturns(nav);
    SelfRatio(first);
    last / first - 1.0
  }

  /** CAGR from the total return and the first and last day numbers: NaN
      unless some time has elapsed. */
  function CagrOf(total: real, firstDay: int, lastDay: int): (c: Cagr)
    ensures c.CagrUndefined? <==> lastDay <= firstDay
    ensures c.CagrRoot? ==> c.growth == 1.0 + total
    ensures c.CagrRoot? ==> c.years > 0.0 && c.years * DaysPerYear == (lastDay - firstDay) as real
  {
    var years := (lastDay - firstDay) as real / DaysPerYear;
    if years > 0.0 then CagrRoot(1.0 + total, years) else CagrUndefined
  }

  lemma MeanSign(s: seq<real>)
    requires |s| > 0
    ensures Mean(s) > 0.0 <==> Sum(s) > 0.0
  {
    var n := |s| as real;
    if Sum(s) > 0.0 {
      PositiveRatio(Sum(s), n);
    } else {
      assert -Sum(s) >= 0.0;
      assert Mean(s) == -((-Sum(s)) / n);
      if -Sum(s) > 0.0 {
        PositiveRatio(-Sum(s), n);
      }
    }
  }

  /** Sharpe ratio of the period returns: defined exactly when the ddof=1
      standard deviation is positive, i.e. when there are at least two
      returns and they are not all equal. Its denominator is the annualised
      volatility and it is positive exactly when the returns sum above 0. */
  function SharpeOf(rets: seq<real>): (s: Sharpe)
    ensures s.SharpeRatio? <==> |rets| >= 2 && !Constant(rets)
    ensures s.SharpeRatio? ==> s.annualVariance > 0.0 && AnnualVolatility(rets) == VolSqrt(s.annualVariance)
    ensures s.SharpeRatio? ==> (s.annualMean > 0.0 <==> Sum(rets) > 0.0)
  {
    if |rets| < 2 then SharpeUndefined
    else
      VariancePositiveIffNotConstant(rets);
      MeanSign(rets);
      if SampleVariance(rets) > 0.0
      then SharpeRatio(Mean(rets) * TradingDays, SampleVariance(rets) * TradingDays)
      else SharpeUndefined
  }

  /** Quick metrics of a NAV series whose points carry the day numbers
      `days`. An empty series has no first point and fails; every other
      series yields a summary in which undefined metrics are NaN. */
  function ComputeSimpleMetrics(nav: seq<real>, days: seq<int>): (r: Result<Summary>)
    requires |days| == |nav|
    requires AllPositive(nav)
    ensures r.Failure? <==> |nav| == 0
    ensures r.Failure? ==> r.error == EmptyNavSeries
    ensures r.Success? ==> r.value.total + 1.0 == nav[|nav| - 1] / nav[0]
    ensures r.Success? ==> r.value.cagr == CagrOf(r.value.total, days[0], days[|nav| - 1])
    ensures r.Success? ==> (r.value.cagr.CagrUndefined? <==> days[|nav| - 1] <= days[0])
    ensures r.Success? && r.value.cagr.CagrRoot? ==> r.value.cagr.growth == 1.0 + r.value.total
    ensures r.Success? ==> (r.value.annVol.VolUndefined? <==> |nav| < 3)
    ensures r.Success? && r.value.annVol.VolSqrt? ==>
              (r.value.annVol.annualVariance == 0.0 <==> Constant(PctChange(nav)))
    ensures r.Success? ==> (r.value.sharpe.SharpeRatio? <==> |nav| >= 3 && !Constant(PctChange(nav)))
    ensures r.Success? && r.value.sharpe.SharpeRatio? ==> r.value.annVol == VolSqrt(r.value.sharpe.annualVariance)
    ensures r.Success? ==> r.value.maxDrawdown == MaxDrawdown(nav)
    ensures r.Success? ==> -1.0 < r.value.maxDrawdown <= 0.0
    ensures r.Success? ==> (r.value.maxDrawdown == 0.0 <==> NonDecreasing(nav))
  {
    if |nav| == 0 then Failure(EmptyNavSeries)
    else
      var total := TotalReturn(nav);
      CompoundedReturns(nav);
      var rets := PctChange(nav);
      Success(Summary(total, CagrOf(total, days[0], days[|nav| - 1]), AnnualVolatility(rets),
                      SharpeOf(rets), MaxDrawdown(nav)))
  }

  /** A constant NAV earns nothing in any period. */
  lemma {:induction false} FlatReturns(nav: seq<real>)
    requires AllPositive(nav) && Constant(nav)
    ensures forall i :: 0 <= i < |PctChange(nav)| ==> PctChange(nav)[i] == 0.0
  {
    var rets := PctChange(nav);
    forall i | 0 <= i < |rets|
      ensures rets[i] == 0.0
    {
      SelfRatio(nav[i]);
      assert nav[i + 1] == nav[i];
    }
  }

  /** A constant NAV has zero total return, zero drawdown, a CAGR of zero
      where it is defined, zero volatility where it is defined, and no
      Sharpe ratio. */
  lemma ConstantNavMetrics(nav: seq<real>, days: seq<int>)
    requires |days| == |nav| && |nav| > 0
    requires AllPositive(nav) && Constant(nav)
    ensures ComputeSimpleMetrics(nav, days).Success?
    ensures var m := ComputeSimpleMetrics(nav, days).value;
            && m.total == 0.0
            && m.maxDrawdown == 0.0
            && (m.cagr.CagrRoot? ==> m.cagr.growth == 1.0)
            && (m.annVol.VolSqrt? ==> m.annVol.annualVariance == 0.0)
            && m.sharpe.SharpeUndefined?
  {
    FlatReturns(nav);
    assert Constant(PctChange(nav));
    assert NonDecreasing(nav);
    SelfRatio(nav[0]);
    assert nav[|nav| - 1] == nav[0];
  }

  /** A one-point series does not fail: its total return and drawdown are
      zero and its CAGR, volatility and Sharpe ratio are NaN. */
  lemma SinglePointMetrics(v: real, day: int)
    requires v > 0.0
    ensures ComputeSimpleMetrics([v], [day]).Success?
    ensures var m := ComputeSimpleMetrics([v], [day]).value;
            && m.total == 0.0
            && m.maxDrawdown == 0.0
            && m.cagr.CagrUndefined?
            && m.annVol.VolUndefined?
            && m.sharpe.SharpeUndefined?
  {
    SelfRatio(v);
    assert NonDecreasing([v]);
  }

  /** A positive NAV of 100, 110, 121: two periods of +10% each. */
  predicate SteadyGrowth(nav: seq<real>) {
    |nav| == 3 && AllPositive(nav) && nav[0] == 100.0 && nav[1] == 110.0 && nav[2] == 121.0
  }

  lemma SteadyGrowthReturns(nav: seq<real>)
    requires SteadyGrowth(nav)
    ensures PctChange(nav) == [0.1, 0.1]
  {
    var rets := PctChange(nav);
    assert rets[0] == 110.0 / 100.0 - 1.0 == 0.1;
    assert rets[1] == 121.0 / 110.0 - 1.0 == 0.1;
  }

  /** Two periods of +10% each: total return 0.21, zero volatility and no
      Sharpe ratio. */
  lemma SteadyGrowthExample(nav: seq<real>, days: seq<int>)
    requires SteadyGrowth(nav) && |days| == 3
    ensures ComputeSimpleMetrics(nav, days).Success?
    ensures var m := ComputeSimpleMetrics(nav, days).value;
            && m.total == 0.21
            && m.annVol == VolSqrt(0.0)
            && m.sharpe.SharpeUndefined?
  {
    SteadyGrowthReturns(nav);
    var rets := PctChange(nav);
    assert Constant(rets) by {
      assert rets[0] == 0.1 && rets[1] == 0.1;
    }
    assert nav[2] / nav[0] == 1.21;
  }

  lemma HalfwayDrawdown(p: real)
    requires p > 0.0
    ensures DrawdownAt(p / 2.0, p) == -0.5
  {
    assert p / 2.0 == 0.5 * p;
    assert (p / 2.0) / p == 0.5;
  }

  /** A positive three-point NAV that falls to half its first value and
      recovers. */
  predicate HalvesAndRecovers(nav: seq<real>) {
    |nav| == 3 && AllPositive(nav) && nav[1] == nav[0] / 2.0 && nav[2] == nav[0]
  }

  /** At the trough the running maximum is still the first value. */
  lemma HalvingPeak(nav: seq<real>)
    requires HalvesAndRecovers(nav)
    ensures RunningMax(nav)[1] == nav[0]
  {
    var m := RunningMax(nav);
    assert nav[0] <= m[1];
    var j :| 0 <= j <= 1 && m[1] == nav[j];
    assert j == 0;
  }

  /** The trough of a fall to half the peak is a drawdown of one half. */
  lemma HalvingTrough(nav: seq<real>)
    requires HalvesAndRecovers(nav)
    ensures Drawdowns(nav)[1] == -0.5
  {
    HalvingPeak(nav);
    assert Drawdowns(nav)[1] == DrawdownAt(nav[1], RunningMax(nav)[1]);
    assert Drawdowns(nav)[1] == DrawdownAt(nav[0] / 2.0, nav[0]);
    HalfwayDrawdown(nav[0]);
  }

  /** A fall to half the peak and back has no drawdown at either end. */
  lemma HalvingEnds(nav: seq<real>)
    requires HalvesAndRecovers(nav)
    ensures Drawdowns(nav)[0] == 0.0 && Drawdowns(nav)[2] == 0.0
  {
    assert RunningHigh(nav, 0) && RunningHigh(nav, 2);
  }

  /** A fall to half the peak and back is a maximum drawdown of one half. */
  lemma HalvingDrawdownExample(nav: seq<real>)
    requires HalvesAndRecovers(nav)
    ensures MaxDrawdown(nav) == -0.5
  {
    HalvingTrough(nav);
    HalvingEnds(nav);
    var d := Drawdowns(nav);
    forall j | 0 <= j < |nav|
      ensures d[1] <= d[j]
    {
      if j == 0 {
        assert d[j] == 0.0;
      } else if j == 2 {
        assert d[j] == 0.0;
      } else {
        assert j == 1;
      }
    }
    DeepestPointIsMaxDrawdown(nav, 1);
  }

  /** The quick metrics of a fall to half the peak and back report a
      maximum drawdown of one half, e.g. for NAV 100, 50, 100. */
  lemma HalvingSummary(nav: seq<real>, days: seq<int>)
    requires HalvesAndRecovers(nav) && |days| == 3
    ensures ComputeSimpleMetrics(nav, days).Success?
    ensures ComputeSimpleMetrics(nav, days).value.maxDrawdown == -0.5
  {
    HalvingDrawdownExample(nav);
  }
}
