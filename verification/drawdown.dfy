/** Running maximum and drawdown of a NAV series: pandas
    `(nav / nav.cummax() - 1).min()`. */
module Drawdown {
  import opened Stats

  function Max(a: real, b: real): real {
    if a >= b then a else b
  }

  /** pandas `cummax`: at every index, the highest value seen up to and
      including that index. */
  function RunningMax(nav: seq<real>): (m: seq<real>)
    ensures |m| == |nav|
    ensures forall i, j :: 0 <= j <= i < |nav| ==> nav[j] <= m[i]
    ensures forall i :: 0 <= i < |nav| ==> exists j :: 0 <= j <= i && m[i] == nav[j]
    ensures forall i, j :: 0 <= i <= j < |m| ==> m[i] <= m[j]
  {
    if |nav| == 0 then []
    else
      var last := nav[|nav| - 1];
      var prev := RunningMax(nav[..|nav| - 1]);
      var top := if |prev| == 0 then last else Max(prev[|prev| - 1], last);
      var m := prev + [top];
      assert forall i :: 0 <= i < |nav| ==> exists j :: 0 <= j <= i && m[i] == nav[j] by {
        forall i | 0 <= i < |nav|
          ensures exists j :: 0 <= j <= i && m[i] == nav[j]
        {
          if i < |prev| {
            var j :| 0 <= j <= i && prev[i] == nav[..|nav| - 1][j];
            assert m[i] == nav[j];
          } else if top == last {
            assert m[i] == nav[i];
          } else {
            var j :| 0 <= j <= |prev| - 1 && prev[|prev| - 1] == nav[..|nav| - 1][j];
            assert m[i] == nav[j];
          }
        }
      }
      m
  }

  /** The NAV at index `i` is at least every earlier value. */
  predicate RunningHigh(nav: seq<real>, i: int)
    requires 0 <= i < |nav|
  {
    forall j :: 0 <= j <= i ==> nav[j] <= nav[i]
  }

  /** The running maximum sits on the NAV exactly at the points where the
      NAV is at least every earlier value. */
  lemma AtPeakIffRunningHigh(nav: seq<real>, i: int)
    requires 0 <= i < |nav|
    ensures RunningMax(nav)[i] == nav[i] <==> RunningHigh(nav, i)
  {
    var m := RunningMax(nav);
    var k :| 0 <= k <= i && m[i] == nav[k];
  }

  lemma RatioBelowOne(v: real, peak: real)
    requires 0.0 < v <= peak
    ensures 0.0 < v / peak <= 1.0
    ensures v / peak == 1.0 <==> v == peak
  {
  }

  /** Fall of `v` below the peak `peak`, as a (non-positive) fraction of it. */
  function DrawdownAt(v: real, peak: real): (d: real)
    requires 0.0 < v <= peak
    ensures -1.0 < d <= 0.0
    ensures d == 0.0 <==> v == peak
  {
    RatioBelowOne(v, peak);
    v / peak - 1.0
  }

  /** Point-by-point drawdown of `nav` below the given peaks. */
  function DrawdownsBelow(nav: seq<real>, peaks: seq<real>): (d: seq<real>)
    requires |peaks| == |nav|
    requires forall i :: 0 <= i < |nav| ==> 0.0 < nav[i] <= peaks[i]
    ensures |d| == |nav|
    ensures forall i :: 0 <= i < |d| ==> -1.0 < d[i] <= 0.0
    ensures forall i :: 0 <= i < |d| ==> (d[i] == 0.0 <==> nav[i] == peaks[i])
    ensures forall i :: 0 <= i < |d| ==> d[i] == DrawdownAt(nav[i], peaks[i])
  {
    seq(|nav|, i requires 0 <= i < |nav| => DrawdownAt(nav[i], peaks[i]))
  }

  /** `nav / nav.cummax() - 1`, point by point: zero exactly at the points
      where the NAV is at least every earlier value. */
  function Drawdowns(nav: seq<real>): (d: seq<real>)
    requires AllPositive(nav)
    ensures |d| == |nav|
    ensures forall i :: 0 <= i < |d| ==> -1.0 < d[i] <= 0.0
    ensures forall i :: 0 <= i < |d| ==> (d[i] == 0.0 <==> RunningHigh(nav, i))
    ensures forall i :: 0 <= i < |d| ==> d[i] == DrawdownAt(nav[i], RunningMax(nav)[i])
  {
    var m := RunningMax(nav);
    assert forall i :: 0 <= i < |nav| ==> 0.0 < nav[i] <= m[i];
    var d := DrawdownsBelow(nav, m);
    assert forall i :: 0 <= i < |d| ==> (d[i] == 0.0 <==> RunningHigh(nav, i)) by {
      forall i | 0 <= i < |d|
        ensures d[i] == 0.0 <==> RunningHigh(nav, i)
      {
        AtPeakIffRunningHigh(nav, i);
      }
    }
    d
  }

  /** Smallest element of a non-empty sequence (pandas `min`). */
  function MinOf(s: seq<real>): (r: real)
    requires |s| > 0
    ensures forall i :: 0 <= i < |s| ==> r <= s[i]
    ensures exists i :: 0 <= i < |s| && r == s[i]
  {
    if |s| == 1 then s[0]
    else
      var rest := MinOf(s[1..]);
      if s[0] <= rest then s[0] else rest
  }

  /** The smallest point-by-point drawdown is zero exactly when the NAV
      never falls. */
  lemma MinDrawdownZeroIffNonDecreasing(nav: seq<real>)
    requires AllPositive(nav) && |nav| > 0
    ensures MinOf(Drawdowns(nav)) == 0.0 <==> NonDecreasing(nav)
  {
    var d := Drawdowns(nav);
    var r := MinOf(d);
    if r == 0.0 {
      forall i, j | 0 <= i <= j < |nav|
        ensures nav[i] <= nav[j]
      {
        assert d[j] == 0.0;
        assert RunningHigh(nav, j);
      }
    } else {
      var k :| 0 <= k < |d| && r == d[k];
      assert !RunningHigh(nav, k);
      var j :| 0 <= j <= k && nav[j] > nav[k];
    }
  }

  /** A point drawdown no larger than any other is the maximum drawdown. */
  lemma DeepestPointIsMaxDrawdown(nav: seq<real>, i: int)
    requires AllPositive(nav) && 0 <= i < |nav|
    requires forall j :: 0 <= j < |nav| ==> Drawdowns(nav)[i] <= Drawdowns(nav)[j]
    ensures MaxDrawdown(nav) == Drawdowns(nav)[i]
  {
    var k :| 0 <= k < |nav| && MaxDrawdown(nav) == Drawdowns(nav)[k];
  }

  /** Maximum drawdown: the deepest point-by-point drawdown. With a
      positive NAV it lies in (-1, 0], and it is zero exactly when the NAV
      never falls. */
  function MaxDrawdown(nav: seq<real>): (r: real)
    requires AllPositive(nav) && |nav| > 0
    ensures -1.0 < r <= 0.0
    ensures r == 0.0 <==> NonDecreasing(nav)
    ensures forall i :: 0 <= i < |nav| ==> r <= Drawdowns(nav)[i]
    ensures exists i :: 0 <= i < |nav| && r == Drawdowns(nav)[i]
  {
    MinDrawdownZeroIffNonDecreasing(nav);
    MinOf(Drawdowns(nav))
  }
}
