/** Simple period returns of a NAV series, as pandas `pct_change` computes
    them, and their compounding back to the overall growth. */
module Returns {
  import opened Stats

  /** `pct_change().dropna()`: one simple return per consecutive pair of
      points; the first point has no predecessor and yields nothing. */
  function PctChange(nav: seq<real>): (r: seq<real>)
    requires AllPositive(nav)
    ensures |r| == if |nav| == 0 then 0 else |nav| - 1
    ensures forall i :: 0 <= i < |r| ==> r[i] == nav[i + 1] / nav[i] - 1.0
  {
    if |nav| < 2 then []
    else [nav[1] / nav[0] - 1.0] + PctChange(nav[1..])
  }

  /** `pct_change().fillna(0)`: the same returns with the missing leading
      one replaced by zero, so there is one entry per point. */
  function FilledPctChange(nav: seq<real>): (r: seq<real>)
    requires AllPositive(nav)
    ensures |r| == |nav|
    ensures |r| > 0 ==> r[0] == 0.0
    ensures forall i :: 0 < i < |r| ==> r[i] == nav[i] / nav[i - 1] - 1.0
    ensures Sum(r) == Sum(PctChange(nav))
  {
    if |nav| == 0 then []
    else
      var tail := PctChange(nav);
      assert ([0.0] + tail)[1..] == tail;
      [0.0] + tail
  }

  /** Growth obtained by compounding the returns: the product of `1 + r[i]`. */
  function Compound(r: seq<real>): real {
    if |r| == 0 then 1.0 else Product(1.0 + r[0], Compound(r[1..]))
  }

  lemma SelfRatio(a: real)
    requires a != 0.0
    ensures a / a == 1.0
  {
  }

  lemma RatioChain(a: real, b: real, c: real)
    requires a != 0.0 && b != 0.0
    ensures Product(b / a, c / b) == c / a
  {
  }

  /** Compounding the period returns gives back the ratio of the last point
      to the first: the returns lose nothing of the series' overall growth. */
  lemma {:induction false} CompoundedReturns(nav: seq<real>)
    requires AllPositive(nav) && |nav| > 0
    ensures Compound(PctChange(nav)) == nav[|nav| - 1] / nav[0]
  {
    if |nav| == 1 {
      SelfRatio(nav[0]);
    } else {
      var tail := nav[1..];
      var rest := PctChange(tail);
      var first := nav[1] / nav[0] - 1.0;
      assert PctChange(nav) == [first] + rest;
      assert ([first] + rest)[1..] == rest;
      CompoundedReturns(tail);
      assert Compound(rest) == nav[|nav| - 1] / nav[1];
      RatioChain(nav[0], nav[1], nav[|nav| - 1]);
    }
  }
}
