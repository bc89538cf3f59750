/** Regime diagnostics: the table's rows grouped by their regime label,
    with per-regime summed returns, volatility, share of rows and summed
    positions. */
module Regimes {
  import opened Results
  import opened Stats
  import opened Returns

  /** One row of the strategy table: its NAV, its regime label (`state_hmm`)
      and its lagged position (`final_pos_lag`). */
  datatype Row = Row(nav: real, state: int, pos: real)

  /** One line of the diagnostics table. */
  datatype RegimeStat = RegimeStat(
    state: int,
    totalRet: real,
    annVol: Volatility,
    daysFrac: real,
    daysInvested: int)

  predicate StrictlyIncreasing(s: seq<int>) {
    forall i, j :: 0 <= i < j < |s| ==> s[i] < s[j]
  }

  predicate PositiveNavs(rows: seq<Row>) {
    forall i :: 0 <= i < |rows| ==> rows[i].nav > 0.0
  }

  /** Some row carries the label `l`. */
  predicate Occurs(rows: seq<Row>, l: int) {
    exists i :: 0 <= i < |rows| && rows[i].state == l
  }

  function Navs(rows: seq<Row>): seq<real> {
    seq(|rows|, i requires 0 <= i < |rows| => rows[i].nav)
  }

  function Positions(rows: seq<Row>): seq<real> {
    seq(|rows|, i requires 0 <= i < |rows| => rows[i].pos)
  }

  /** Adds `x` to a strictly increasing list of labels, keeping it so. */
  function InsertLabel(labels: seq<int>, x: int): (r: seq<int>)
    requires StrictlyIncreasing(labels)
    ensures StrictlyIncreasing(r)
    ensures forall y :: y in r <==> y in labels || y == x
  {
    if |labels| == 0 then [x]
    else if x < labels[0] then [x] + labels
    else if x == labels[0] then labels
    else
      var rest := InsertLabel(labels[1..], x);
      assert forall k :: 0 <= k < |rest| ==> labels[0] < rest[k] by {
        forall k | 0 <= k < |rest|
          ensures labels[0] < rest[k]
        {
          assert rest[k] in rest;
        }
      }
      [labels[0]] + rest
  }

  /** `sorted(master['state_hmm'].unique())`: every label that occurs, once,
      in ascending order. */
  function Labels(rows: seq<Row>): (r: seq<int>)
    ensures StrictlyIncreasing(r)
    ensures forall l :: l in r <==> Occurs(rows, l)
  {
    if |rows| == 0 then []
    else
      var rest := Labels(rows[1..]);
      assert forall l :: Occurs(rows, l) <==> Occurs(rows[1..], l) || l == rows[0].state by {
        forall l
          ensures Occurs(rows, l) <==> Occurs(rows[1..], l) || l == rows[0].state
        {
          if Occurs(rows, l) && l != rows[0].state {
            var i :| 0 <= i < |rows| && rows[i].state == l;
            assert rows[1..][i - 1].state == l;
          }
          if Occurs(rows[1..], l) {
            var i :| 0 <= i < |rows| - 1 && rows[1..][i].state == l;
            assert rows[i + 1].state == l;
          }
        }
      }
      InsertLabel(rest, rows[0].state)
  }

  /** `master[master['state_hmm'] == l]`: the rows labelled `l`, in table
      order. */
  function Select(rows: seq<Row>, l: int): (sub: seq<Row>)
    ensures |sub| <= |rows|
    ensures forall k :: 0 <= k < |sub| ==> sub[k].state == l && sub[k] in rows
    ensures forall i :: 0 <= i < |rows| && rows[i].state == l ==> rows[i] in sub
    ensures PositiveNavs(rows) ==> PositiveNavs(sub)
    ensures (forall i :: 0 <= i < |rows| ==> rows[i].state == l) ==> sub == rows
    ensures Occurs(rows, l) ==> |sub| > 0
  {
    if |rows| == 0 then []
    else
      var rest := Select(rows[1..], l);
      assert forall i :: 1 <= i < |rows| ==> rows[i] == rows[1..][i - 1];
      assert [rows[0]] + rows[1..] == rows;
      if rows[0].state == l then [rows[0]] + rest else rest
  }

  /** `idx` lists, in ascending order, the positions in `rows` of every row
      labelled `l`, and `sub` holds the rows at those positions in that
      order: `sub` is the boolean-mask selection of `rows` by `l`. */
  predicate PicksLabelled(rows: seq<Row>, l: int, sub: seq<Row>, idx: seq<int>) {
    && |idx| == |sub|
    && (forall k :: 0 <= k < |idx| ==> 0 <= idx[k] < |rows| && rows[idx[k]].state == l && sub[k] == rows[idx[k]])
    && (forall a, b :: 0 <= a < b < |idx| ==> idx[a] < idx[b])
    && (forall i :: 0 <= i < |rows| && rows[i].state == l ==> i in idx)
  }

  /** Positions in the tail, moved one place on to be positions in `rows`. */
  function Shifted(rest: seq<int>): (r: seq<int>)
    ensures |r| == |rest|
    ensures forall k :: 0 <= k < |rest| ==> r[k] == rest[k] + 1
  {
    seq(|rest|, k requires 0 <= k < |rest| => rest[k] + 1)
  }

  /** Position 0 followed by the shifted positions of the tail. */
  function ZeroThenShifted(rest: seq<int>): (r: seq<int>)
    ensures |r| == |rest| + 1 && r[0] == 0
    ensures forall k :: 1 <= k < |r| ==> r[k] == rest[k - 1] + 1
  {
    [0] + Shifted(rest)
  }

  /** Shifting the tail's index map gives the table's when the first row
      is not labelled `l`. */
  lemma PicksLabelledSkip(rows: seq<Row>, l: int, rest: seq<int>)
    requires |rows| > 0 && rows[0].state != l
    requires PicksLabelled(rows[1..], l, Select(rows[1..], l), rest)
    ensures PicksLabelled(rows, l, Select(rows, l), Shifted(rest))
  {
    var tail := rows[1..];
    var idx := Shifted(rest);
    assert Select(rows, l) == Select(tail, l);
    forall k | 0 <= k < |idx|
      ensures rows[idx[k]] == tail[rest[k]]
    {
    }
    forall i | 0 <= i < |rows| && rows[i].state == l
      ensures i in idx
    {
      assert tail[i - 1] == rows[i];
      var k :| 0 <= k < |rest| && rest[k] == i - 1;
      assert idx[k] == i;
    }
  }

  lemma ZeroThenShiftedAscends(rest: seq<int>)
    requires forall k :: 0 <= k < |rest| ==> 0 <= rest[k]
    requires forall a, b :: 0 <= a < b < |rest| ==> rest[a] < rest[b]
    ensures var idx := ZeroThenShifted(rest);
            forall a, b :: 0 <= a < b < |idx| ==> idx[a] < idx[b]
  {
    var idx := ZeroThenShifted(rest);
    forall a, b | 0 <= a < b < |idx|
      ensures idx[a] < idx[b]
    {
      if a > 0 {
        assert rest[a - 1] < rest[b - 1];
      }
    }
  }

  /** A first row labelled `l` heads the subset, followed by the tail's
      subset. */
  lemma SelectTakesHead(rows: seq<Row>, l: int)
    requires |rows| > 0 && rows[0].state == l
    ensures |Select(rows, l)| == |Select(rows[1..], l)| + 1
    ensures Select(rows, l)[0] == rows[0]
    ensures forall k :: 1 <= k < |Select(rows, l)| ==> Select(rows, l)[k] == Select(rows[1..], l)[k - 1]
  {
    assert Select(rows, l) == [rows[0]] + Select(rows[1..], l);
  }

  lemma ZeroThenShiftedPicks(rows: seq<Row>, l: int, rest: seq<int>)
    requires |rows| > 0 && rows[0].state == l
    requires PicksLabelled(rows[1..], l, Select(rows[1..], l), rest)
    ensures var idx := ZeroThenShifted(rest);
            forall k :: 0 <= k < |idx| ==>
              0 <= idx[k] < |rows| && rows[idx[k]].state == l && Select(rows, l)[k] == rows[idx[k]]
  {
    var tail := rows[1..];
    var tsub := Select(tail, l);
    var sub := Select(rows, l);
    var idx := ZeroThenShifted(rest);
    SelectTakesHead(rows, l);
    forall k | 1 <= k < |idx|
      ensures 0 <= idx[k] < |rows| && rows[idx[k]].state == l && sub[k] == rows[idx[k]]
    {
      assert rows[idx[k]] == tail[rest[k - 1]];
      assert sub[k] == tsub[k - 1];
    }
  }

  lemma ZeroThenShiftedCovers(rows: seq<Row>, l: int, rest: seq<int>)
    requires |rows| > 0
    requires forall i :: 0 <= i < |rows| - 1 && rows[1..][i].state == l ==> i in rest
    ensures forall i :: 0 <= i < |rows| && rows[i].state == l ==> i in ZeroThenShifted(rest)
  {
    var idx := ZeroThenShifted(rest);
    forall i | 0 <= i < |rows| && rows[i].state == l
      ensures i in idx
    {
      if i > 0 {
        assert rows[1..][i - 1] == rows[i];
        var k :| 0 <= k < |rest| && rest[k] == i - 1;
        assert idx[k + 1] == i;
      }
    }
  }

  /** Putting position 0 before the shifted tail's index map gives the
      table's when the first row is labelled `l`. */
  lemma PicksLabelledTake(rows: seq<Row>, l: int, rest: seq<int>)
    requires |rows| > 0 && rows[0].state == l
    requires PicksLabelled(rows[1..], l, Select(rows[1..], l), rest)
    ensures PicksLabelled(rows, l, Select(rows, l), ZeroThenShifted(rest))
  {
    ZeroThenShiftedAscends(rest);
    ZeroThenShiftedPicks(rows, l, rest);
    ZeroThenShiftedCovers(rows, l, rest);
    SelectTakesHead(rows, l);
  }

  /** The subset keeps table order and holds each labelled row once per
      occurrence, exactly as the mask `master['state_hmm'] == l` does. */
  lemma {:induction false} SelectIsMaskFilter(rows: seq<Row>, l: int)
    ensures exists idx :: PicksLabelled(rows, l, Select(rows, l), idx)
  {
    if |rows| == 0 {
      assert PicksLabelled(rows, l, Select(rows, l), []);
    } else {
      SelectIsMaskFilter(rows[1..], l);
      var rest :| PicksLabelled(rows[1..], l, Select(rows[1..], l), rest);
      if rows[0].state == l {
        PicksLabelledTake(rows, l, rest);
      } else {
        PicksLabelledSkip(rows, l, rest);
      }
    }
  }

  /** `count / total` as a real: the share of `total` rows that `count` of
      them make up. */
  function Share(count: nat, total: nat): (f: real)
    requires 0 < total && count <= total
    ensures 0.0 <= f <= 1.0
    ensures count > 0 ==> f > 0.0
    ensures Product(f, total as real) == count as real
  {
    count as real / total as real
  }

  /** Statistics of the regime labelled `l` over a table of `|rows|` rows. */
  function RegimeOf(rows: seq<Row>, l: int, hasPositions: bool): (st: RegimeStat)
    requires PositiveNavs(rows) && |rows| > 0
    ensures st.state == l
    ensures st.totalRet == Sum(PctChange(Navs(Select(rows, l))))
    ensures st.annVol.VolUndefined? <==> |Select(rows, l)| < 2
    ensures Occurs(rows, l) ==> 0.0 < st.daysFrac <= 1.0
    ensures Product(st.daysFrac, |rows| as real) == |Select(rows, l)| as real
    ensures !hasPositions ==> st.daysInvested == 0
    ensures hasPositions ==> st.daysInvested == Trunc(Sum(Positions(Select(rows, l))))
  {
    var sub := Select(rows, l);
    var navs := Navs(sub);
    assert AllPositive(navs);
    var rets := FilledPctChange(navs);
    var invested := if hasPositions then Trunc(Sum(Positions(sub))) else 0;
    RegimeStat(l, Sum(rets), AnnualVolatility(rets), Share(|sub|, |rows|), invested)
  }

  /** One statistics line per label, in the order given. */
  function RegimesOf(rows: seq<Row>, labels: seq<int>, hasPositions: bool): (stats: seq<RegimeStat>)
    requires PositiveNavs(rows) && |rows| > 0
    ensures |stats| == |labels|
    ensures forall k :: 0 <= k < |labels| ==> stats[k].state == labels[k]
    ensures forall k :: 0 <= k < |labels| ==>
              stats[k].totalRet == Sum(PctChange(Navs(Select(rows, labels[k]))))
    ensures forall k :: 0 <= k < |labels| ==>
              Product(stats[k].daysFrac, |rows| as real) == |Select(rows, labels[k])| as real
    ensures forall k :: 0 <= k < |labels| && Occurs(rows, labels[k]) ==> 0.0 < stats[k].daysFrac <= 1.0
  {
    seq(|labels|, k requires 0 <= k < |labels| => RegimeOf(rows, labels[k], hasPositions))
  }

  /** The diagnostics loop over `sorted(unique(state_hmm))`. A table with no
      rows yields no lines, and keying the empty frame by `state` fails. */
  function Diagnostics(rows: seq<Row>, hasPositions: bool): (r: Result<seq<RegimeStat>>)
    requires PositiveNavs(rows)
    ensures r.Failure? <==> |rows| == 0
    ensures r.Failure? ==> r.error == EmptyTable
    ensures r.Success? ==> forall i, j :: 0 <= i < j < |r.value| ==> r.value[i].state < r.value[j].state
    ensures r.Success? ==> forall l :: (exists k :: 0 <= k < |r.value| && r.value[k].state == l) <==> Occurs(rows, l)
    ensures r.Success? ==> forall k :: 0 <= k < |r.value| ==> 0.0 < r.value[k].daysFrac <= 1.0
    ensures r.Success? ==> forall k :: 0 <= k < |r.value| ==>
              r.value[k] == RegimeOf(rows, r.value[k].state, hasPositions)
    ensures r.Success? ==> TotalShare(r.value) == 1.0
  {
    if |rows| == 0 then Failure(EmptyTable)
    else
      RegimeLinesOfLabels(rows, hasPositions);
      RegimeLabelsExact(rows, hasPositions);
      DaysFractionsSumToOne(rows, hasPositions);
      Success(RegimesOf(rows, Labels(rows), hasPositions))
  }

  /** Each line of the regimes of the occurring labels is the statistics
      line of its own label, with a share of rows in (0, 1]. */
  lemma RegimeLinesOfLabels(rows: seq<Row>, hasPositions: bool)
    requires PositiveNavs(rows) && |rows| > 0
    ensures var stats := RegimesOf(rows, Labels(rows), hasPositions);
            forall k :: 0 <= k < |stats| ==> 0.0 < stats[k].daysFrac <= 1.0
    ensures var stats := RegimesOf(rows, Labels(rows), hasPositions);
            forall k :: 0 <= k < |stats| ==> stats[k] == RegimeOf(rows, stats[k].state, hasPositions)
  {
    var labels := Labels(rows);
    var stats := RegimesOf(rows, labels, hasPositions);
    forall k | 0 <= k < |stats|
      ensures 0.0 < stats[k].daysFrac <= 1.0
      ensures stats[k] == RegimeOf(rows, stats[k].state, hasPositions)
    {
      assert labels[k] in labels;
      assert Occurs(rows, labels[k]);
    }
  }

  /** The regimes of the occurring labels carry exactly those labels, in
      strictly ascending order. */
  lemma RegimeLabelsExact(rows: seq<Row>, hasPositions: bool)
    requires PositiveNavs(rows) && |rows| > 0
    ensures var stats := RegimesOf(rows, Labels(rows), hasPositions);
            forall i, j :: 0 <= i < j < |stats| ==> stats[i].state < stats[j].state
    ensures var stats := RegimesOf(rows, Labels(rows), hasPositions);
            forall l :: (exists k :: 0 <= k < |stats| && stats[k].state == l) <==> Occurs(rows, l)
  {
    var labels := Labels(rows);
    var stats := RegimesOf(rows, labels, hasPositions);
    forall l
      ensures (exists k :: 0 <= k < |stats| && stats[k].state == l) <==> Occurs(rows, l)
    {
      if Occurs(rows, l) {
        var k :| 0 <= k < |labels| && labels[k] == l;
        assert stats[k].state == l;
      }
    }
  }

  /** Number of rows selected over the regimes of `labels`, label by label. */
  function SelectedCount(rows: seq<Row>, labels: seq<int>): nat {
    if |labels| == 0 then 0 else |Select(rows, labels[0])| + SelectedCount(rows, labels[1..])
  }

  lemma {:induction false} SelectedCountOfNoRows(labels: seq<int>)
    ensures SelectedCount([], labels) == 0
  {
    if |labels| > 0 {
      SelectedCountOfNoRows(labels[1..]);
    }
  }

  /** The first row adds one to the count when its label is listed, and
      nothing otherwise: distinct labels select it at most once. */
  lemma {:induction false} SelectedCountStep(rows: seq<Row>, labels: seq<int>)
    requires |rows| > 0 && StrictlyIncreasing(labels)
    ensures SelectedCount(rows, labels)
            == (if rows[0].state in labels then 1 else 0) + SelectedCount(rows[1..], labels)
  {
    if |labels| > 0 {
      var l := labels[0];
      var tail := labels[1..];
      assert StrictlyIncreasing(tail);
      SelectedCountStep(rows, tail);
      assert l !in tail by {
        forall k | 0 <= k < |tail|
          ensures tail[k] != l
        {
          assert tail[k] == labels[k + 1];
        }
      }
      assert rows[0].state in labels <==> rows[0].state == l || rows[0].state in tail;
      assert |Select(rows, l)| == (if rows[0].state == l then 1 else 0) + |Select(rows[1..], l)|;
    }
  }

  /** The regimes partition the table: when every row's label is listed,
      the regimes' row counts add up to the number of rows. */
  lemma {:induction false} PartitionCount(rows: seq<Row>, labels: seq<int>)
    requires StrictlyIncreasing(labels)
    requires forall i :: 0 <= i < |rows| ==> rows[i].state in labels
    ensures SelectedCount(rows, labels) == |rows|
  {
    if |rows| == 0 {
      SelectedCountOfNoRows(labels);
    } else {
      SelectedCountStep(rows, labels);
      assert forall i :: 0 <= i < |rows| - 1 ==> rows[1..][i] == rows[i + 1];
      PartitionCount(rows[1..], labels);
    }
  }

  /** Sum of the regimes' shares of rows. */
  function TotalShare(stats: seq<RegimeStat>): real {
    if |stats| == 0 then 0.0 else stats[0].daysFrac + TotalShare(stats[1..])
  }

  lemma ProductDistributes(s: real, a: real, b: real, c: real)
    requires s == a + b
    ensures Product(s, c) == Product(a, c) + Product(b, c)
  {
  }

  lemma ProductCancels(f: real, n: real)
    requires n != 0.0 && Product(f, n) == n
    ensures f == 1.0
  {
    assert Product(f - 1.0, n) == 0.0 by {
      ProductDistributes(f - 1.0, f, -1.0, n);
    }
    ProductSign(f - 1.0, n);
    if f - 1.0 > 0.0 && n < 0.0 {
      ProductSign(-(f - 1.0), n);
      ProductDistributes(0.0, f - 1.0, -(f - 1.0), n);
    } else if f - 1.0 < 0.0 && n > 0.0 {
      ProductSign(-(f - 1.0), n);
      ProductDistributes(0.0, f - 1.0, -(f - 1.0), n);
    }
  }

  /** Lines whose `days_frac` times the table size is their label's subset
      size have shares that together scale to the summed subset sizes. */
  lemma {:induction false} TotalShareScales(rows: seq<Row>, labels: seq<int>, stats: seq<RegimeStat>)
    requires |rows| > 0 && |stats| == |labels|
    requires forall k :: 0 <= k < |stats| ==>
               Product(stats[k].daysFrac, |rows| as real) == |Select(rows, labels[k])| as real
    ensures Product(TotalShare(stats), |rows| as real) == SelectedCount(rows, labels) as real
  {
    var n := |rows| as real;
    if |stats| > 0 {
      var tail := stats[1..];
      assert forall k :: 0 <= k < |tail| ==> tail[k] == stats[k + 1] && labels[1..][k] == labels[k + 1];
      var a := stats[0].daysFrac;
      var b := TotalShare(tail);
      var headCount := |Select(rows, labels[0])|;
      var tailCount := SelectedCount(rows, labels[1..]);
      TotalShareScales(rows, labels[1..], tail);
      assert TotalShare(stats) == a + b;
      ProductDistributes(TotalShare(stats), a, b, n);
      assert SelectedCount(rows, labels) == headCount + tailCount;
      assert Product(a, n) == headCount as real;
      assert Product(b, n) == tailCount as real;
      assert (headCount + tailCount) as real == headCount as real + tailCount as real;
    } else {
      ProductSign(0.0, n);
      assert TotalShare(stats) == 0.0 && SelectedCount(rows, labels) == 0;
    }
  }

  /** The `days_frac` values of the regimes of all occurring labels add up
      to one. */
  lemma DaysFractionsSumToOne(rows: seq<Row>, hasPositions: bool)
    requires PositiveNavs(rows) && |rows| > 0
    ensures TotalShare(RegimesOf(rows, Labels(rows), hasPositions)) == 1.0
  {
    var labels := Labels(rows);
    forall i | 0 <= i < |rows|
      ensures rows[i].state in labels
    {
      assert Occurs(rows, rows[i].state);
    }
    PartitionCount(rows, labels);
    var stats := RegimesOf(rows, labels, hasPositions);
    assert forall k :: 0 <= k < |stats| ==>
             Product(stats[k].daysFrac, |rows| as real) == |Select(rows, labels[k])| as real;
    TotalShareScales(rows, labels, stats);
    ProductCancels(TotalShare(stats), |rows| as real);
  }

  /** A row lies in the subset of the diagnostics line of its own label. */
  lemma RowInOwnRegime(rows: seq<Row>, hasPositions: bool, i: int)
    requires PositiveNavs(rows) && 0 <= i < |rows|
    ensures Diagnostics(rows, hasPositions).Success?
    ensures var stats := Diagnostics(rows, hasPositions).value;
            exists k :: 0 <= k < |stats| && stats[k].state == rows[i].state
                        && rows[i] in Select(rows, stats[k].state)
  {
    assert Occurs(rows, rows[i].state);
  }

  /** No diagnostics line of another label selects the row. */
  lemma RowInNoOtherRegime(rows: seq<Row>, hasPositions: bool, i: int)
    requires PositiveNavs(rows) && 0 <= i < |rows|
    ensures Diagnostics(rows, hasPositions).Success?
    ensures var stats := Diagnostics(rows, hasPositions).value;
            forall k :: 0 <= k < |stats| && rows[i] in Select(rows, stats[k].state) ==>
                          stats[k].state == rows[i].state
  {
    var stats := Diagnostics(rows, hasPositions).value;
    forall k | 0 <= k < |stats| && rows[i] in Select(rows, stats[k].state)
      ensures stats[k].state == rows[i].state
    {
      var sub := Select(rows, stats[k].state);
      var j :| 0 <= j < |sub| && sub[j] == rows[i];
    }
  }

  /** Every row falls in the subset of exactly one diagnostics line: the
      line of its own label. */
  lemma EveryRowInExactlyOneRegime(rows: seq<Row>, hasPositions: bool, i: int)
    requires PositiveNavs(rows) && 0 <= i < |rows|
    ensures Diagnostics(rows, hasPositions).Success?
    ensures var stats := Diagnostics(rows, hasPositions).value;
            exists k :: 0 <= k < |stats| && stats[k].state == rows[i].state
                        && rows[i] in Select(rows, stats[k].state)
    ensures var stats := Diagnostics(rows, hasPositions).value;
            forall k :: 0 <= k < |stats| && rows[i] in Select(rows, stats[k].state) ==>
                          stats[k].state == rows[i].state
    ensures var stats := Diagnostics(rows, hasPositions).value;
            forall k1, k2 :: 0 <= k1 < |stats| && 0 <= k2 < |stats| && stats[k1].state == stats[k2].state ==> k1 == k2
  {
    RowInOwnRegime(rows, hasPositions, i);
    RowInNoOtherRegime(rows, hasPositions, i);
  }

  lemma {:induction false} LabelsOfOneRegime(rows: seq<Row>)
    requires |rows| > 0
    requires forall i :: 0 <= i < |rows| ==> rows[i].state == rows[0].state
    ensures Labels(rows) == [rows[0].state]
  {
    if |rows| > 1 {
      assert rows[1..][0] == rows[1];
      LabelsOfOneRegime(rows[1..]);
    }
  }

  /** With a single label over the whole table, that regime holds every row
      and its `total_ret` is the sum of all period returns of the full NAV
      series. */
  lemma SingleRegime(rows: seq<Row>, hasPositions: bool)
    requires PositiveNavs(rows) && |rows| > 0
    requires forall i :: 0 <= i < |rows| ==> rows[i].state == rows[0].state
    ensures Diagnostics(rows, hasPositions).Success?
    ensures var stats := Diagnostics(rows, hasPositions).value;
            |stats| == 1 && stats[0].state == rows[0].state && stats[0].daysFrac == 1.0
            && stats[0].totalRet == Sum(PctChange(Navs(rows)))
  {
    LabelsOfOneRegime(rows);
    DaysFractionsSumToOne(rows, hasPositions);
  }

  /** A table of three rows in regime 0 with NAV 100, 110, 121. */
  predicate SteadyTable(rows: seq<Row>) {
    |rows| == 3 && rows[0] == Row(100.0, 0, 0.0) && rows[1] == Row(110.0, 0, 0.0)
    && rows[2] == Row(121.0, 0, 0.0)
  }

  lemma SteadyTableIsOneRegime(rows: seq<Row>)
    requires SteadyTable(rows)
    ensures PositiveNavs(rows)
    ensures forall i :: 0 <= i < |rows| ==> rows[i].state == rows[0].state
  {
    forall i | 0 <= i < |rows|
      ensures rows[i].nav > 0.0 && rows[i].state == rows[0].state
    {
      if i == 0 {
      } else if i == 1 {
      } else {
        assert i == 2;
      }
    }
  }

  /** The period returns of the steady table sum to 0.2. */
  lemma SteadyTableSummedReturn(rows: seq<Row>)
    requires SteadyTable(rows)
    ensures Sum(PctChange(Navs(rows))) == 0.2
  {
    var navs := Navs(rows);
    assert navs[0] == 100.0 && navs[1] == 110.0 && navs[2] == 121.0;
    var rets := PctChange(navs);
    assert rets[0] == 110.0 / 100.0 - 1.0 == 0.1;
    assert rets[1] == 121.0 / 110.0 - 1.0 == 0.1;
    var tail := rets[1..];
    assert |tail| == 1 && tail[0] == 0.1;
    assert Sum(tail[1..]) == 0.0;
    assert Sum(tail) == 0.1;
  }

  /** A regime's `total_ret` adds period returns instead of compounding
      them: two +10% periods give 0.2, while the NAV grew by 0.21. */
  lemma SummedNotCompounded(rows: seq<Row>)
    requires SteadyTable(rows)
    ensures PositiveNavs(rows)
    ensures Diagnostics(rows, false).Success?
    ensures Diagnostics(rows, false).value[0].totalRet == 0.2
    ensures Compound(PctChange(Navs(rows))) - 1.0 == 0.21
  {
    SteadyTableIsOneRegime(rows);
    SingleRegime(rows, false);
    SteadyTableSummedReturn(rows);
    var navs := Navs(rows);
    CompoundedReturns(navs);
    assert navs[2] / navs[0] == 121.0 / 100.0 == 1.21;
  }
}
