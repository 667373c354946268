/** The line-chart data: a score series over the years, the yearly average
    `groupby("Year").agg({"CPI score": "mean"})`, and the min/max markers
    placed with `idxmin()` / `idxmax()`. */
module Trend {
  import opened Table
  import opened Distinct

  /** One point of a line: a year and its value, None where it is NaN. */
  datatype Point = Point(year: int, value: Option<real>)

  /** The (Year, CPI score) points of some rows, in row order. */
  function RowPoints(rows: seq<Row>): (pts: seq<Point>)
    ensures |pts| == |rows|
    ensures forall i :: 0 <= i < |rows| ==> pts[i] == Point(rows[i].year, rows[i].score)
  {
    seq(|rows|, i requires 0 <= i < |rows| => Point(rows[i].year, rows[i].score))
  }

  // ---------------------------------------------------------------------
  // Yearly mean
  // ---------------------------------------------------------------------

  /** The sum of the present scores; missing scores add nothing. */
  function SumScores(rows: seq<Row>): real {
    if rows == [] then 0.0
    else (if rows[0].score.Some? then rows[0].score.value else 0.0) + SumScores(rows[1..])
  }

  /** One group of the yearly mean, kept exact as the sum and the number of
      present scores; a group without any present score has mean NaN. */
  datatype YearMean = YearMean(year: int, sum: real, count: nat)

  function MeanValue(m: YearMean): Option<real> {
    if m.count == 0 then None else Some(m.sum / m.count as real)
  }

  function GroupMean(y: int, group: seq<Row>): YearMean {
    YearMean(y, SumScores(group), Count(group, IsScored()))
  }

  function Years(rows: seq<Row>): (ys: seq<int>)
    ensures forall y :: y in ys <==> exists r :: r in rows && r.year == y
  {
    if rows == [] then [] else [rows[0].year] + Years(rows[1..])
  }

  /** `groupby("Year").agg({"CPI score": "mean"})`: one group per distinct
      year of the rows, in ascending year order, each averaging only the
      present scores of that year. */
  function YearlyMeans(rows: seq<Row>): (ms: seq<YearMean>)
    ensures forall i, j :: 0 <= i < j < |ms| ==> ms[i].year < ms[j].year
    ensures forall i :: 0 <= i < |ms| ==> ms[i].year in Years(rows)
    ensures forall r :: r in rows ==> exists i :: 0 <= i < |ms| && ms[i].year == r.year
    ensures forall i :: 0 <= i < |ms| ==>
              ms[i].count == Count(Filter(rows, IsYear(ms[i].year)), IsScored()) &&
              ms[i].sum == SumScores(Filter(rows, IsYear(ms[i].year)))
  {
    var ys := SortedUniqueInts(Years(rows));
    var ms := MeansFor(rows, ys);
    forall r | r in rows ensures exists i :: 0 <= i < |ms| && ms[i].year == r.year {
      assert r.year in Years(rows);
      var i :| 0 <= i < |ys| && ys[i] == r.year;
      assert ms[i].year == r.year;
    }
    ms
  }

  /** The yearly group of each of the given years, in that order. */
  function MeansFor(rows: seq<Row>, ys: seq<int>): (ms: seq<YearMean>)
    ensures |ms| == |ys|
    ensures forall i :: 0 <= i < |ys| ==> ms[i] == GroupMean(ys[i], Filter(rows, IsYear(ys[i])))
  {
    seq(|ys|, i requires 0 <= i < |ys| => GroupMean(ys[i], Filter(rows, IsYear(ys[i]))))
  }

  lemma {:induction false} SumScoresAppend(a: seq<Row>, b: seq<Row>)
    ensures SumScores(a + b) == SumScores(a) + SumScores(b)
  {
    if a == [] {
      assert a + b == b;
    } else {
      assert (a + b)[1..] == a[1..] + b;
      SumScoresAppend(a[1..], b);
    }
  }

  /** Two strictly ascending sequences with the same elements are equal. */
  lemma {:induction false} StrictlySortedUnique(a: seq<int>, b: seq<int>)
    requires StrictlySortedInts(a) && StrictlySortedInts(b)
    requires forall z :: z in a <==> z in b
    ensures a == b
  {
    assert a != [] ==> a[0] in a && a[0] in b;
    assert b != [] ==> b[0] in b && b[0] in a;
    if a != [] && b != [] {
      assert a[0] in b && b[0] in a;
      assert a[0] == b[0];
      forall z ensures z in a[1..] <==> z in b[1..] {
        if z in a[1..] { assert z > a[0]; assert z in b; }
        if z in b[1..] { assert z > b[0]; assert z in a; }
      }
      StrictlySortedUnique(a[1..], b[1..]);
    }
  }

  /** A row without a score, for a year the table already has, changes
      neither the sum nor the count of any yearly group: missing scores are
      left out of the numerator and the denominator alike. */
  lemma MissingScoreIgnored(rows: seq<Row>, r: Row)
    requires r.score.None?
    requires exists x :: x in rows && x.year == r.year
    ensures YearlyMeans(rows + [r]) == YearlyMeans(rows)
  {
    var ys := SortedUniqueInts(Years(rows));
    var ys' := SortedUniqueInts(Years(rows + [r]));
    forall z ensures z in ys <==> z in ys' {
      if z in ys' {
        var x :| x in rows + [r] && x.year == z;
        if x == r { var w :| w in rows && w.year == r.year; assert w in rows; }
      }
      if z in ys {
        var x :| x in rows && x.year == z;
        assert x in rows + [r];
      }
    }
    StrictlySortedUnique(ys, ys');
    forall i | 0 <= i < |ys| ensures MeansFor(rows + [r], ys)[i] == MeansFor(rows, ys)[i] {
      GroupUnchanged(rows, r, ys[i]);
    }
  }

  /** Appending a row without a score leaves a year group's sum and count as they were. */
  lemma GroupUnchanged(rows: seq<Row>, r: Row, y: int)
    requires r.score.None?
    ensures GroupMean(y, Filter(rows + [r], IsYear(y))) == GroupMean(y, Filter(rows, IsYear(y)))
  {
    var g := Filter(rows, IsYear(y));
    var extra := Filter([r], IsYear(y));
    FilterAppend(rows, [r], IsYear(y));
    FilterAppend(g, extra, IsScored());
    SumScoresAppend(g, extra);
    assert Filter([r], IsScored()) == [];
    if r.year == y {
      assert extra == [r];
    } else {
      assert extra == [];
    }
  }

  /** A year group with a present score has a mean, the average of its present scores. */
  lemma YearlyMeansHaveValue(rows: seq<Row>, x: Row)
    requires x in rows && x.score.Some?
    ensures exists i :: 0 <= i < |YearlyMeans(rows)| && YearlyMeans(rows)[i].year == x.year && MeanValue(YearlyMeans(rows)[i]).Some?
  {
    var ms := YearlyMeans(rows);
    assert exists i :: 0 <= i < |ms| && ms[i].year == x.year;
    var i :| 0 <= i < |ms| && ms[i].year == x.year;
    var g := Filter(rows, IsYear(x.year));
    assert x in g;
    assert x in Filter(g, IsScored());
    assert ms[i].count == Count(g, IsScored());
    assert MeanValue(ms[i]).Some?;
  }

  /** The (Year, mean) points of the average line. */
  function MeanPoints(ms: seq<YearMean>): (pts: seq<Point>)
    ensures |pts| == |ms|
    ensures forall i :: 0 <= i < |ms| ==> pts[i] == Point(ms[i].year, MeanValue(ms[i]))
  {
    seq(|ms|, i requires 0 <= i < |ms| => Point(ms[i].year, MeanValue(ms[i])))
  }

  // ---------------------------------------------------------------------
  // Min/max markers
  // ---------------------------------------------------------------------

  predicate HasValue(pts: seq<Point>) {
    exists i :: 0 <= i < |pts| && pts[i].value.Some?
  }

  /** What `idxmin()`/`idxmax()` need to name a row: an empty series gets
      no marker, and otherwise some score must be present. */
  predicate Plottable(rows: seq<Row>) {
    rows == [] || exists r :: r in rows && r.score.Some?
  }

  predicate AtLeastAsExtreme(largest: bool, a: real, b: real) {
    if largest then a >= b else a <= b
  }

  /** `idxmax()` (largest) or `idxmin()`: the first position holding the
      largest (smallest) present value; missing values are skipped. */
  function ArgExtreme(pts: seq<Point>, largest: bool): (k: nat)
    requires HasValue(pts)
    ensures k < |pts| && pts[k].value.Some?
    ensures forall j :: 0 <= j < |pts| && pts[j].value.Some? ==>
              AtLeastAsExtreme(largest, pts[k].value.value, pts[j].value.value)
    ensures forall j :: 0 <= j < k && pts[j].value.Some? ==> pts[j].value.value != pts[k].value.value
  {
    if !HasValue(pts[1..]) then
      assert forall j :: 1 <= j < |pts| ==> pts[j].value.None? by {
        forall j | 1 <= j < |pts| ensures pts[j].value.None? {
          assert pts[1..][j - 1] == pts[j];
        }
      }
      assert pts[0].value.Some?;
      0
    else
      var k := 1 + ArgExtreme(pts[1..], largest);
      assert forall j :: 1 <= j < |pts| ==> pts[j] == pts[1..][j - 1];
      if pts[0].value.Some? && AtLeastAsExtreme(largest, pts[0].value.value, pts[k].value.value) then 0
      else k
  }

  /** The red (minimum) and green (maximum) marker of a line. */
  datatype Marker = Marker(low: Point, high: Point)

  /** Point p occurs in pts, and no earlier point has its value. */
  predicate FirstWith(pts: seq<Point>, p: Point) {
    exists k :: 0 <= k < |pts| && pts[k] == p && forall j :: 0 <= j < k ==> pts[j].value != p.value
  }

  /** The marker holds the first lowest and the first highest present point
      of the series, as `idxmin()` and `idxmax()` pick them. */
  predicate Extremes(m: Marker, pts: seq<Point>) {
    && m.low in pts && m.high in pts
    && m.low.value.Some? && m.high.value.Some?
    && (forall p :: p in pts && p.value.Some? ==> m.low.value.value <= p.value.value <= m.high.value.value)
    && FirstWith(pts, m.low) && FirstWith(pts, m.high)
  }

  /** The markers drawn when the series is not empty: its first lowest and
      first highest point. */
  function Markers(pts: seq<Point>): (m: Option<Marker>)
    requires pts == [] || HasValue(pts)
    ensures m.None? <==> pts == []
    ensures m.Some? ==> Extremes(m.value, pts)
  {
    if pts == [] then None
    else Some(Marker(pts[ArgExtreme(pts, false)], pts[ArgExtreme(pts, true)]))
  }

  /** A plottable row series has the points the markers need. */
  lemma RowPointsPlottable(rows: seq<Row>)
    requires Plottable(rows)
    ensures RowPoints(rows) == [] || HasValue(RowPoints(rows))
  {
    if rows != [] {
      var r :| r in rows && r.score.Some?;
      var i :| 0 <= i < |rows| && rows[i] == r;
      assert RowPoints(rows)[i].value.Some?;
    }
  }

  /** A plottable scope has the mean points the markers need. */
  lemma MeanPointsPlottable(rows: seq<Row>)
    requires Plottable(rows)
    ensures MeanPoints(YearlyMeans(rows)) == [] || HasValue(MeanPoints(YearlyMeans(rows)))
  {
    if rows != [] {
      var r :| r in rows && r.score.Some?;
      YearlyMeansHaveValue(rows, r);
    }
  }
}
