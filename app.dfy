/** The data side of the single-page dashboard's callbacks: the country
    options of `update_country_options`, and the ranking table, map rows,
    trend line and KPI panel of `update_dashboard`, each a function of the
    table and the widget values. */
module App {
  import opened Table
  import opened Sorting
  import opened Distinct
  import opened Ranking
  import opened Trend
  import opened Catalog

  // ---------------------------------------------------------------------
  // Country options
  // ---------------------------------------------------------------------

  /** The options and the value of the multi-select country dropdown. */
  datatype CountryOptions = CountryOptions(options: seq<Choice>, value: seq<string>)

  function InList(cs: seq<string>): string -> bool { (c: string) => c in cs }
  function IsRegionCountry(df: seq<Row>, g: string): string -> bool { (c: string) => HasRegionCountry(df, g, c) }

  /** The options list every country of the table, or only those of the
      selected region; a region change keeps, in their order, the selected
      countries that belong to it; "all" keeps the selection as it is. */
  function UpdateCountryOptions(df: seq<Row>, region: string, current: seq<string>): (o: CountryOptions)
    ensures forall i, j :: 0 <= i < j < |o.options| ==> StrLess(o.options[i].value, o.options[j].value)
    ensures forall i :: 0 <= i < |o.options| ==> o.options[i].caption == o.options[i].value
    ensures region == "all" ==> forall c :: Offers(o.options, c) <==> HasCountryRow(df, c)
    ensures region == "all" ==> o.value == current
    ensures region != "all" ==> forall c :: Offers(o.options, c) <==> HasRegionCountry(df, region, c)
    ensures region != "all" ==> o.value == Filter(current, IsRegionCountry(df, region))
    ensures region != "all" ==> forall c :: c in o.value ==> c in current && Offers(o.options, c)
  {
    var cs := if region == "all" then AllCountries(df) else RegionCountries(df, region);
    var os := Choices(cs);
    forall c ensures Offers(os, c) <==> c in cs {
      ChoicesOffer(cs, c);
    }
    if region == "all" then
      CountryOptions(os, current)
    else
      FilterEquiv(current, InList(cs), IsRegionCountry(df, region));
      CountryOptions(os, Filter(current, InList(cs)))
  }

  // ---------------------------------------------------------------------
  // Ranking table
  // ---------------------------------------------------------------------

  /** The rows the ranking table ranks: the selected year, of the selected
      region unless that is "all". */
  function RankingContext(df: seq<Row>, year: int, region: string): (ctx: seq<Row>)
    ensures forall r :: r in ctx <==> r in df && r.year == year && (region == "all" || r.region == Some(region))
    ensures |ctx| <= |Filter(df, IsYear(year))|
    ensures ctx == if region == "all" then Filter(df, IsYear(year)) else Filter(Filter(df, IsYear(year)), InRegion(region))
  {
    var yearRows := Filter(df, IsYear(year));
    if region == "all" then yearRows else Filter(yearRows, InRegion(region))
  }

  /** A table line: the `Rank` column next to its row. */
  datatype RankedRow = RankedRow(rank: nat, row: Row)

  function RowsOf(t: seq<RankedRow>): (rows: seq<Row>)
    ensures |rows| == |t|
    ensures forall i :: 0 <= i < |t| ==> rows[i] == t[i].row
  {
    seq(|t|, i requires 0 <= i < |t| => t[i].row)
  }

  function RowRank(ctx: seq<Row>, r: Row): nat
    requires r in ctx && r.score.Some?
  {
    assert HasScore(ctx, r.score.value);
    MinRank(ctx, r.score.value)
  }

  /** Attaches to each row the minimum-tie rank of its score in ctx. The rank
      depends on the score alone, so attaching it after the sort gives what
      `ranked_df["Rank"]` carries through the sort. */
  function WithRanks(ctx: seq<Row>, rows: seq<Row>): (t: seq<RankedRow>)
    requires forall r :: r in rows ==> r in ctx && r.score.Some?
    ensures RowsOf(t) == rows
    ensures forall i :: 0 <= i < |t| ==> t[i].row in ctx
    ensures forall i :: 0 <= i < |t| ==> t[i].rank == 1 + Count(ctx, Greater(t[i].row.score.value))
  {
    seq(|rows|, i requires 0 <= i < |rows| => RankedRow(RowRank(ctx, rows[i]), rows[i]))
  }

  predicate IsCut(mode: string) {
    mode == "Top 10" || mode == "Bottom 10"
  }

  /** The rows the ranking table shows, in table order: the context sorted
      (ascending for "Bottom 10", descending otherwise) and, for "Top 10"
      and "Bottom 10", its first ten rows. */
  function Shown(ctx: seq<Row>, mode: string): (rows: seq<Row>)
    ensures |rows| == if IsCut(mode) && 10 < |ctx| then 10 else |ctx|
    ensures SortedBy(mode != "Bottom 10", rows)
    ensures multiset(rows) <= multiset(ctx)
    ensures !IsCut(mode) ==> multiset(rows) == multiset(ctx)
    ensures KeepsBest(mode != "Bottom 10", ctx, rows)
  {
    var desc := mode != "Bottom 10";
    var sorted := SortBy(desc, ctx);
    HeadOfSorted(desc, sorted, 10);
    assert |sorted| == |multiset(sorted)| == |multiset(ctx)| == |ctx|;
    if IsCut(mode) then Head(sorted, 10) else sorted
  }

  lemma ShownFromContext(ctx: seq<Row>, mode: string)
    requires AllScored(ctx)
    ensures forall r :: r in Shown(ctx, mode) ==> r in ctx && r.score.Some?
  {
    var rows := Shown(ctx, mode);
    forall r | r in rows ensures r in ctx {
      assert r in multiset(rows);
    }
  }

  /** The ranking table: the rows `Shown` lists, each ranked within the
      whole context. The ranks are those of the context, not positions in
      the table. */
  function RankingTable(ctx: seq<Row>, mode: string): (t: seq<RankedRow>)
    requires AllScored(ctx)
    ensures RowsOf(t) == Shown(ctx, mode)
    ensures forall i :: 0 <= i < |t| ==> t[i].row in ctx
    ensures forall i :: 0 <= i < |t| ==> t[i].rank == 1 + Count(ctx, Greater(t[i].row.score.value))
  {
    ShownFromContext(ctx, mode);
    WithRanks(ctx, Shown(ctx, mode))
  }

  /** Equal scores share a rank, and a higher score has a smaller rank. */
  lemma RankingTableTies(ctx: seq<Row>, mode: string)
    requires AllScored(ctx)
    ensures var t := RankingTable(ctx, mode);
            forall i, j :: 0 <= i < |t| && 0 <= j < |t| ==>
              && (t[i].row.score == t[j].row.score ==> t[i].rank == t[j].rank)
              && (t[i].row.score.value > t[j].row.score.value ==> t[i].rank < t[j].rank)
  {
    var t := RankingTable(ctx, mode);
    forall i, j | 0 <= i < |t| && 0 <= j < |t|
      ensures t[i].row.score.value > t[j].row.score.value ==> t[i].rank < t[j].rank
    {
      var v := t[i].row.score.value;
      var w := t[j].row.score.value;
      if v > w {
        assert HasScore(ctx, v) && HasScore(ctx, w);
        MinRankMonotone(ctx, v, w);
      }
    }
  }

  /** The first row shown may precede every row of the context. */
  lemma ShownHeadLeads(ctx: seq<Row>, mode: string)
    requires ctx != []
    ensures Shown(ctx, mode) != []
    ensures forall r :: r in ctx ==> Precedes(mode != "Bottom 10", Shown(ctx, mode)[0], r)
  {
    var rows := Shown(ctx, mode);
    var desc := mode != "Bottom 10";
    forall r | r in ctx ensures Precedes(desc, rows[0], r) {
      if r in multiset(ctx) - multiset(rows) {
        assert rows[0] in rows;
      } else {
        assert r in multiset(rows);
        var j :| 0 <= j < |rows| && rows[j] == r;
        if j > 0 { assert Precedes(desc, rows[0], rows[j]); }
      }
    }
  }

  /** The first line of "Top 10" has rank 1. */
  lemma TopRankIsOne(ctx: seq<Row>)
    requires AllScored(ctx) && ctx != []
    ensures var t := RankingTable(ctx, "Top 10");
            |t| > 0 && t[0].rank == 1
  {
    ShownHeadLeads(ctx, "Top 10");
    var t := RankingTable(ctx, "Top 10");
    assert t[0].row == Shown(ctx, "Top 10")[0];
    var v := t[0].row.score.value;
    assert HasScore(ctx, v);
    MinRankOfBest(ctx, v);
  }

  function AnyRow(): Row -> bool { (r: Row) => true }

  /** When no score lies below v, every row scores above v or exactly v. */
  lemma CountFromFloor(ctx: seq<Row>, v: real)
    requires forall r :: r in ctx ==> r.score.Some? && r.score.value >= v
    ensures Count(ctx, Greater(v)) + Count(ctx, Equal(v)) == |ctx|
  {
    CountSplit(ctx, AnyRow(), Greater(v), Equal(v));
    FilterAll(ctx, AnyRow());
  }

  /** The first line of "Bottom 10" is ranked within the whole context: its
      rank is counted from the top, past every row scoring above it. */
  lemma BottomRankFromContext(ctx: seq<Row>)
    requires AllScored(ctx) && ctx != []
    ensures var t := RankingTable(ctx, "Bottom 10");
            |t| > 0 && t[0].rank == 1 + |ctx| - Count(ctx, Equal(t[0].row.score.value))
  {
    var rows := Shown(ctx, "Bottom 10");
    BottomHeadIsLowest(ctx);
    var t := RankingTable(ctx, "Bottom 10");
    assert t[0].row == rows[0];
    CountFromFloor(ctx, rows[0].score.value);
  }

  /** The first "Bottom 10" row scores no more than any row of the context. */
  lemma BottomHeadIsLowest(ctx: seq<Row>)
    requires AllScored(ctx) && ctx != []
    ensures var rows := Shown(ctx, "Bottom 10");
            rows != [] && rows[0].score.Some? &&
            forall r :: r in ctx ==> r.score.Some? && r.score.value >= rows[0].score.value
  {
    ShownHeadLeads(ctx, "Bottom 10");
    var rows := Shown(ctx, "Bottom 10");
    ShownFromContext(ctx, "Bottom 10");
    assert rows[0] in rows;
    forall r | r in ctx ensures r.score.Some? && r.score.value >= rows[0].score.value {
      assert Precedes(false, rows[0], r);
    }
  }

  // ---------------------------------------------------------------------
  // Map rows
  // ---------------------------------------------------------------------

  /** Whether the map shows this row, by the fixed branch order: several
      selected countries (the region is ignored), then exactly one, then the
      region, then the world. */
  predicate OnMap(selected: seq<string>, region: string, r: Row) {
    if |selected| > 1 then r.country in selected
    else if |selected| == 1 then r.country == selected[0]
    else region == "all" || r.region == Some(region)
  }

  function MapMask(selected: seq<string>, region: string, year: int): Row -> bool {
    (r: Row) => r.year == year && OnMap(selected, region, r)
  }

  /** `dff_map`: the rows of the year narrowed by the branch in force; the
      result is one mask over the table, keeping its row order. */
  function MapRows(df: seq<Row>, selected: seq<string>, region: string, year: int): (m: seq<Row>)
    ensures m == Filter(df, MapMask(selected, region, year))
  {
    var yearRows := Filter(df, IsYear(year));
    var mask := MapMask(selected, region, year);
    if |selected| > 1 then
      FilterFilter(df, IsYear(year), InCountries(selected));
      FilterEquiv(df, Both(IsYear(year), InCountries(selected)), mask);
      Filter(yearRows, InCountries(selected))
    else if |selected| == 1 then
      FilterFilter(df, IsYear(year), HasCountry(selected[0]));
      FilterEquiv(df, Both(IsYear(year), HasCountry(selected[0])), mask);
      Filter(yearRows, HasCountry(selected[0]))
    else if region == "all" then
      FilterEquiv(df, IsYear(year), mask);
      yearRows
    else
      FilterFilter(df, IsYear(year), InRegion(region));
      FilterEquiv(df, Both(IsYear(year), InRegion(region)), mask);
      Filter(yearRows, InRegion(region))
  }

  // ---------------------------------------------------------------------
  // Trend line
  // ---------------------------------------------------------------------

  /** The min/max markers of one compared country. */
  datatype CountryMarker = CountryMarker(country: string, marker: Marker)

  /** The data of the line chart, by the same branch order as the map. */
  datatype TrendView =
    | Comparison(rows: seq<Row>, markers: seq<CountryMarker>)
    | CountryTrend(rows: seq<Row>, marker: Option<Marker>)
    | AverageTrend(means: seq<YearMean>, marker: Option<Marker>)

  /** The rows averaged when no country is selected. */
  function AverageScope(df: seq<Row>, region: string): (s: seq<Row>)
    ensures forall r :: r in s <==> r in df && (region == "all" || r.region == Some(region))
  {
    if region == "all" then df else Filter(df, InRegion(region))
  }

  /** What `idxmin()`/`idxmax()` need in the branch in force: each series
      that gets markers is empty or has a score. */
  predicate TrendDefined(df: seq<Row>, selected: seq<string>, region: string) {
    if |selected| >= 1 then forall i :: 0 <= i < |selected| ==> Plottable(Filter(df, HasCountry(selected[i])))
    else Plottable(AverageScope(df, region))
  }

  /** A country's rows are empty exactly when it has no row. */
  lemma CountryRowsPresent(lines: seq<Row>, c: string)
    ensures Filter(lines, HasCountry(c)) == [] <==> !HasCountryRow(lines, c)
  {
    var rows := Filter(lines, HasCountry(c));
    if rows != [] {
      assert rows[0] in rows;
    }
    if HasCountryRow(lines, c) {
      var r :| r in lines && r.country == c;
      assert r in rows;
    }
  }

  /** Some marker of ms belongs to country c. */
  predicate Marked(ms: seq<CountryMarker>, c: string) {
    exists m :: m in ms && m.country == c
  }

  lemma MarkedCons(m: CountryMarker, rest: seq<CountryMarker>)
    ensures forall c :: Marked([m] + rest, c) <==> m.country == c || Marked(rest, c)
  {
    forall c ensures Marked([m] + rest, c) <==> m.country == c || Marked(rest, c) {
      if Marked(rest, c) {
        var x :| x in rest && x.country == c;
        assert x in [m] + rest;
      }
      if m.country == c {
        assert m in [m] + rest;
      }
    }
  }

  /** The countries of a marker list, in list order. */
  function MarkedCountries(ms: seq<CountryMarker>): (cs: seq<string>)
    ensures |cs| == |ms|
    ensures forall i :: 0 <= i < |ms| ==> cs[i] == ms[i].country
  {
    seq(|ms|, i requires 0 <= i < |ms| => ms[i].country)
  }

  lemma MarkedCountriesCons(m: CountryMarker, rest: seq<CountryMarker>)
    ensures MarkedCountries([m] + rest) == [m.country] + MarkedCountries(rest)
  {
    var a := MarkedCountries([m] + rest);
    var b := [m.country] + MarkedCountries(rest);
    assert |a| == |b|;
    forall i | 0 <= i < |a| ensures a[i] == b[i] {
      if i > 0 { assert ([m] + rest)[i] == rest[i - 1]; }
    }
  }

  /** The mask of the selected countries that have a row in lines. */
  function HasRowsIn(lines: seq<Row>): string -> bool { (c: string) => HasCountryRow(lines, c) }

  /** The markers of the comparison, one per selected country that has rows,
      in the order of the selection. */
  function ComparisonMarkers(lines: seq<Row>, selected: seq<string>): (ms: seq<CountryMarker>)
    requires forall i :: 0 <= i < |selected| ==> Plottable(Filter(lines, HasCountry(selected[i])))
    ensures |ms| <= |selected|
    ensures forall m :: m in ms ==> m.country in selected && Extremes(m.marker, RowPoints(Filter(lines, HasCountry(m.country))))
    ensures forall c :: c in selected ==> (HasCountryRow(lines, c) <==> Marked(ms, c))
    ensures MarkedCountries(ms) == Filter(selected, HasRowsIn(lines))
  {
    if selected == [] then []
    else
      var c := selected[0];
      var rows := Filter(lines, HasCountry(c));
      var rest := ComparisonMarkers(lines, selected[1..]);
      assert forall d :: d in selected <==> d == c || d in selected[1..] by {
        assert selected == [c] + selected[1..];
      }
      CountryRowsPresent(lines, c);
      if rows == [] then rest
      else
        RowPointsPlottable(rows);
        var m := CountryMarker(c, Markers(RowPoints(rows)).value);
        assert forall x :: x in [m] + rest <==> x == m || x in rest;
        MarkedCons(m, rest);
        MarkedCountriesCons(m, rest);
        [m] + rest
  }

  lemma SelectedCountryRows(df: seq<Row>, selected: seq<string>, c: string)
    requires c in selected
    ensures Filter(Filter(df, InCountries(selected)), HasCountry(c)) == Filter(df, HasCountry(c))
  {
    FilterFilter(df, InCountries(selected), HasCountry(c));
    FilterEquiv(df, Both(InCountries(selected), HasCountry(c)), HasCountry(c));
  }

  /** `dff_line` and its markers: the selected countries' rows over all
      years with each one's extremes, or the one selected country's rows with
      their extremes, or the yearly means of the region or the world with
      theirs; no marker for an empty series. */
  function AppTrend(df: seq<Row>, selected: seq<string>, region: string): (v: TrendView)
    requires TrendDefined(df, selected, region)
    ensures |selected| > 1 ==> v.Comparison?
    ensures v.Comparison? ==> v.rows == Filter(df, InCountries(selected))
    ensures v.Comparison? ==> forall r :: r in v.rows <==> r in df && r.country in selected
    ensures v.Comparison? ==> forall m :: m in v.markers ==>
              m.country in selected && Extremes(m.marker, RowPoints(Filter(df, HasCountry(m.country))))
    ensures v.Comparison? ==> forall c :: c in selected ==>
              (HasCountryRow(df, c) <==> Marked(v.markers, c))
    ensures v.Comparison? ==> MarkedCountries(v.markers) == Filter(selected, HasRowsIn(df))
    ensures |selected| == 1 ==> v.CountryTrend? && v.rows == Filter(df, HasCountry(selected[0]))
    ensures v.CountryTrend? ==> (v.marker.None? <==> v.rows == [])
    ensures v.CountryTrend? ==> v.marker.Some? ==> Extremes(v.marker.value, RowPoints(v.rows))
    ensures selected == [] ==> v.AverageTrend? && v.means == YearlyMeans(AverageScope(df, region))
    ensures v.AverageTrend? ==> (v.marker.None? <==> v.means == [])
    ensures v.AverageTrend? ==> v.marker.Some? ==> Extremes(v.marker.value, MeanPoints(v.means))
  {
    if |selected| > 1 then
      var lines := Filter(df, InCountries(selected));
      assert forall c :: c in selected ==> Filter(lines, HasCountry(c)) == Filter(df, HasCountry(c)) by {
        forall c | c in selected ensures Filter(lines, HasCountry(c)) == Filter(df, HasCountry(c)) {
          SelectedCountryRows(df, selected, c);
        }
      }
      assert forall c :: c in selected ==> (HasCountryRow(lines, c) <==> HasCountryRow(df, c)) by {
        forall c | c in selected ensures HasCountryRow(lines, c) <==> HasCountryRow(df, c) {
          if HasCountryRow(df, c) {
            var r :| r in df && r.country == c;
            assert r in lines;
          }
        }
      }
      FilterEquiv(selected, HasRowsIn(lines), HasRowsIn(df));
      Comparison(lines, ComparisonMarkers(lines, selected))
    else if |selected| == 1 then
      var rows := Filter(df, HasCountry(selected[0]));
      RowPointsPlottable(rows);
      CountryTrend(rows, Markers(RowPoints(rows)))
    else
      var means := YearlyMeans(AverageScope(df, region));
      MeanPointsPlottable(AverageScope(df, region));
      AverageTrend(means, Markers(MeanPoints(means)))
  }

  // ---------------------------------------------------------------------
  // KPI panel
  // ---------------------------------------------------------------------

  /** The KPI panel: the view name and its number of countries, the
      "No data" placeholder, or the five boxes of one country. */
  datatype Kpi =
    | Aggregate(view: string, countries: nat)
    | NoData
    | Single(country: string, regionLabel: string, score: Option<real>, ranks: Ranks)

  /** `single_country_kpi_panel`. */
  function SingleCountryKpi(df: seq<Row>, country: string, year: int): (k: Kpi)
    requires HasRow(df, country, year) ==> Rankable(df, country, year)
    ensures k.NoData? <==> !HasRow(df, country, year)
    ensures !k.Aggregate?
    ensures k.Single? ==> k.country == country
    ensures k.Single? ==> k.score == TargetRow(df, country, year).score
    ensures k.Single? ==> k.regionLabel == RegionName(TargetRow(df, country, year).region.value)
    ensures k.Single? ==> RanksFit(df, country, year, k.ranks)
  {
    if !HasRow(df, country, year) then NoData
    else
      var t := TargetRow(df, country, year);
      Single(country, RegionName(t.region.value), t.score, RankFigures(df, country, year))
  }

  /** `region_names.get(code)` without a default: an unknown code is shown as "None". */
  function RegionTitle(code: string): string {
    if code in RegionNames then RegionNames[code] else "None"
  }

  /** The distinct selected countries that have a row in the year. */
  function PresentSelection(df: seq<Row>, selected: seq<string>, year: int): set<string> {
    set c | c in selected && HasRow(df, c, year)
  }

  /** The distinct countries of the year within the region ("all" for every region). */
  function ScopeCountries(df: seq<Row>, region: string, year: int): set<string> {
    set r | r in df && r.year == year && (region == "all" || r.region == Some(region)) :: r.country
  }

  /** The KPI panel of `update_dashboard`, by the same branch order as the
      map: several countries count the selected countries present in the
      year; one country gets its own panel; otherwise the world or the region
      is counted. */
  function DashboardKpi(df: seq<Row>, selected: seq<string>, region: string, year: int): (k: Kpi)
    requires |selected| == 1 && HasRow(df, selected[0], year) ==> Rankable(df, selected[0], year)
    ensures |selected| > 1 ==> k == Aggregate("Custom Selection", |PresentSelection(df, selected, year)|)
    ensures |selected| == 1 ==> k == SingleCountryKpi(df, selected[0], year)
    ensures selected == [] ==> k.Aggregate? && k.countries == |ScopeCountries(df, region, year)|
    ensures selected == [] ==> k.view == if region == "all" then "World" else RegionTitle(region)
  {
    var m := MapRows(df, selected, region, year);
    if |selected| > 1 then
      assert CountrySet(m) == PresentSelection(df, selected, year) by {
        forall c ensures c in CountrySet(m) <==> c in PresentSelection(df, selected, year) {
          if c in selected && HasRow(df, c, year) {
            var r :| r in df && r.country == c && r.year == year;
            assert r in m;
          }
        }
      }
      Aggregate("Custom Selection", CountryCount(m))
    else if |selected| == 1 then
      SingleCountryKpi(df, selected[0], year)
    else
      assert CountrySet(m) == ScopeCountries(df, region, year);
      Aggregate(if region == "all" then "World" else RegionTitle(region), CountryCount(m))
  }
}
