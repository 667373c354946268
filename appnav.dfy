/** The data side of the two-page dashboard: page routing, the country
    dropdown and the map, line and KPI row of `update_dashboard` (always
    for the latest year of the table), the n-input toggle and the ranking
    page with its bar chart. */
module AppNav {
  import opened Table
  import opened Sorting
  import opened Distinct
  import opened Ranking
  import opened Trend
  import opened Catalog

  // ---------------------------------------------------------------------
  // Routing
  // ---------------------------------------------------------------------

  datatype Page = RankingLayout | DashboardLayout

  /** `display_page`: "/ranking" is the ranking page, every other path the dashboard. */
  function DisplayPage(pathname: string): (p: Page)
    ensures p == RankingLayout <==> pathname == "/ranking"
    ensures p == DashboardLayout <==> pathname != "/ranking"
  {
    if pathname == "/ranking" then RankingLayout else DashboardLayout
  }

  // ---------------------------------------------------------------------
  // Country dropdown
  // ---------------------------------------------------------------------

  /** The options and the value of the single-select country dropdown. */
  datatype CountrySelect = CountrySelect(options: seq<Choice>, value: string)

  const AllChoice: Choice := Choice("All countries", "all")

  /** Whether a dropdown value fits the region: with "all" regions, "all"
      or any country of the table; otherwise a country with a row in that region. */
  predicate FitsRegion(df: seq<Row>, region: string, c: string) {
    if region == "all" then c == "all" || HasCountryRow(df, c) else HasRegionCountry(df, region, c)
  }

  /** The options are "All countries" followed by the sorted countries of
      the table or of the region; the selected country is kept when it fits
      the region and is reset to "all" otherwise. */
  function CountrySelection(df: seq<Row>, dropdown: string, region: string): (s: CountrySelect)
    ensures |s.options| > 0 && s.options[0] == AllChoice
    ensures var listed := s.options[1..];
            && (forall i, j :: 0 <= i < j < |listed| ==> StrLess(listed[i].value, listed[j].value))
            && (forall i :: 0 <= i < |listed| ==> listed[i].caption == listed[i].value)
            && (forall c :: Offers(listed, c) <==>
                  if region == "all" then HasCountryRow(df, c) else HasRegionCountry(df, region, c))
    ensures s.value == if FitsRegion(df, region, dropdown) then dropdown else "all"
  {
    var cs := if region == "all" then AllCountries(df) else RegionCountries(df, region);
    var listed := Choices(cs);
    forall c ensures Offers(listed, c) <==> c in cs {
      ChoicesOffer(cs, c);
    }
    var value :=
      if region == "all" then (if dropdown in cs || dropdown == "all" then dropdown else "all")
      else (if dropdown in cs then dropdown else "all");
    assert [AllChoice] + listed == ([AllChoice] + listed)[..1] + listed;
    CountrySelect([AllChoice] + listed, value)
  }

  /** The dropdown always shows a value it offers. */
  lemma SelectedValueOffered(df: seq<Row>, dropdown: string, region: string)
    ensures Offers(CountrySelection(df, dropdown, region).options, CountrySelection(df, dropdown, region).value)
  {
    var s := CountrySelection(df, dropdown, region);
    var listed := s.options[1..];
    if s.value == "all" {
      assert s.options[0].value == "all";
    } else {
      assert Offers(listed, s.value);
      var i :| 0 <= i < |listed| && listed[i].value == s.value;
      assert s.options[i + 1] == listed[i];
    }
  }

  // ---------------------------------------------------------------------
  // Map and line
  // ---------------------------------------------------------------------

  /** `region_context`: none, or the region of the map's scope; a country
      whose row has no region gives `Context(None)` (NaN, which Python
      treats as true). */
  datatype RegionContext = NoContext | Context(region: Option<string>)

  datatype NavMap = NavMap(rows: seq<Row>, context: RegionContext)

  /** Whether the map shows this row, by the branch order country, region, world. */
  predicate OnNavMap(countryValue: string, region: string, r: Row) {
    if countryValue != "all" then r.country == countryValue
    else region == "all" || r.region == Some(region)
  }

  /** The map rows of the year and the region context they set. */
  function NavMapView(df: seq<Row>, countryValue: string, region: string, year: int): (m: NavMap)
    requires countryValue != "all" ==> HasRow(df, countryValue, year)
    ensures forall r :: r in m.rows <==> r in df && r.year == year && OnNavMap(countryValue, region, r)
    ensures countryValue != "all" ==> m.context == Context(TargetRow(df, countryValue, year).region)
    ensures countryValue == "all" && region != "all" ==> m.context == Context(Some(region))
    ensures countryValue == "all" && region == "all" ==> m.context == NoContext
  {
    var yearRows := Filter(df, IsYear(year));
    if countryValue != "all" then
      var rows := Filter(yearRows, HasCountry(countryValue));
      FilterFilter(df, IsYear(year), HasCountry(countryValue));
      FilterEquiv(df, Both(IsYear(year), HasCountry(countryValue)), AtCountryYear(countryValue, year));
      NavMap(rows, Context(rows[0].region))
    else if region != "all" then
      NavMap(Filter(yearRows, InRegion(region)), Context(Some(region)))
    else
      NavMap(yearRows, NoContext)
  }

  /** The line follows the dropdown, except that a click on the map, when it
      triggered the update and carries a country, shows that country. */
  function LineCountry(countryValue: string, fromMap: bool, click: Option<string>): (c: string)
    ensures fromMap && click.Some? ==> c == click.value
    ensures !fromMap || click.None? ==> c == countryValue
  {
    if fromMap && click.Some? then click.value else countryValue
  }

  datatype NavLine = CountryLine(rows: seq<Row>) | AverageLine(means: seq<YearMean>)

  /** Python truthiness of the region context: NaN is true, "" is false. */
  predicate Truthy(ctx: RegionContext) {
    match ctx
    case NoContext => false
    case Context(None) => true
    case Context(Some(g)) => g != ""
  }

  /** `df[df["Region"] == region_context]`: a NaN context equals no region. */
  function ContextRows(df: seq<Row>, ctx: RegionContext): (rows: seq<Row>)
    ensures forall r :: r in rows <==> r in df && ctx.Context? && ctx.region.Some? && r.region == ctx.region
    ensures rows == if ctx.Context? && ctx.region.Some? then Filter(df, InRegion(ctx.region.value)) else []
  {
    if ctx.Context? && ctx.region.Some? then Filter(df, InRegion(ctx.region.value)) else []
  }

  /** A country's rows over all years, or the yearly means of the region
      context when it is set, or of the world. */
  function NavLineView(df: seq<Row>, lineCountry: string, ctx: RegionContext): (v: NavLine)
    ensures lineCountry != "all" ==> v.CountryLine? && v.rows == Filter(df, HasCountry(lineCountry))
    ensures lineCountry != "all" ==> forall r :: r in v.rows <==> r in df && r.country == lineCountry
    ensures lineCountry == "all" && Truthy(ctx) ==> v == AverageLine(YearlyMeans(ContextRows(df, ctx)))
    ensures lineCountry == "all" && !Truthy(ctx) ==> v == AverageLine(YearlyMeans(df))
  {
    if lineCountry != "all" then CountryLine(Filter(df, HasCountry(lineCountry)))
    else if Truthy(ctx) then AverageLine(YearlyMeans(ContextRows(df, ctx)))
    else AverageLine(YearlyMeans(df))
  }

  // ---------------------------------------------------------------------
  // KPI row
  // ---------------------------------------------------------------------

  /** What a KPI box shows: the "-" placeholder, NaN ("nan"), a text, a
      score, or "rank / total". */
  datatype KpiValue = Placeholder | Nan | Text(text: string) | Score(score: real) | RankOf(rank: nat, total: nat)

  datatype KpiBox = KpiBox(caption: string, value: KpiValue)

  const KpiFields: seq<string> := ["Country / Territory", "CPI score"]

  const KpiCaptions: seq<string> := ["Region", "Country / Territory", "CPI score", "World rank", "Region rank"]

  /** The region box: a missing region (NaN) is true in Python and shows
      "nan", an empty one shows "-", a code shows its display name. */
  function RegionLabel(region: Option<string>): KpiValue {
    match region
    case None => Nan
    case Some(g) => if g == "" then Placeholder else Text(RegionName(g))
  }

  function ScoreValue(s: Option<real>): KpiValue {
    if s.Some? then Score(s.value) else Nan
  }

  /** The value of a field box: "-" when no row matches, and otherwise
      `row[field] if field in row else "-"`. */
  function FieldValue(row: Option<Row>, field: string): KpiValue {
    match row
    case None => Placeholder
    case Some(t) =>
      if field == "Country / Territory" then Text(t.country)
      else if field == "CPI score" then ScoreValue(t.score)
      else Placeholder
  }

  /** The world and region rank boxes show "rank / total" figures that fit
      the country's position in the year and in its region. */
  predicate ShowsRanks(df: seq<Row>, country: string, year: int, world: KpiValue, regional: KpiValue)
    requires Rankable(df, country, year)
  {
    && world.RankOf? && regional.RankOf?
    && RanksFit(df, country, year, Ranks(world.rank, world.total, regional.rank, regional.total))
  }

  /** `for field in KPI_FIELDS: kpis.append(kpi_box(field, ...))`: one box
      per field, in field order, showing the field of the row when there is one. */
  method AppendFieldBoxes(kpis: seq<KpiBox>, row: Option<Row>) returns (r: seq<KpiBox>)
    ensures |r| == |kpis| + |KpiFields|
    ensures r[..|kpis|] == kpis
    ensures forall j :: 0 <= j < |KpiFields| ==> r[|kpis| + j] == KpiBox(KpiFields[j], FieldValue(row, KpiFields[j]))
  {
    r := kpis;
    for i := 0 to |KpiFields|
      invariant |r| == |kpis| + i
      invariant r[..|kpis|] == kpis
      invariant forall j :: 0 <= j < i ==> r[|kpis| + j] == KpiBox(KpiFields[j], FieldValue(row, KpiFields[j]))
    {
      r := r + [KpiBox(KpiFields[i], FieldValue(row, KpiFields[i]))];
    }
  }

  /** `kpi_panel_row`: five boxes, always; placeholders when the country has
      no row in the year, and otherwise its name, its score and its world and
      region ranks. The region box shows the region passed in. */
  method KpiPanelRow(df: seq<Row>, country: string, year: int, region: Option<string>) returns (kpis: seq<KpiBox>)
    requires HasRow(df, country, year) ==> Rankable(df, country, year)
    ensures |kpis| == 5
    ensures forall i :: 0 <= i < 5 ==> kpis[i].caption == KpiCaptions[i]
    ensures kpis[0].value == RegionLabel(region)
    ensures !HasRow(df, country, year) ==> forall i :: 1 <= i < 5 ==> kpis[i].value == Placeholder
    ensures HasRow(df, country, year) ==>
              && kpis[1].value == Text(country)
              && kpis[2].value == ScoreValue(TargetRow(df, country, year).score)
              && ShowsRanks(df, country, year, kpis[3].value, kpis[4].value)
  {
    var regionBox := KpiBox("Region", RegionLabel(region));
    kpis := [regionBox];
    if !HasRow(df, country, year) {
      kpis := AppendFieldBoxes(kpis, None);
      FiveBoxes(kpis, None, regionBox, Placeholder, Placeholder);
      kpis := kpis + [KpiBox("World rank", Placeholder)];
      kpis := kpis + [KpiBox("Region rank", Placeholder)];
    } else {
      var t := TargetRow(df, country, year);
      var world, regional := RankBoxValues(df, country, year);
      kpis := AppendFieldBoxes(kpis, Some(t));
      FiveBoxes(kpis, Some(t), regionBox, world, regional);
      kpis := kpis + [KpiBox("World rank", world)];
      kpis := kpis + [KpiBox("Region rank", regional)];
    }
  }

  /** The "rank / total" values of the world and region rank boxes. */
  method RankBoxValues(df: seq<Row>, country: string, year: int) returns (world: KpiValue, regional: KpiValue)
    requires Rankable(df, country, year)
    ensures ShowsRanks(df, country, year, world, regional)
  {
    var k := RankFigures(df, country, year);
    world, regional := RankOf(k.worldRank, k.worldTotal), RankOf(k.regionRank, k.regionTotal);
  }

  /** The region box, the field boxes and the two rank boxes, in that order. */
  lemma FiveBoxes(fields: seq<KpiBox>, row: Option<Row>, regionBox: KpiBox, world: KpiValue, regional: KpiValue)
    requires |fields| == 3 && fields[..1] == [regionBox]
    requires forall j :: 0 <= j < |KpiFields| ==> fields[1 + j] == KpiBox(KpiFields[j], FieldValue(row, KpiFields[j]))
    ensures fields + [KpiBox("World rank", world)] + [KpiBox("Region rank", regional)] ==
            [regionBox,
             KpiBox(KpiCaptions[1], FieldValue(row, KpiCaptions[1])),
             KpiBox(KpiCaptions[2], FieldValue(row, KpiCaptions[2])),
             KpiBox(KpiCaptions[3], world),
             KpiBox(KpiCaptions[4], regional)]
  {
    assert fields[0] == fields[..1][0];
    assert fields[1] == KpiBox(KpiFields[0], FieldValue(row, KpiFields[0]));
    assert fields[2] == KpiBox(KpiFields[1], FieldValue(row, KpiFields[1]));
  }

  /** `df.loc[df["Country / Territory"] == c, "Region"].iloc[0]`: the region
      of the country's first row in the table, whatever its year. */
  function FirstRegion(df: seq<Row>, c: string): (g: Option<string>)
    requires HasCountryRow(df, c)
    ensures exists i :: 0 <= i < |df| && df[i].country == c && df[i].region == g &&
              forall j :: 0 <= j < i ==> df[j].country != c
  {
    var i := IndexOfCountry(df, c);
    df[i].region
  }

  /** The dashboard's outputs: dropdown, map, line and the KPI row, which
      stays empty while the line shows an average. */
  datatype NavDashboard = NavDashboard(choice: CountrySelect, mapView: NavMap, lineView: NavLine, kpis: seq<KpiBox>)

  /** What `update_dashboard` needs of the table: some row (for the latest
      year), a latest-year row for a selected country, a row for the line's
      country, and the `.loc` lookups of its KPI row. */
  predicate NavDefined(df: seq<Row>, dropdown: string, region: string, fromMap: bool, click: Option<string>) {
    && |df| > 0
    && var value := CountrySelection(df, dropdown, region).value;
       var lc := LineCountry(value, fromMap, click);
       && (value != "all" ==> HasRow(df, value, LatestYear(df)))
       && (lc != "all" ==> HasCountryRow(df, lc))
       && (lc != "all" && HasRow(df, lc, LatestYear(df)) ==> Rankable(df, lc, LatestYear(df)))
  }

  /** `update_dashboard` of the two-page app, for the latest year. */
  method UpdateNavDashboard(df: seq<Row>, dropdown: string, region: string, fromMap: bool, click: Option<string>)
    returns (d: NavDashboard)
    requires NavDefined(df, dropdown, region, fromMap, click)
    ensures d.choice == CountrySelection(df, dropdown, region)
    ensures d.mapView == NavMapView(df, d.choice.value, region, LatestYear(df))
    ensures d.lineView == NavLineView(df, LineCountry(d.choice.value, fromMap, click), d.mapView.context)
    ensures LineCountry(d.choice.value, fromMap, click) == "all" <==> d.kpis == []
    ensures var lc := LineCountry(d.choice.value, fromMap, click);
            lc != "all" ==> |d.kpis| == 5 && d.kpis[0].value == RegionLabel(FirstRegion(df, lc))
    ensures var lc := LineCountry(d.choice.value, fromMap, click);
            lc != "all" && HasRow(df, lc, LatestYear(df)) ==>
              && d.kpis[1].value == Text(lc)
              && d.kpis[2].value == ScoreValue(TargetRow(df, lc, LatestYear(df)).score)
              && ShowsRanks(df, lc, LatestYear(df), d.kpis[3].value, d.kpis[4].value)
    ensures var lc := LineCountry(d.choice.value, fromMap, click);
            lc != "all" && !HasRow(df, lc, LatestYear(df)) ==> forall i :: 1 <= i < 5 ==> d.kpis[i].value == Placeholder
  {
    var year := LatestYear(df);
    var choice := CountrySelection(df, dropdown, region);
    var mapView := NavMapView(df, choice.value, region, year);
    var lineCountry := LineCountry(choice.value, fromMap, click);
    var kpis: seq<KpiBox> := [];
    if lineCountry != "all" {
      kpis := KpiPanelRow(df, lineCountry, year, FirstRegion(df, lineCountry));
    }
    d := NavDashboard(choice, mapView, NavLineView(df, lineCountry, mapView.context), kpis);
  }

  // ---------------------------------------------------------------------
  // Ranking page
  // ---------------------------------------------------------------------

  /** `toggle_n_input_disabled`: the n input is off exactly in mode "all". */
  function NInputDisabled(mode: string): (disabled: bool)
    ensures disabled <==> mode == "all"
  {
    mode == "all"
  }

  /** The number of countries asked for; a missing or non-positive n means 10. */
  function EffectiveN(n: Option<int>): (k: nat)
    ensures k >= 1
    ensures n.Some? && n.value >= 1 ==> k == n.value
    ensures n.None? || n.value < 1 ==> k == 10
  {
    if n.None? || n.value < 1 then 10 else n.value
  }

  /** The latest year's rows, of the selected region unless it is "all". */
  function RankingScope(df: seq<Row>, region: string): (s: seq<Row>)
    requires |df| > 0
    ensures forall r :: r in s <==> r in df && r.year == LatestYear(df) && (region == "all" || r.region == Some(region))
    ensures s == if region == "all" then Filter(df, IsYear(LatestYear(df))) else Filter(Filter(df, IsYear(LatestYear(df))), InRegion(region))
  {
    var dff := Filter(df, IsYear(LatestYear(df)));
    if region != "all" then Filter(dff, InRegion(region)) else dff
  }

  /** The rows the ranking page charts: the scope as it is, or its best
      ("top") or worst ("bottom") n rows. */
  function RankingSelection(df: seq<Row>, region: string, mode: string, n: Option<int>): (s: seq<Row>)
    requires |df| > 0
    ensures mode != "top" && mode != "bottom" ==> s == RankingScope(df, region)
    ensures mode == "top" || mode == "bottom" ==>
              var scope := RankingScope(df, region);
              && |s| == (if EffectiveN(n) <= |scope| then EffectiveN(n) else |scope|)
              && SortedBy(mode == "top", s)
              && multiset(s) <= multiset(scope)
              && KeepsBest(mode == "top", scope, s)
  {
    var scope := RankingScope(df, region);
    if mode == "top" || mode == "bottom" then
      var sorted := SortBy(mode == "top", scope);
      HeadOfSorted(mode == "top", sorted, EffectiveN(n));
      assert |sorted| == |multiset(sorted)| == |multiset(scope)| == |scope|;
      Head(sorted, EffectiveN(n))
    else scope
  }

  /** While the n input is disabled, its value does not matter. */
  lemma DisabledInputIgnored(df: seq<Row>, region: string, mode: string, n1: Option<int>, n2: Option<int>)
    requires |df| > 0 && NInputDisabled(mode)
    ensures RankingSelection(df, region, mode, n1) == RankingSelection(df, region, mode, n2)
  {
  }

  datatype BarChart = BarChart(rows: seq<Row>, height: int)

  /** The chart height: 25 pixels a row, never below 600. */
  function BarHeight(count: nat): (h: int)
    ensures h >= 600 && h >= 25 * count
    ensures h == 600 || h == 25 * count
  {
    if 25 * count > 600 then 25 * count else 600
  }

  /** `create_ranking_barchart`: the rows in ascending score order, as high as they need. */
  function RankingBarChart(dff: seq<Row>): (c: BarChart)
    ensures SortedBy(false, c.rows)
    ensures multiset(c.rows) == multiset(dff)
    ensures c.height == BarHeight(|dff|)
  {
    var rows := SortBy(false, dff);
    assert |rows| == |multiset(rows)| == |multiset(dff)| == |dff|;
    BarChart(rows, BarHeight(|rows|))
  }

  /** `update_ranking_page`: narrows the latest year's rows step by step,
      then charts them. */
  method UpdateRankingPage(df: seq<Row>, region: string, mode: string, n: Option<int>)
    returns (dff: seq<Row>, chart: BarChart)
    requires |df| > 0
    ensures dff == RankingSelection(df, region, mode, n)
    ensures chart == RankingBarChart(dff)
  {
    dff := Filter(df, IsYear(LatestYear(df)));
    if region != "all" {
      dff := Filter(dff, InRegion(region));
    }
    if mode != "all" {
      var count := n;
      if count.None? || count.value < 1 {
        count := Some(10);
      }
      if mode == "top" {
        dff := Head(SortBy(true, dff), count.value);
      } else if mode == "bottom" {
        dff := Head(SortBy(false, dff), count.value);
      }
    }
    chart := RankingBarChart(dff);
  }
}
