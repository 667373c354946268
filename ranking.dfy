/** The two kinds of rank the dashboards show.

    - The ranking table uses pandas `rank(method="min", ascending=False)`:
      tied scores share the best rank of their group, and the next score
      down jumps by the size of the group (`MinRank`).
    - The single-country KPI panels take the 1-based position of the
      country after a descending `sort_values`, whose order among tied rows
      is not specified; that rank is pinned down by its bounds only
      (`WithinTieBounds`, `PositionRankBounds`). */
module Ranking {
  import opened Table
  import opened Sorting

  function Greater(v: real): Row -> bool { (r: Row) => r.score.Some? && r.score.value > v }
  function AtLeast(v: real): Row -> bool { (r: Row) => r.score.Some? && r.score.value >= v }
  function Equal(v: real): Row -> bool { (r: Row) => r.score == Some(v) }
  function Between(w: real, v: real): Row -> bool { (r: Row) => r.score.Some? && w < r.score.value <= v }

  predicate HasScore(ctx: seq<Row>, v: real) {
    exists r :: r in ctx && r.score == Some(v)
  }

  predicate AllScored(ctx: seq<Row>) {
    forall r :: r in ctx ==> r.score.Some?
  }

  // ---------------------------------------------------------------------
  // Minimum-tie rank
  // ---------------------------------------------------------------------

  /** Position of the first row with score v. */
  function FirstWithScore(s: seq<Row>, v: real): (k: nat)
    requires HasScore(s, v)
    ensures k < |s| && s[k].score == Some(v)
    ensures forall i :: 0 <= i < k ==> s[i].score != Some(v)
  {
    if s[0].score == Some(v) then 0
    else
      assert HasScore(s[1..], v) by {
        var r :| r in s && r.score == Some(v);
        assert s == [s[0]] + s[1..];
      }
      1 + FirstWithScore(s[1..], v)
  }

  /** In a descending sort, the rows before the first v are exactly those scoring above v. */
  lemma FirstIsCountGreater(s: seq<Row>, v: real)
    requires SortedBy(true, s) && HasScore(s, v)
    ensures FirstWithScore(s, v) == Count(s, Greater(v))
  {
    var f := FirstWithScore(s, v);
    forall i | 0 <= i < f ensures Greater(v)(s[i]) {
      assert Precedes(true, s[i], s[f]);
    }
    CountPrefixAll(s, f, Greater(v));
    forall i | f <= i < |s| ensures !Greater(v)(s[i]) {
      if i > f { assert Precedes(true, s[f], s[i]); }
    }
    CountSuffixNone(s, f, Greater(v));
  }

  /** `rank(method="min", ascending=False)` of score v within ctx: the
      1-based position of the first row scoring v once ctx is sorted
      descending. It is 1 + the number of rows scoring strictly more,
      whatever order the sort leaves tied rows in. */
  function MinRank(ctx: seq<Row>, v: real): (k: nat)
    requires HasScore(ctx, v)
    ensures k == 1 + Count(ctx, Greater(v))
  {
    var s := SortBy(true, ctx);
    assert HasScore(s, v) by {
      var r :| r in ctx && r.score == Some(v);
      assert r in multiset(ctx);
      assert r in multiset(s);
    }
    FirstIsCountGreater(s, v);
    FilterPerm(s, ctx, Greater(v));
    1 + FirstWithScore(s, v)
  }

  /** A strictly higher score gets a strictly better (smaller) rank. */
  lemma MinRankMonotone(ctx: seq<Row>, v: real, w: real)
    requires HasScore(ctx, v) && HasScore(ctx, w)
    requires v > w
    ensures MinRank(ctx, v) < MinRank(ctx, w)
  {
    CountSplit(ctx, Greater(w), Greater(v), Between(w, v));
    var r :| r in ctx && r.score == Some(v);
    assert r in Filter(ctx, Between(w, v));
  }

  /** Below a tie group of score v, the next distinct score w is ranked
      exactly the size of the group further down. */
  lemma MinRankJump(ctx: seq<Row>, v: real, w: real)
    requires HasScore(ctx, v) && HasScore(ctx, w)
    requires w < v
    requires forall r :: r in ctx && r.score.Some? ==> !(w < r.score.value < v)
    ensures MinRank(ctx, w) == MinRank(ctx, v) + Count(ctx, Equal(v))
  {
    CountSplit(ctx, Greater(w), Greater(v), Equal(v));
  }

  /** The best score in ctx is ranked 1, however many rows share it. */
  lemma MinRankOfBest(ctx: seq<Row>, v: real)
    requires HasScore(ctx, v)
    requires forall r :: r in ctx && r.score.Some? ==> r.score.value <= v
    ensures MinRank(ctx, v) == 1
  {
    FilterNone(ctx, Greater(v));
  }

  lemma TieGroupSize(a: Row, b: Row, c: Row)
    requires a.score == Some(90.0) && b.score == Some(90.0) && c.score == Some(88.0)
    ensures Count([a, b, c], Equal(90.0)) == 2
  {
    var p := Equal(90.0);
    assert [a, b, c][1..] == [b, c] && [b, c][1..] == [c] && [c][1..] == [];
    assert p(a) && p(b) && !p(c);
    assert Filter([c], p) == [];
    assert Filter([b, c], p) == [b];
    assert Filter([a, b, c], p) == [a, b];
  }

  /** Two rows tied at the best score both rank 1, and the next score ranks 3. */
  lemma TieExample(a: Row, b: Row, c: Row)
    requires a.score == Some(90.0) && b.score == Some(90.0) && c.score == Some(88.0)
    ensures MinRank([a, b, c], 90.0) == 1 && MinRank([a, b, c], 88.0) == 3
  {
    var ctx := [a, b, c];
    assert a in ctx && c in ctx;
    assert forall r :: r in ctx ==> r.score == Some(90.0) || r.score == Some(88.0);
    MinRankOfBest(ctx, 90.0);
    MinRankJump(ctx, 90.0, 88.0);
    TieGroupSize(a, b, c);
  }

  // ---------------------------------------------------------------------
  // Position rank
  // ---------------------------------------------------------------------

  /** `set_index("Country / Territory").loc[c, "index"]`: position of c. */
  function IndexOfCountry(s: seq<Row>, c: string): (k: nat)
    requires HasCountryRow(s, c)
    ensures k < |s| && s[k].country == c
    ensures forall i :: 0 <= i < k ==> s[i].country != c
  {
    if s[0].country == c then 0
    else
      assert HasCountryRow(s[1..], c) by {
        var r :| r in s && r.country == c;
        assert s == [s[0]] + s[1..];
      }
      1 + IndexOfCountry(s[1..], c)
  }

  /** The ranks a row with this score can get as a 1-based position in a
      descending sort of ctx (missing scores last), whatever the order of
      tied rows: after everything strictly better and within its tie
      group; a row without a score comes after every scored row. */
  predicate WithinTieBounds(ctx: seq<Row>, score: Option<real>, rank: int) {
    match score
    case Some(v) => 1 + Count(ctx, Greater(v)) <= rank <= Count(ctx, AtLeast(v))
    case None => Count(ctx, IsScored()) < rank <= |ctx|
  }

  /** Any descending sort of ctx puts a country that occurs once in ctx at
      a position within its tie bounds. */
  lemma PositionRankBounds(ctx: seq<Row>, order: seq<Row>, t: Row)
    requires multiset(order) == multiset(ctx)
    requires SortedBy(true, order)
    requires t in ctx
    requires Count(ctx, HasCountry(t.country)) <= 1
    ensures t in order
    ensures WithinTieBounds(ctx, t.score, 1 + IndexOfCountry(order, t.country))
  {
    assert t in multiset(ctx);
    assert t in order;
    assert |order| == |multiset(order)| == |multiset(ctx)| == |ctx|;
    var k := IndexOfCountry(order, t.country);
    FilterPerm(order, ctx, HasCountry(t.country));
    CountAtMostOne(order, HasCountry(t.country), order[k], t);
    SortedPositionBounds(order, k);
    match t.score
    case Some(v) =>
      FilterPerm(order, ctx, Greater(v));
      FilterPerm(order, ctx, AtLeast(v));
    case None =>
      FilterPerm(order, ctx, IsScored());
  }

  /** In a descending sort the row at position k (0-based) is within the
      tie bounds of its own score. */
  lemma SortedPositionBounds(order: seq<Row>, k: nat)
    requires SortedBy(true, order) && k < |order|
    ensures WithinTieBounds(order, order[k].score, k + 1)
  {
    match order[k].score
    case Some(v) =>
      forall i | k <= i < |order| ensures !Greater(v)(order[i]) {
        if i > k { assert Precedes(true, order[k], order[i]); }
      }
      CountSuffixNone(order, k, Greater(v));
      forall i | 0 <= i < k + 1 ensures AtLeast(v)(order[i]) {
        if i < k { assert Precedes(true, order[i], order[k]); }
      }
      CountPrefixAll(order, k + 1, AtLeast(v));
    case None =>
      forall i | k <= i < |order| ensures !IsScored()(order[i]) {
        if i > k { assert Precedes(true, order[k], order[i]); }
      }
      CountSuffixNone(order, k, IsScored());
      assert |Filter(order, IsScored())| <= |order|;
  }

  /** A position rank lies inside the tie group of its score: between the
      group's minimum rank and that rank plus the group's size minus one;
      for an untied score the two kinds of rank coincide. */
  lemma PositionWithinTieGroup(ctx: seq<Row>, v: real, rank: int)
    requires HasScore(ctx, v)
    requires WithinTieBounds(ctx, Some(v), rank)
    ensures MinRank(ctx, v) <= rank < MinRank(ctx, v) + Count(ctx, Equal(v))
    ensures Count(ctx, Equal(v)) == 1 ==> rank == MinRank(ctx, v)
  {
    CountSplit(ctx, AtLeast(v), Greater(v), Equal(v));
  }

  // ---------------------------------------------------------------------
  // World and region rank of one country
  // ---------------------------------------------------------------------

  datatype Ranks = Ranks(worldRank: nat, worldTotal: nat, regionRank: nat, regionTotal: nat)

  /** What the source's `.loc[country, "index"]` lookups need: the country
      has a row in the year, only one, and that row has a region. */
  predicate Rankable(df: seq<Row>, country: string, year: int) {
    && HasRow(df, country, year)
    && Count(Filter(df, IsYear(year)), HasCountry(country)) <= 1
    && TargetRow(df, country, year).region.Some?
  }

  lemma RegionalBounds(yearRows: seq<Row>, t: Row, g: string)
    requires t in yearRows && t.region == Some(g)
    requires Count(yearRows, HasCountry(t.country)) <= 1
    ensures var world := SortBy(true, yearRows);
            var regional := Filter(world, InRegion(g));
            && t in world && t in regional
            && WithinTieBounds(yearRows, t.score, 1 + IndexOfCountry(world, t.country))
            && WithinTieBounds(Filter(yearRows, InRegion(g)), t.score, 1 + IndexOfCountry(regional, t.country))
            && |regional| == |Filter(yearRows, InRegion(g))|
            && SortedBy(true, regional)
            && multiset(regional) == multiset(Filter(yearRows, InRegion(g)))
  {
    var world := SortBy(true, yearRows);
    var regional := Filter(world, InRegion(g));
    var ctx := Filter(yearRows, InRegion(g));
    PositionRankBounds(yearRows, world, t);
    FilterSorted(true, world, InRegion(g));
    FilterPerm(world, yearRows, InRegion(g));
    CountFilterFilter(yearRows, HasCountry(t.country), InRegion(g));
    assert t in ctx;
    PositionRankBounds(ctx, regional, t);
  }

  /** What the KPI panels promise of their rank figures: both totals count
      every row of the scope, scored or not, both ranks are positions a
      descending sort of that scope may give the target row, and the region
      is part of the world. */
  predicate RanksFit(df: seq<Row>, country: string, year: int, k: Ranks)
    requires Rankable(df, country, year)
  {
    var t := TargetRow(df, country, year);
    var yearRows := Filter(df, IsYear(year));
    var regionRows := Filter(yearRows, InRegion(t.region.value));
    && k.worldTotal == |yearRows|
    && k.regionTotal == |regionRows|
    && WithinTieBounds(yearRows, t.score, k.worldRank)
    && WithinTieBounds(regionRows, t.score, k.regionRank)
    && 1 <= k.worldRank <= k.worldTotal
    && 1 <= k.regionRank <= k.regionTotal <= k.worldTotal
  }

  /** The world and region rank of `single_country_kpi_panel` and
      `kpi_panel_row`: positions after a descending sort of the year's rows
      and of the target's region within them. */
  function RankFigures(df: seq<Row>, country: string, year: int): (k: Ranks)
    requires Rankable(df, country, year)
    ensures RanksFit(df, country, year, k)
  {
    var t := TargetRow(df, country, year);
    var yearRows := Filter(df, IsYear(year));
    var world := SortBy(true, yearRows);
    var regional := Filter(world, InRegion(t.region.value));
    assert t in yearRows;
    RegionalBounds(yearRows, t, t.region.value);
    assert |world| == |multiset(world)| == |multiset(yearRows)| == |yearRows|;
    Ranks(1 + IndexOfCountry(world, country), |world|, 1 + IndexOfCountry(regional, country), |regional|)
  }
}
