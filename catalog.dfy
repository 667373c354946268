/** The choices both dashboards offer: the sorted distinct countries of the
    table (`all_countries`) or of one region, the number of distinct
    countries a view shows (`nunique()`), and the latest year of the table. */
module Catalog {
  import opened Table
  import opened Distinct

  /** One dropdown entry `{"label": ..., "value": ...}`. */
  datatype Choice = Choice(caption: string, value: string)

  /** One entry per name, labelled by the name itself. */
  function Choices(cs: seq<string>): (os: seq<Choice>)
    ensures |os| == |cs|
    ensures forall i :: 0 <= i < |cs| ==> os[i] == Choice(cs[i], cs[i])
  {
    seq(|cs|, i requires 0 <= i < |cs| => Choice(cs[i], cs[i]))
  }

  /** Whether the dropdown offers this value. */
  predicate Offers(os: seq<Choice>, c: string) {
    exists i :: 0 <= i < |os| && os[i].value == c
  }

  lemma ChoicesOffer(cs: seq<string>, c: string)
    ensures Offers(Choices(cs), c) <==> c in cs
  {
    var os := Choices(cs);
    if c in cs {
      var i :| 0 <= i < |cs| && cs[i] == c;
      assert os[i].value == c;
    }
  }

  /** The `Country / Territory` column. */
  function CountryColumn(rows: seq<Row>): (cs: seq<string>)
    ensures |cs| == |rows|
    ensures forall i :: 0 <= i < |rows| ==> cs[i] == rows[i].country
  {
    seq(|rows|, i requires 0 <= i < |rows| => rows[i].country)
  }

  predicate HasRegionCountry(df: seq<Row>, g: string, c: string) {
    exists r :: r in df && r.country == c && r.region == Some(g)
  }

  lemma CountryColumnMembers(rows: seq<Row>, c: string)
    ensures c in CountryColumn(rows) <==> HasCountryRow(rows, c)
  {
    var cs := CountryColumn(rows);
    if c in cs {
      var i :| 0 <= i < |cs| && cs[i] == c;
      assert rows[i] in rows;
    }
    if HasCountryRow(rows, c) {
      var r :| r in rows && r.country == c;
      var i :| 0 <= i < |rows| && rows[i] == r;
      assert cs[i] == c;
    }
  }

  /** `sorted(df["Country / Territory"].dropna().unique())`. */
  function AllCountries(df: seq<Row>): (cs: seq<string>)
    ensures StrictlySortedStrings(cs)
    ensures forall c :: c in cs <==> HasCountryRow(df, c)
  {
    var cs := SortedUniqueStrings(CountryColumn(df));
    forall c ensures c in cs <==> HasCountryRow(df, c) {
      CountryColumnMembers(df, c);
    }
    cs
  }

  /** `sorted(df[df["Region"] == g]["Country / Territory"].dropna().unique())`:
      every country that has a row, in any year, with region g. */
  function RegionCountries(df: seq<Row>, g: string): (cs: seq<string>)
    ensures StrictlySortedStrings(cs)
    ensures forall c :: c in cs <==> HasRegionCountry(df, g, c)
  {
    var inRegion := Filter(df, InRegion(g));
    var cs := SortedUniqueStrings(CountryColumn(inRegion));
    forall c ensures c in cs <==> HasRegionCountry(df, g, c) {
      CountryColumnMembers(inRegion, c);
      if HasRegionCountry(df, g, c) {
        var r :| r in df && r.country == c && r.region == Some(g);
        assert r in inRegion;
      }
    }
    cs
  }

  // ---------------------------------------------------------------------
  // Number of distinct countries
  // ---------------------------------------------------------------------

  /** The set of countries of some rows. */
  function CountrySet(rows: seq<Row>): set<string> {
    set r | r in rows :: r.country
  }

  lemma {:induction false} DistinctCard(s: seq<string>)
    requires forall i, j :: 0 <= i < j < |s| ==> s[i] != s[j]
    ensures |set x | x in s| == |s|
  {
    if s != [] {
      DistinctCard(s[1..]);
      assert (set x | x in s) == {s[0]} + (set x | x in s[1..]);
      assert s[0] !in (set x | x in s[1..]);
    }
  }

  lemma {:induction false} SetCardAtMost(s: seq<string>)
    ensures |set x | x in s| <= |s|
  {
    if s != [] {
      SetCardAtMost(s[1..]);
      assert (set x | x in s) == {s[0]} + (set x | x in s[1..]);
    }
  }

  lemma StrictlySortedDistinct(s: seq<string>)
    requires StrictlySortedStrings(s)
    ensures forall i, j :: 0 <= i < j < |s| ==> s[i] != s[j]
  {
    forall i, j | 0 <= i < j < |s| ensures s[i] != s[j] {
      if s[i] == s[j] { StrLessIrreflexive(s[i]); }
    }
  }

  /** `dff["Country / Territory"].nunique()`: the number of distinct countries. */
  function CountryCount(rows: seq<Row>): (k: nat)
    ensures k == |CountrySet(rows)|
    ensures k <= |rows|
  {
    var cs := CountryColumn(rows);
    var u := SortedUniqueStrings(cs);
    StrictlySortedDistinct(u);
    DistinctCard(u);
    SetCardAtMost(cs);
    assert (set x | x in u) == (set x | x in cs);
    forall c ensures c in (set x | x in cs) <==> c in CountrySet(rows) {
      CountryColumnMembers(rows, c);
    }
    assert (set x | x in cs) == CountrySet(rows);
    |u|
  }

  /** No rows, no countries; some rows, at least one. */
  lemma CountryCountEmpty(rows: seq<Row>)
    ensures CountryCount(rows) == 0 <==> rows == []
  {
    if rows != [] {
      assert rows[0].country in CountrySet(rows);
    }
  }

  /** Rows of pairwise different countries are counted one by one. */
  lemma CountryCountDistinct(rows: seq<Row>)
    requires forall i, j :: 0 <= i < j < |rows| ==> rows[i].country != rows[j].country
    ensures CountryCount(rows) == |rows|
  {
    var cs := CountryColumn(rows);
    DistinctCard(cs);
    forall c ensures c in (set x | x in cs) <==> c in CountrySet(rows) {
      CountryColumnMembers(rows, c);
    }
    assert (set x | x in cs) == CountrySet(rows);
  }

  // ---------------------------------------------------------------------
  // Latest year
  // ---------------------------------------------------------------------

  /** `max(sorted(df["Year"].unique()))`; an empty table has none. */
  function LatestYear(df: seq<Row>): (y: int)
    requires |df| > 0
    ensures exists r :: r in df && r.year == y
    ensures forall r :: r in df ==> r.year <= y
  {
    if |df| == 1 then df[0].year
    else
      var rest := LatestYear(df[1..]);
      assert df == [df[0]] + df[1..];
      if df[0].year >= rest then df[0].year else rest
  }
}
