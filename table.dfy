/** The CPI table: one row per (country, year) observation, and the row
    filters every view of the dashboard is built from (a pandas boolean
    mask `df[mask]` keeps the matching rows in their original order). */
module Table {

  datatype Option<T> = None | Some(value: T)

  /** One observation. A missing region or score (NaN in the CSV) is None. */
  datatype Row = Row(country: string, iso3: string, region: Option<string>, score: Option<real>, year: int)

  /** The display names both dashboards give to the region codes. */
  const RegionNames: map<string, string> := map[
    "WE/EU" := "Western Europe / European Union",
    "AP" := "Asia Pacific",
    "AME" := "Americas",
    "SSA" := "Sub-Saharan Africa",
    "MENA" := "Middle East & North Africa",
    "ECA" := "Eastern Europe & Central Asia"
  ]

  /** `region_names.get(code, code)`: an unknown code is shown as it is. */
  function RegionName(code: string): string {
    if code in RegionNames then RegionNames[code] else code
  }

  // ---------------------------------------------------------------------
  // Masks
  // ---------------------------------------------------------------------

  /** The rows a mask keeps, in their original order. */
  function Filter<T(!new)>(s: seq<T>, p: T -> bool): (r: seq<T>)
    ensures |r| <= |s|
    ensures forall x :: x in r <==> x in s && p(x)
  {
    if s == [] then []
    else if p(s[0]) then [s[0]] + Filter(s[1..], p)
    else Filter(s[1..], p)
  }

  /** The number of rows a mask keeps. */
  function Count<T(!new)>(s: seq<T>, p: T -> bool): nat {
    |Filter(s, p)|
  }

  function IsYear(y: int): Row -> bool { (r: Row) => r.year == y }
  function HasCountry(c: string): Row -> bool { (r: Row) => r.country == c }
  function InCountries(cs: seq<string>): Row -> bool { (r: Row) => r.country in cs }
  /** `df["Region"] == g`: a missing region equals no code. */
  function InRegion(g: string): Row -> bool { (r: Row) => r.region == Some(g) }
  function AtCountryYear(c: string, y: int): Row -> bool { (r: Row) => r.country == c && r.year == y }
  function IsScored(): Row -> bool { (r: Row) => r.score.Some? }

  /** Whether the table has a row for this country in this year. */
  predicate HasRow(df: seq<Row>, c: string, y: int) {
    exists r :: r in df && r.country == c && r.year == y
  }

  /** Whether the table has a row for this country, in any year. */
  predicate HasCountryRow(df: seq<Row>, c: string) {
    exists r :: r in df && r.country == c
  }

  /** `row.iloc[0]` of `df[(country == c) & (year == y)]`. */
  function TargetRow(df: seq<Row>, c: string, y: int): (t: Row)
    requires HasRow(df, c, y)
    ensures t in df && t.country == c && t.year == y
  {
    var m := Filter(df, AtCountryYear(c, y));
    var r :| r in df && r.country == c && r.year == y;
    assert r in m;
    m[0]
  }

  // ---------------------------------------------------------------------
  // Facts about masks
  // ---------------------------------------------------------------------

  /** A mask distributes over concatenation: it keeps the original order. */
  lemma {:induction false} FilterAppend<T(!new)>(a: seq<T>, b: seq<T>, p: T -> bool)
    ensures Filter(a + b, p) == Filter(a, p) + Filter(b, p)
  {
    if a == [] {
      assert a + b == b;
    } else {
      assert (a + b)[1..] == a[1..] + b;
      FilterAppend(a[1..], b, p);
    }
  }

  /** A mask keeps every copy of a matching row and no copy of another. */
  lemma {:induction false} FilterMultiplicity<T(!new)>(s: seq<T>, p: T -> bool, x: T)
    ensures multiset(Filter(s, p))[x] == if p(x) then multiset(s)[x] else 0
  {
    if s != [] {
      FilterMultiplicity(s[1..], p, x);
      assert s == [s[0]] + s[1..];
    }
  }

  /** What a mask keeps does not depend on the order of the rows. */
  lemma FilterPerm<T(!new)>(a: seq<T>, b: seq<T>, p: T -> bool)
    requires multiset(a) == multiset(b)
    ensures multiset(Filter(a, p)) == multiset(Filter(b, p))
    ensures Count(a, p) == Count(b, p)
  {
    forall x ensures multiset(Filter(a, p))[x] == multiset(Filter(b, p))[x] {
      FilterMultiplicity(a, p, x);
      FilterMultiplicity(b, p, x);
    }
    assert multiset(Filter(a, p)) == multiset(Filter(b, p));
    assert |multiset(Filter(a, p))| == |Filter(a, p)|;
  }

  /** A mask keeps a sub-multiset of the rows. */
  lemma FilterSub<T(!new)>(s: seq<T>, p: T -> bool)
    ensures multiset(Filter(s, p)) <= multiset(s)
  {
    forall x ensures multiset(Filter(s, p))[x] <= multiset(s)[x] {
      FilterMultiplicity(s, p, x);
    }
  }

  /** A mask every row satisfies keeps the whole sequence. */
  lemma {:induction false} FilterAll<T(!new)>(s: seq<T>, p: T -> bool)
    requires forall i :: 0 <= i < |s| ==> p(s[i])
    ensures Filter(s, p) == s
  {
    if s != [] {
      FilterAll(s[1..], p);
    }
  }

  /** A mask no row satisfies keeps nothing. */
  lemma {:induction false} FilterNone<T(!new)>(s: seq<T>, p: T -> bool)
    requires forall i :: 0 <= i < |s| ==> !p(s[i])
    ensures Filter(s, p) == []
  {
    if s != [] {
      FilterNone(s[1..], p);
    }
  }

  /** If the first k rows match, at least k rows match. */
  lemma CountPrefixAll<T(!new)>(s: seq<T>, k: nat, p: T -> bool)
    requires k <= |s|
    requires forall i :: 0 <= i < k ==> p(s[i])
    ensures Count(s, p) >= k
  {
    assert s == s[..k] + s[k..];
    FilterAppend(s[..k], s[k..], p);
    FilterAll(s[..k], p);
  }

  /** If no row from position k on matches, at most k rows match. */
  lemma CountSuffixNone<T(!new)>(s: seq<T>, k: nat, p: T -> bool)
    requires k <= |s|
    requires forall i :: k <= i < |s| ==> !p(s[i])
    ensures Count(s, p) <= k
  {
    assert s == s[..k] + s[k..];
    FilterAppend(s[..k], s[k..], p);
    FilterNone(s[k..], p);
  }

  /** A weaker mask keeps at least as many rows. */
  lemma {:induction false} CountImplies<T(!new)>(s: seq<T>, p: T -> bool, q: T -> bool)
    requires forall x :: x in s && p(x) ==> q(x)
    ensures Count(s, p) <= Count(s, q)
  {
    if s != [] {
      CountImplies(s[1..], p, q);
    }
  }

  /** A mask that is the disjoint union of two others counts their sum. */
  lemma {:induction false} CountSplit<T(!new)>(s: seq<T>, p: T -> bool, q: T -> bool, u: T -> bool)
    requires forall x :: x in s ==> (p(x) <==> q(x) || u(x)) && !(q(x) && u(x))
    ensures Count(s, p) == Count(s, q) + Count(s, u)
  {
    if s != [] {
      CountSplit(s[1..], p, q, u);
    }
  }

  /** Masking a masked sequence keeps no more than masking the whole. */
  lemma CountFilterFilter<T(!new)>(s: seq<T>, p: T -> bool, q: T -> bool)
    ensures Count(Filter(s, q), p) <= Count(s, p)
  {
    CountImplies(Filter(s, q), p, p);
    var inner := Filter(Filter(s, q), p);
    var outer := Filter(s, p);
    forall x ensures multiset(inner)[x] <= multiset(outer)[x] {
      FilterMultiplicity(Filter(s, q), p, x);
      FilterMultiplicity(s, q, x);
      FilterMultiplicity(s, p, x);
    }
    assert multiset(outer) == multiset(inner) + (multiset(outer) - multiset(inner));
    assert |multiset(inner)| == |inner| && |multiset(outer)| == |outer|;
  }

  /** Two masks that agree on every row keep the same rows. */
  lemma {:induction false} FilterEquiv<T(!new)>(s: seq<T>, p: T -> bool, q: T -> bool)
    requires forall x :: x in s ==> p(x) == q(x)
    ensures Filter(s, p) == Filter(s, q)
  {
    if s != [] {
      FilterEquiv(s[1..], p, q);
    }
  }

  function Both<T>(p: T -> bool, q: T -> bool): T -> bool { (x: T) => p(x) && q(x) }

  /** Masking twice is masking once with the conjunction, e.g.
      `dff_full_year[dff_full_year[...] == ...]` against one combined mask on df. */
  lemma {:induction false} FilterFilter<T(!new)>(s: seq<T>, p: T -> bool, q: T -> bool)
    ensures Filter(Filter(s, p), q) == Filter(s, Both(p, q))
  {
    if s != [] {
      FilterFilter(s[1..], p, q);
    }
  }

  /** A sequence in which at most one element matches holds only one matching value. */
  lemma CountAtMostOne<T(!new)>(s: seq<T>, p: T -> bool, x: T, y: T)
    requires Count(s, p) <= 1
    requires x in s && p(x) && y in s && p(y)
    ensures x == y
  {
    var f := Filter(s, p);
    assert x in f && y in f;
  }
}
