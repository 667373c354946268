/** `sort_values("CPI score", ascending=...)` and `head(n)`. pandas puts
    rows with a missing score last in both directions and, with its default
    quicksort, leaves the order of tied rows unspecified; `SortBy` is one of
    the admissible orders, and every property the dashboards rely on is
    stated for any sequence that is `SortedBy` and a permutation. */
module Sorting {
  import opened Table

  /** Row x may stand before row y in a sort by score, descending when desc. */
  predicate Precedes(desc: bool, x: Row, y: Row) {
    y.score.None? ||
    (x.score.Some? && (if desc then x.score.value >= y.score.value else x.score.value <= y.score.value))
  }

  predicate SortedBy(desc: bool, s: seq<Row>) {
    forall i, j :: 0 <= i < j < |s| ==> Precedes(desc, s[i], s[j])
  }

  lemma PrecedesTotal(desc: bool, x: Row, y: Row)
    ensures Precedes(desc, x, y) || Precedes(desc, y, x)
  {
  }

  /** A row that may precede every row of a sorted sequence may head it. */
  lemma SortedCons(desc: bool, x: Row, s: seq<Row>)
    requires SortedBy(desc, s)
    requires forall z :: z in s ==> Precedes(desc, x, z)
    ensures SortedBy(desc, [x] + s)
  {
    var t := [x] + s;
    forall i, j | 0 <= i < j < |t| ensures Precedes(desc, t[i], t[j]) {
      if i == 0 {
        assert t[j] == s[j - 1];
      } else {
        assert t[i] == s[i - 1] && t[j] == s[j - 1];
      }
    }
  }

  /** Inserts x before the first row it may precede. */
  function Insert(desc: bool, x: Row, s: seq<Row>): (r: seq<Row>)
    requires SortedBy(desc, s)
    ensures SortedBy(desc, r)
    ensures multiset(r) == multiset(s) + multiset{x}
    ensures forall z :: z in r ==> z == x || z in s
  {
    if s == [] then [x]
    else if Precedes(desc, x, s[0]) then
      assert forall z :: z in s ==> Precedes(desc, x, z) by {
        forall z | z in s ensures Precedes(desc, x, z) {
          var j :| 0 <= j < |s| && s[j] == z;
          if j > 0 { assert Precedes(desc, s[0], s[j]); }
        }
      }
      SortedCons(desc, x, s);
      [x] + s
    else
      var rest := Insert(desc, x, s[1..]);
      assert s == [s[0]] + s[1..];
      PrecedesTotal(desc, x, s[0]);
      assert forall z :: z in rest ==> Precedes(desc, s[0], z) by {
        forall z | z in rest ensures Precedes(desc, s[0], z) {
          if z != x {
            var j :| 0 <= j < |s[1..]| && s[1..][j] == z;
            assert s[j + 1] == z;
          }
        }
      }
      SortedCons(desc, s[0], rest);
      [s[0]] + rest
  }

  /** The rows of s ordered by score (descending when desc), missing scores last. */
  function SortBy(desc: bool, s: seq<Row>): (r: seq<Row>)
    ensures SortedBy(desc, r)
    ensures multiset(r) == multiset(s)
  {
    if s == [] then []
    else
      assert s == [s[0]] + s[1..];
      Insert(desc, s[0], SortBy(desc, s[1..]))
  }

  /** `head(n)`: the first n rows, or all of them when there are fewer. */
  function Head<T>(s: seq<T>, n: nat): (r: seq<T>)
    ensures |r| == if n <= |s| then n else |s|
    ensures r == s[..|r|]
  {
    if n <= |s| then s[..n] else s
  }

  /** What `head(n)` leaves out is never better than what it keeps. */
  ghost predicate KeepsBest(desc: bool, whole: seq<Row>, kept: seq<Row>) {
    forall x, y :: x in multiset(whole) - multiset(kept) && y in kept ==> Precedes(desc, y, x)
  }

  /** Masking a sorted sequence leaves it sorted. */
  lemma {:induction false} FilterSorted(desc: bool, s: seq<Row>, p: Row -> bool)
    requires SortedBy(desc, s)
    ensures SortedBy(desc, Filter(s, p))
  {
    if s != [] {
      FilterSorted(desc, s[1..], p);
      if p(s[0]) {
        assert Filter(s, p) == [s[0]] + Filter(s[1..], p);
        forall z | z in Filter(s[1..], p) ensures Precedes(desc, s[0], z) {
          var j :| 0 <= j < |s[1..]| && s[1..][j] == z;
          assert s[j + 1] == z;
        }
        SortedCons(desc, s[0], Filter(s[1..], p));
      }
    }
  }

  /** The first n rows of a sorted sequence are sorted, come from it, and are its best rows. */
  lemma HeadOfSorted(desc: bool, s: seq<Row>, n: nat)
    requires SortedBy(desc, s)
    ensures SortedBy(desc, Head(s, n))
    ensures multiset(Head(s, n)) <= multiset(s)
    ensures KeepsBest(desc, s, Head(s, n))
  {
    var h := Head(s, n);
    var k := |h|;
    assert s == h + s[k..];
    assert multiset(s) - multiset(h) == multiset(s[k..]);
    SortedSplit(desc, s, k);
  }

  /** In a sorted sequence every row of a prefix may precede every row after it. */
  lemma SortedSplit(desc: bool, s: seq<Row>, k: nat)
    requires SortedBy(desc, s) && k <= |s|
    ensures forall x, y :: x in s[k..] && y in s[..k] ==> Precedes(desc, y, x)
  {
    forall x, y | x in s[k..] && y in s[..k] ensures Precedes(desc, y, x) {
      var j :| 0 <= j < |s[k..]| && s[k..][j] == x;
      var i :| 0 <= i < k && s[..k][i] == y;
      assert s[i] == y && s[k + j] == x;
    }
  }
}
