/** `sorted(column.dropna().unique())` for the country column (Python
    compares strings by code point, which is how Dafny orders `char`) and
    the sorted distinct keys `groupby("Year")` produces. */
module Distinct {

  /** Python's `a < b` on strings: lexicographic by code point. */
  predicate StrLess(a: string, b: string)
    decreases |a|
  {
    |b| > 0 && (|a| == 0 || a[0] < b[0] || (a[0] == b[0] && StrLess(a[1..], b[1..])))
  }

  lemma {:induction false} StrLessTotal(a: string, b: string)
    ensures a == b || StrLess(a, b) || StrLess(b, a)
    decreases |a|
  {
    if |a| > 0 && |b| > 0 && a[0] == b[0] {
      StrLessTotal(a[1..], b[1..]);
      if a[1..] == b[1..] {
        assert a == [a[0]] + a[1..] && b == [b[0]] + b[1..];
      }
    }
  }

  lemma {:induction false} StrLessIrreflexive(a: string)
    ensures !StrLess(a, a)
    decreases |a|
  {
    if |a| > 0 {
      StrLessIrreflexive(a[1..]);
    }
  }

  predicate StrictlySortedStrings(s: seq<string>) {
    forall i, j :: 0 <= i < j < |s| ==> StrLess(s[i], s[j])
  }

  predicate StrictlySortedInts(s: seq<int>) {
    forall i, j :: 0 <= i < j < |s| ==> s[i] < s[j]
  }

  function InsertString(x: string, s: seq<string>): (r: seq<string>)
    requires StrictlySortedStrings(s)
    ensures StrictlySortedStrings(r)
    ensures forall z :: z in r <==> z == x || z in s
  {
    if s == [] then [x]
    else if x == s[0] then s
    else if StrLess(x, s[0]) then
      assert forall j :: 0 < j < |s| ==> StrLess(s[0], s[j]);
      StrLessChain(x, s);
      [x] + s
    else
      StrLessTotal(x, s[0]);
      var rest := InsertString(x, s[1..]);
      assert forall z :: z in rest ==> StrLess(s[0], z) by {
        forall z | z in rest ensures StrLess(s[0], z) {
          if z != x {
            var j :| 0 <= j < |s[1..]| && s[1..][j] == z;
            assert s[j + 1] == z;
          }
        }
      }
      var r := [s[0]] + rest;
      assert forall i, j :: 0 <= i < j < |r| ==> StrLess(r[i], r[j]) by {
        forall i, j | 0 <= i < j < |r| ensures StrLess(r[i], r[j]) {
          assert r[j] == rest[j - 1] && rest[j - 1] in rest;
          if i > 0 { assert r[i] == rest[i - 1] && StrLess(rest[i - 1], rest[j - 1]); }
        }
      }
      assert s == [s[0]] + s[1..];
      r
  }

  /** A string below the head of a strictly sorted sequence is below all of it. */
  lemma StrLessChain(x: string, s: seq<string>)
    requires StrictlySortedStrings(s) && |s| > 0 && StrLess(x, s[0])
    ensures StrictlySortedStrings([x] + s)
  {
    var r := [x] + s;
    forall i, j | 0 <= i < j < |r| ensures StrLess(r[i], r[j]) {
      assert r[j] == s[j - 1];
      if i == 0 {
        if j > 1 { StrLessTrans(x, s[0], s[j - 1]); }
      } else {
        assert r[i] == s[i - 1];
      }
    }
  }

  lemma {:induction false} StrLessTrans(a: string, b: string, c: string)
    requires StrLess(a, b) && StrLess(b, c)
    ensures StrLess(a, c)
    decreases |a|
  {
    if |a| > 0 && a[0] == b[0] && b[0] == c[0] {
      StrLessTrans(a[1..], b[1..], c[1..]);
    }
  }

  /** The distinct strings of xs in ascending order. */
  function SortedUniqueStrings(xs: seq<string>): (r: seq<string>)
    ensures StrictlySortedStrings(r)
    ensures forall z :: z in r <==> z in xs
  {
    if xs == [] then [] else InsertString(xs[0], SortedUniqueStrings(xs[1..]))
  }

  function InsertInt(x: int, s: seq<int>): (r: seq<int>)
    requires StrictlySortedInts(s)
    ensures StrictlySortedInts(r)
    ensures forall z :: z in r <==> z == x || z in s
  {
    if s == [] then [x]
    else if x == s[0] then s
    else if x < s[0] then [x] + s
    else
      var rest := InsertInt(x, s[1..]);
      assert forall z :: z in rest ==> s[0] < z by {
        forall z | z in rest ensures s[0] < z {
          if z != x {
            var j :| 0 <= j < |s[1..]| && s[1..][j] == z;
            assert s[j + 1] == z;
          }
        }
      }
      IntConsSorted(s[0], rest);
      assert s == [s[0]] + s[1..];
      [s[0]] + rest
  }

  /** An integer below every element of a strictly ascending sequence may head it. */
  lemma IntConsSorted(x: int, s: seq<int>)
    requires StrictlySortedInts(s)
    requires forall z :: z in s ==> x < z
    ensures StrictlySortedInts([x] + s)
  {
    var r := [x] + s;
    forall i, j | 0 <= i < j < |r| ensures r[i] < r[j] {
      assert r[j] == s[j - 1] && s[j - 1] in s;
      if i > 0 { assert r[i] == s[i - 1]; }
    }
  }

  /** The distinct integers of xs in ascending order. */
  function SortedUniqueInts(xs: seq<int>): (r: seq<int>)
    ensures StrictlySortedInts(r)
    ensures forall z :: z in r <==> z in xs
  {
    if xs == [] then [] else InsertInt(xs[0], SortedUniqueInts(xs[1..]))
  }
}
