/**
 Latency figures of internal/jobstore/model_stats.go: the average and the nearest-rank 95th
 percentile of a list of milliseconds. Samples are exact reals.
 */
module Percentile {
  import opened GoStrings

  // Rounds to the nearest integer, halves away from zero.
  function Round(x: real): int {
    if x >= 0.0 then (x + 0.5).Floor else -((-x + 0.5).Floor)
  }

  ghost predicate Sorted(s: seq<real>) {
    forall i, j :: 0 <= i < j < |s| ==> s[i] <= s[j]
  }

  // How many samples are at most v.
  function AtMost(s: seq<real>, v: real): nat {
    if s == [] then 0 else AtMost(s[..|s| - 1], v) + if s[|s| - 1] <= v then 1 else 0
  }

  lemma {:induction false} AtMostConcat(s: seq<real>, t: seq<real>, v: real)
    ensures AtMost(s + t, v) == AtMost(s, v) + AtMost(t, v)
  {
    if t == [] {
      assert s + t == s;
    } else {
      assert (s + t)[..|s + t| - 1] == s + t[..|t| - 1];
      AtMostConcat(s, t[..|t| - 1], v);
    }
  }

  // Where x goes in a sorted list: after everything at most x.
  function Place(s: seq<real>, x: real): (i: nat)
    ensures i <= |s|
    ensures i > 0 ==> s[i - 1] <= x
    ensures forall k :: i <= k < |s| ==> s[k] > x
  {
    if s == [] || s[|s| - 1] <= x then |s| else Place(s[..|s| - 1], x)
  }

  function Insert(s: seq<real>, x: real): seq<real> {
    s[..Place(s, x)] + [x] + s[Place(s, x)..]
  }

  function SortedOf(s: seq<real>): (t: seq<real>)
    ensures |t| == |s|
  {
    if s == [] then [] else Insert(SortedOf(s[..|s| - 1]), s[|s| - 1])
  }

  lemma InsertSorts(s: seq<real>, x: real)
    requires Sorted(s)
    ensures Sorted(Insert(s, x))
  {
  }

  lemma InsertKeeps(s: seq<real>, x: real, v: real)
    ensures multiset(Insert(s, x)) == multiset(s) + multiset{x}
    ensures AtMost(Insert(s, x), v) == AtMost(s, v) + if x <= v then 1 else 0
  {
    hide Place;
    var i := Place(s, x);
    assert multiset(s) == multiset(s[..i]) + multiset(s[i..]) by { assert s == s[..i] + s[i..]; }
    assert AtMost(s, v) == AtMost(s[..i], v) + AtMost(s[i..], v) by {
      assert s == s[..i] + s[i..];
      AtMostConcat(s[..i], s[i..], v);
    }
    AtMostConcat(s[..i] + [x], s[i..], v);
    AtMostConcat(s[..i], [x], v);
    assert AtMost([x], v) == if x <= v then 1 else 0;
  }

  lemma SortedOfLast(s: seq<real>, v: real)
    requires s != []
    ensures SortedOf(s) == Insert(SortedOf(s[..|s| - 1]), s[|s| - 1])
    ensures AtMost(s, v) == AtMost(s[..|s| - 1], v) + if s[|s| - 1] <= v then 1 else 0
  {
    hide Insert;
  }

  lemma {:induction false} SortedOfPermutes(s: seq<real>)
    ensures multiset(SortedOf(s)) == multiset(s)
  {
    hide *;
    if s == [] {
      NothingToSort();
    } else {
      var before, x := s[..|s| - 1], s[|s| - 1];
      SortedOfPermutes(before);
      SortedOfLast(s, x);
      InsertKeeps(SortedOf(before), x, x);
      assert s == before + [x];
    }
  }

  lemma NothingToSort()
    ensures SortedOf([]) == []
  {
  }

  // Sorting sorts, and does not change how many samples are at most v.
  lemma {:induction false} SortedOfSorts(s: seq<real>, v: real)
    ensures Sorted(SortedOf(s))
    ensures AtMost(SortedOf(s), v) == AtMost(s, v)
  {
    if s != [] {
      hide Insert, Sorted, SortedOf, AtMost;
      var before, x := s[..|s| - 1], s[|s| - 1];
      SortedOfSorts(before, v);
      SortedOfLast(s, v);
      InsertSorts(SortedOf(before), x);
      InsertKeeps(SortedOf(before), x, v);
    }
  }

  lemma SortedOfNext(s: seq<real>, i: nat)
    requires i < |s|
    ensures SortedOf(s[..i + 1]) == Insert(SortedOf(s[..i]), s[i])
  {
    assert s[..i + 1][..i] == s[..i];
  }

  // sort.Float64s, in place.
  method SortFloat64s(a: array<real>)
    modifies a
    ensures a[..] == SortedOf(old(a[..]))
  {
    hide Place, SortedOf;
    ghost var was := a[..];
    assert SortedOf([]) == [];
    for i := 0 to a.Length
      invariant a[..i] == SortedOf(was[..i]) && a[i..] == was[i..]
    {
      var x := a[i];
      assert x == a[i..][0] == was[i] && a[i + 1..] == a[i..][1..];
      var at := MakeRoom(a, i, x);
      SortedOfNext(was, i);
      assert a[i + 1..] == was[i..][1..] == was[i + 1..];
    }
    assert a[..] == a[..a.Length] && was == was[..a.Length];
  }

  lemma PlaceStep(s: seq<real>, at: nat, x: real)
    requires at <= |s|
    ensures at > 0 && s[at - 1] > x ==> Place(s[..at], x) == Place(s[..at - 1], x)
    ensures at == 0 || s[at - 1] <= x ==> Place(s[..at], x) == at
  {
    if at > 0 {
      assert s[..at][..at - 1] == s[..at - 1];
    }
  }

  // Shifts the larger ones of the first i samples by one place and puts x before them.
  method MakeRoom(a: array<real>, i: nat, x: real) returns (at: nat)
    requires i < a.Length
    modifies a
    ensures at == Place(old(a[..i]), x)
    ensures a[..i + 1] == old(a[..i])[..at] + [x] + old(a[..i])[at..]
    ensures a[i + 1..] == old(a[i + 1..])
  {
    hide Place;
    ghost var s, rest := a[..i], a[i + 1..];
    at := i;
    assert s[..i] == s;
    while at > 0 && a[at - 1] > x
      invariant at <= i && a[..at] == s[..at] && a[at + 1..i + 1] == s[at..] && a[i + 1..] == rest
      invariant Place(s[..at], x) == Place(s, x)
    {
      assert a[at - 1] == a[..at][at - 1] == s[at - 1];
      PlaceStep(s, at, x);
      Shift(a, at, i, s);
      at := at - 1;
    }
    assert at > 0 ==> a[at - 1] == a[..at][at - 1] == s[at - 1];
    PlaceStep(s, at, x);
    a[at] := x;
    assert a[..i + 1] == a[..at] + [x] + a[at + 1..i + 1];
  }

  // Moves one sample of s up into the gap at.
  method Shift(a: array<real>, at: nat, i: nat, ghost s: seq<real>)
    requires 0 < at <= i < a.Length && |s| == i
    requires a[..at] == s[..at] && a[at + 1..i + 1] == s[at..]
    modifies a
    ensures a[..at - 1] == s[..at - 1] && a[at..i + 1] == s[at - 1..] && a[i + 1..] == old(a[i + 1..])
  {
    assert a[at - 1] == a[..at][at - 1] == s[at - 1];
    a[at] := a[at - 1];
    assert a[at..i + 1] == [s[at - 1]] + s[at..];
    assert a[..at - 1] == a[..at][..at - 1];
  }

  // The position of the nearest rank for 95 percent of n samples: the ceiling of 19n/20, less one.
  function RankIndex(n: nat): int {
    (19 * n + 19) / 20 - 1
  }

  ghost function P95(lat: seq<real>): Option<int> {
    if |lat| < 5 then None else Some(Round(SortedOf(lat)[RankIndex(|lat|)]))
  }

  // Sorts a copy: the caller's list is not modified.
  method Percentile95MS(lat: array<real>) returns (r: Option<int>)
    ensures r == P95(lat[..])
  {
    var n: int := lat.Length;
    if n < 5 {
      return None;
    }
    var cp := new real[n](i requires 0 <= i < lat.Length reads lat => lat[i]);
    assert cp[..] == lat[..];
    SortFloat64s(cp);
    var idx := (19 * n + 19) / 20 - 1;
    if idx < 0 {
      idx := 0;
    }
    if idx >= n {
      idx := n - 1;
    }
    assert cp[idx] == cp[..][idx];
    return Some(Round(cp[idx]));
  }

  lemma {:induction false} AtMostInSorted(s: seq<real>, i: nat, v: real)
    requires Sorted(s) && i <= |s|
    requires (forall k :: 0 <= k < i ==> s[k] <= v) && forall k :: i <= k < |s| ==> s[k] > v
    ensures AtMost(s, v) == i
  {
    if s != [] {
      var n := |s| - 1;
      if i == |s| {
        AtMostInSorted(s[..n], n, v);
      } else {
        AtMostInSorted(s[..n], i, v);
      }
    }
  }

  // Below position i there are at most i of the smaller samples, and at least i + 1 up to it.
  lemma AtMostAround(s: seq<real>, i: nat, w: real)
    requires Sorted(s) && i < |s|
    ensures AtMost(s, s[i]) >= i + 1
    ensures w < s[i] ==> AtMost(s, w) <= i
  {
    var p := Place(s, s[i]);
    AtMostInSorted(s, p, s[i]);
    if w < s[i] {
      var q := Place(s, w);
      AtMostInSorted(s, q, w);
    }
  }

  /**
   The percentile is nearest-rank: the value that is rounded is a sample, at least 95 percent
   of the samples are at most it, and no smaller value has that many.
   */
  lemma {:induction false} P95IsNearestRank(lat: seq<real>) returns (x: real)
    requires |lat| >= 5
    ensures x in lat && P95(lat) == Some(Round(x))
    ensures 20 * AtMost(lat, x) >= 19 * |lat|
    ensures forall w :: w < x ==> 20 * AtMost(lat, w) < 19 * |lat|
  {
    var i := RankIndex(|lat|);
    x := SortedOf(lat)[i];
    SortedOfSorts(lat, x);
    SortedOfPermutes(lat);
    assert x in multiset(SortedOf(lat));
    AtMostAround(SortedOf(lat), i, x);
    forall w | w < x
      ensures 20 * AtMost(lat, w) < 19 * |lat|
    {
      SortedOfSorts(lat, w);
      AtMostAround(SortedOf(lat), i, w);
    }
  }

  function Total(lat: seq<real>): real {
    if lat == [] then 0.0 else Total(lat[..|lat| - 1]) + lat[|lat| - 1]
  }

  function Average(lat: seq<real>): Option<int> {
    if lat == [] then None else Some(Round(Total(lat) / |lat| as real))
  }

  method AvgFloat(lat: array<real>) returns (r: Option<int>)
    ensures r == Average(lat[..])
  {
    if lat.Length == 0 {
      return None;
    }
    var s := 0.0;
    for i := 0 to lat.Length
      invariant s == Total(lat[..i])
    {
      assert lat[..i + 1][..i] == lat[..i];
      s := s + lat[i];
    }
    assert lat[..lat.Length] == lat[..];
    return Some(Round(s / lat.Length as real));
  }

  lemma {:induction false} TotalWithin(lat: seq<real>, lo: real, hi: real)
    requires forall i :: 0 <= i < |lat| ==> lo <= lat[i] <= hi
    ensures |lat| as real * lo <= Total(lat) <= |lat| as real * hi
  {
    if lat != [] {
      TotalWithin(lat[..|lat| - 1], lo, hi);
    }
  }

  lemma Quotient(t: real, n: real, lo: real, hi: real)
    requires n > 0.0 && n * lo <= t <= n * hi
    ensures lo <= t / n <= hi
  {
    var q := t / n;
    assert q * n == t;
    Scaled(q, lo, n);
    Scaled(hi, q, n);
  }

  lemma Scaled(a: real, b: real, n: real)
    requires n > 0.0
    ensures a < b ==> n * a < n * b
  {
  }

  lemma RoundKeepsOrder(x: real, y: real)
    requires x <= y
    ensures Round(x) <= Round(y)
  {
  }

  // Rounding keeps order, so the average lies between the rounded extremes.
  lemma AverageWithin(lat: seq<real>, lo: real, hi: real)
    requires lat != [] && forall i :: 0 <= i < |lat| ==> lo <= lat[i] <= hi
    ensures Round(lo) <= Average(lat).value <= Round(hi)
  {
    TotalWithin(lat, lo, hi);
    Quotient(Total(lat), |lat| as real, lo, hi);
    RoundKeepsOrder(lo, Total(lat) / |lat| as real);
    RoundKeepsOrder(Total(lat) / |lat| as real, hi);
  }
}
