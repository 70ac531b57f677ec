/** Sorting and medians as the probes use them (sort.Ints, medianInt in
    server/internal/service/target_service.go). */
module Median {

  predicate Sorted(s: seq<int>) {
    forall i, j :: 0 <= i <= j < |s| ==> s[i] <= s[j]
  }

  function Insert(s: seq<int>, x: int): (r: seq<int>)
    ensures |r| == |s| + 1
  {
    if s == [] then [x]
    else if s[|s| - 1] <= x then s + [x]
    else Insert(s[..|s| - 1], x) + [s[|s| - 1]]
  }

  function Sort(s: seq<int>): (r: seq<int>)
    ensures |r| == |s|
  {
    if s == [] then [] else Insert(Sort(s[..|s| - 1]), s[|s| - 1])
  }

  /** How many values satisfy p. */
  function Count(s: seq<int>, p: int -> bool): (n: nat)
    ensures n <= |s|
  {
    if s == [] then 0 else Count(s[..|s| - 1], p) + if p(s[|s| - 1]) then 1 else 0
  }

  lemma {:induction false} CountConcat(a: seq<int>, b: seq<int>, p: int -> bool)
    ensures Count(a + b, p) == Count(a, p) + Count(b, p)
  {
    if b == [] {
      assert a + b == a;
    } else {
      assert (a + b)[..|a + b| - 1] == a + b[..|b| - 1];
      CountConcat(a, b[..|b| - 1], p);
    }
  }

  lemma CountOne(x: int, p: int -> bool)
    ensures Count([x], p) == if p(x) then 1 else 0
  {
    assert [x][..0] == [];
  }

  lemma {:induction false} InsertKeeps(s: seq<int>, x: int, y: int)
    ensures y in Insert(s, x) <==> y == x || y in s
  {
    if s != [] {
      assert s == s[..|s| - 1] + [s[|s| - 1]];
      if s[|s| - 1] > x {
        InsertKeeps(s[..|s| - 1], x, y);
      }
    }
  }

  lemma {:induction false} InsertSorts(s: seq<int>, x: int)
    requires Sorted(s)
    ensures Sorted(Insert(s, x))
  {
    if s != [] && s[|s| - 1] > x {
      var before := s[..|s| - 1];
      InsertSorts(before, x);
      forall i | 0 <= i < |s| ensures Insert(before, x)[i] <= s[|s| - 1] {
        InsertKeeps(before, x, Insert(before, x)[i]);
      }
    }
  }

  lemma {:induction false} InsertCounts(s: seq<int>, x: int, p: int -> bool)
    ensures Count(Insert(s, x), p) == Count(s, p) + if p(x) then 1 else 0
  {
    CountOne(x, p);
    if s != [] && s[|s| - 1] > x {
      InsertCounts(s[..|s| - 1], x, p);
      CountConcat(Insert(s[..|s| - 1], x), [s[|s| - 1]], p);
      CountOne(s[|s| - 1], p);
    } else {
      CountConcat(s, [x], p);
      assert s == [] ==> s + [x] == [x];
    }
  }

  lemma {:induction false} SortSorts(s: seq<int>)
    ensures Sorted(Sort(s))
  {
    if s != [] {
      SortSorts(s[..|s| - 1]);
      InsertSorts(Sort(s[..|s| - 1]), s[|s| - 1]);
    }
  }

  lemma {:induction false} SortKeeps(s: seq<int>, y: int)
    ensures y in Sort(s) <==> y in s
  {
    if s != [] {
      var before := s[..|s| - 1];
      SortKeeps(before, y);
      InsertKeeps(Sort(before), s[|s| - 1], y);
      assert s == before + [s[|s| - 1]];
    }
  }

  /** Sorting is a permutation: every count is kept. */
  lemma {:induction false} SortCounts(s: seq<int>, p: int -> bool)
    ensures Count(Sort(s), p) == Count(s, p)
  {
    if s != [] {
      SortCounts(s[..|s| - 1], p);
      InsertCounts(Sort(s[..|s| - 1]), s[|s| - 1], p);
    }
  }

  /** medianInt: the upper median, 0 for no values. */
  function MedianInt(s: seq<int>): int {
    if s == [] then 0 else Sort(s)[|s| / 2]
  }

  function AtMost(m: int): int -> bool {
    x => x <= m
  }

  function AtLeast(m: int): int -> bool {
    x => x >= m
  }

  lemma {:induction false} CountAll(s: seq<int>, p: int -> bool)
    requires forall i :: 0 <= i < |s| ==> p(s[i])
    ensures Count(s, p) == |s|
  {
    if s != [] {
      CountAll(s[..|s| - 1], p);
    }
  }

  /** A stretch of values that all satisfy p is counted in full. */
  lemma CountStretch(s: seq<int>, p: int -> bool, from: nat, to: nat)
    requires from <= to <= |s| && forall i :: from <= i < to ==> p(s[i])
    ensures Count(s, p) >= to - from
  {
    var a, b := s[..from], s[from..to];
    assert s[..to] == a + b;
    assert s == s[..to] + s[to..];
    CountConcat(s[..to], s[to..], p);
    CountConcat(a, b, p);
    forall i | 0 <= i < |b| ensures p(b[i]) {
      assert b[i] == s[from + i];
    }
    CountAll(b, p);
  }

  /** Main result: a median is one of the values; more than half of them are at most it and at least half
      of them are at least it. */
  lemma {:induction false} MedianIsMiddle(s: seq<int>)
    requires s != []
    ensures MedianInt(s) in s
    ensures 2 * Count(s, AtMost(MedianInt(s))) > |s|
    ensures 2 * Count(s, AtLeast(MedianInt(s))) >= |s|
  {
    var sorted, k, m := Sort(s), |s| / 2, MedianInt(s);
    SortSorts(s);
    SortKeeps(s, sorted[k]);
    SortCounts(s, AtMost(m));
    SortCounts(s, AtLeast(m));
    CountStretch(sorted, AtMost(m), 0, k + 1);
    CountStretch(sorted, AtLeast(m), k, |s|);
  }

  /** The ends of a sorted list are its extremes. */
  lemma SortedEnds(s: seq<int>)
    requires s != []
    ensures Sort(s)[0] in s && Sort(s)[|s| - 1] in s
    ensures forall i :: 0 <= i < |s| ==> Sort(s)[0] <= s[i] <= Sort(s)[|s| - 1]
  {
    SortSorts(s);
    SortKeeps(s, Sort(s)[0]);
    SortKeeps(s, Sort(s)[|s| - 1]);
    forall i | 0 <= i < |s| ensures Sort(s)[0] <= s[i] <= Sort(s)[|s| - 1] {
      SortKeeps(s, s[i]);
    }
  }
}
