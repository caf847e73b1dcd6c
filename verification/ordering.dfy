/** Sequence helpers: order-preserving filtering (a boolean mask), the
    sorted, de-duplicated index pandas builds for a group-by key, a stable
    descending sort, an ascending sort of integers and pandas' `head`. */
module Ordering {

  /** `r` can be obtained from `s` by deleting elements (greedy leftmost match). */
  predicate IsSubseq<T(==)>(r: seq<T>, s: seq<T>) {
    |r| == 0 || (|s| > 0 && if r[0] == s[0] then IsSubseq(r[1..], s[1..]) else IsSubseq(r, s[1..]))
  }

  /** Keep the elements satisfying `p`, in their original order (a boolean mask). */
  function Filter<T(==)>(p: T -> bool, s: seq<T>): (r: seq<T>)
    ensures IsSubseq(r, s) && |r| <= |s|
    ensures forall i :: 0 <= i < |r| ==> p(r[i]) && r[i] in s
  {
    if |s| == 0 then []
    else
      var rest := Filter(p, s[1..]);
      assert s == [s[0]] + s[1..];
      if p(s[0]) then [s[0]] + rest
      else
        assert |rest| > 0 ==> rest[0] != s[0];
        rest
  }

  /** A filter keeps every element satisfying the predicate, as often as it
      occurs, and (by the postcondition of `Filter`) no other. */
  lemma {:induction false} FilterKeeps<T>(p: T -> bool, s: seq<T>)
    ensures forall x :: x in s && p(x) ==> multiset(Filter(p, s))[x] == multiset(s)[x]
    ensures forall x :: x in s && p(x) ==> x in Filter(p, s)
  {
    if |s| > 0 {
      FilterKeeps(p, s[1..]);
      var rest := Filter(p, s[1..]);
      assert s == [s[0]] + s[1..];
      forall x | x in s && p(x) ensures multiset(Filter(p, s))[x] == multiset(s)[x] {
        if x !in s[1..] {
          assert x !in rest;
        }
      }
      forall x | x in s && p(x) ensures x in Filter(p, s) {
        assert x in multiset(s);
      }
    }
  }

  /** Filtering `s` filters its first element, then the rest. */
  lemma FilterCons<T>(p: T -> bool, s: seq<T>)
    requires |s| > 0
    ensures Filter(p, s) == Kept(p, s[0]) + Filter(p, s[1..])
  {
    if !p(s[0]) {
      assert Kept(p, s[0]) + Filter(p, s[1..]) == Filter(p, s[1..]);
    }
  }

  /** Filtering a four-element sequence, spelled out element by element. */
  lemma FilterFour<T>(p: T -> bool, s: seq<T>)
    requires |s| == 4
    ensures Filter(p, s) == (if p(s[0]) then [s[0]] else []) + (if p(s[1]) then [s[1]] else [])
                          + (if p(s[2]) then [s[2]] else []) + (if p(s[3]) then [s[3]] else [])
  {
    FilterKeptFour(p, s);
  }

  lemma FilterKeptFour<T>(p: T -> bool, s: seq<T>)
    requires |s| == 4
    ensures Filter(p, s) == Kept(p, s[0]) + Kept(p, s[1]) + Kept(p, s[2]) + Kept(p, s[3])
  {
    var k0, k1, k2, k3 := Kept(p, s[0]), Kept(p, s[1]), Kept(p, s[2]), Kept(p, s[3]);
    assert Filter(p, s[3..]) == k3 by {
      FilterCons(p, s[3..]);
      assert s[3..][1..] == [];
    }
    assert Filter(p, s[2..]) == k2 + k3 by {
      FilterCons(p, s[2..]);
      assert s[2..][1..] == s[3..];
    }
    assert Filter(p, s[1..]) == k1 + (k2 + k3) by {
      FilterCons(p, s[1..]);
      assert s[1..][1..] == s[2..];
    }
    assert Filter(p, s) == k0 + (k1 + (k2 + k3)) by {
      FilterCons(p, s);
    }
    ConcatAssoc(k0, k1, k2 + k3);
    ConcatAssoc(k0 + k1, k2, k3);
  }

  /** What filtering keeps of one element. */
  function Kept<T>(p: T -> bool, x: T): seq<T> {
    if p(x) then [x] else []
  }

  lemma ConcatAssoc<T>(a: seq<T>, b: seq<T>, c: seq<T>)
    ensures a + (b + c) == a + b + c
  {
  }

  ghost predicate StrictTotalOrder<T(!new)>(lt: (T, T) -> bool) {
    && (forall x :: !lt(x, x))
    && (forall x, y, z :: lt(x, y) && lt(y, z) ==> lt(x, z))
    && (forall x, y :: x != y ==> lt(x, y) || lt(y, x))
  }

  /** Strictly increasing, hence free of duplicates. */
  predicate StrictlySorted<T>(lt: (T, T) -> bool, s: seq<T>) {
    forall i, j :: 0 <= i < j < |s| ==> lt(s[i], s[j])
  }

  /** Insert `x` into a strictly sorted sequence unless it is already there. */
  function InsertUnique<T(==,!new)>(lt: (T, T) -> bool, x: T, s: seq<T>): (r: seq<T>)
    requires StrictTotalOrder(lt)
    requires StrictlySorted(lt, s)
    ensures StrictlySorted(lt, r)
    ensures forall y :: y in r <==> y == x || y in s
  {
    if |s| == 0 then [x]
    else if x == s[0] then s
    else if lt(x, s[0]) then [x] + s
    else
      var rest := InsertUnique(lt, x, s[1..]);
      assert forall y :: y in s <==> y == s[0] || y in s[1..];
      assert forall y :: y in rest ==> lt(s[0], y);
      [s[0]] + rest
  }

  /** The distinct elements of `xs` in increasing order (a group-by index). */
  function SortedUnique<T(==,!new)>(lt: (T, T) -> bool, xs: seq<T>): (r: seq<T>)
    requires StrictTotalOrder(lt)
    ensures StrictlySorted(lt, r)
    ensures forall y :: y in r <==> y in xs
  {
    if |xs| == 0 then []
    else
      var r := InsertUnique(lt, xs[|xs| - 1], SortedUnique(lt, xs[..|xs| - 1]));
      assert xs == xs[..|xs| - 1] + [xs[|xs| - 1]];
      r
  }

  /** Non-increasing by `key`. */
  predicate Descending<T>(key: T -> real, s: seq<T>) {
    forall i, j :: 0 <= i < j < |s| ==> key(s[i]) >= key(s[j])
  }

  /** Place `x` before the first element whose key is not larger, so that
      among equal keys `x` precedes the elements already there. */
  function InsertDesc<T(==)>(key: T -> real, x: T, s: seq<T>): (r: seq<T>)
    requires Descending(key, s)
    ensures Descending(key, r)
    ensures multiset(r) == multiset(s) + multiset{x}
    ensures |r| == |s| + 1 && (r[0] == x || (|s| > 0 && r[0] == s[0]))
  {
    if |s| == 0 || key(s[0]) <= key(x) then
      DescendingCons(key, x, s);
      [x] + s
    else
      var rest := InsertDesc(key, x, s[1..]);
      assert multiset([s[0]] + rest) == multiset(s) + multiset{x} by {
        assert s == [s[0]] + s[1..];
      }
      assert key(s[0]) >= key(rest[0]) by {
        if rest[0] != x { assert rest[0] == s[1]; }
      }
      DescendingCons(key, s[0], rest);
      [s[0]] + rest
  }

  /** An element no smaller than the head of a descending sequence extends it. */
  lemma DescendingCons<T>(key: T -> real, y: T, s: seq<T>)
    requires Descending(key, s)
    requires |s| > 0 ==> key(y) >= key(s[0])
    ensures Descending(key, [y] + s)
  {
    forall i, j | 0 <= i < j < |s| + 1 ensures key(([y] + s)[i]) >= key(([y] + s)[j]) {
      if i == 0 { assert key(s[0]) >= key(s[j - 1]); }
    }
  }

  /** Stable sort by `key`, largest first. */
  function SortDesc<T(==)>(key: T -> real, xs: seq<T>): (r: seq<T>)
    ensures Descending(key, r)
    ensures multiset(r) == multiset(xs)
  {
    if |xs| == 0 then []
    else
      assert xs == [xs[0]] + xs[1..];
      InsertDesc(key, xs[0], SortDesc(key, xs[1..]))
  }

  predicate Ascending(s: seq<int>) {
    forall i, j :: 0 <= i < j < |s| ==> s[i] <= s[j]
  }

  function InsertAsc(x: int, s: seq<int>): (r: seq<int>)
    requires Ascending(s)
    ensures Ascending(r)
    ensures multiset(r) == multiset(s) + multiset{x}
    ensures |r| == |s| + 1 && (r[0] == x || (|s| > 0 && r[0] == s[0]))
  {
    if |s| == 0 || x <= s[0] then
      AscendingCons(x, s);
      [x] + s
    else
      var rest := InsertAsc(x, s[1..]);
      assert multiset([s[0]] + rest) == multiset(s) + multiset{x} by {
        assert s == [s[0]] + s[1..];
      }
      assert s[0] <= rest[0] by {
        if rest[0] != x { assert rest[0] == s[1]; }
      }
      AscendingCons(s[0], rest);
      [s[0]] + rest
  }

  /** An element no larger than the head of an ascending sequence extends it. */
  lemma AscendingCons(y: int, s: seq<int>)
    requires Ascending(s)
    requires |s| > 0 ==> y <= s[0]
    ensures Ascending([y] + s)
  {
    forall i, j | 0 <= i < j < |s| + 1 ensures ([y] + s)[i] <= ([y] + s)[j] {
      if i == 0 { assert s[0] <= s[j - 1]; }
    }
  }

  /** Python `sorted` on a list of integers: duplicates are kept. */
  function SortAsc(xs: seq<int>): (r: seq<int>)
    ensures Ascending(r)
    ensures multiset(r) == multiset(xs)
  {
    if |xs| == 0 then []
    else
      assert xs == [xs[0]] + xs[1..];
      InsertAsc(xs[0], SortAsc(xs[1..]))
  }

  /** pandas `head(n)`: the first `n` rows, or all but the last `-n` rows when `n` is negative. */
  function Head<T>(s: seq<T>, n: int): (r: seq<T>)
    ensures r <= s
    ensures n >= 0 ==> |r| == if n < |s| then n else |s|
    ensures n < 0 ==> |r| == if -n < |s| then |s| + n else 0
  {
    if n >= 0 then (if n < |s| then s[..n] else s)
    else if -n < |s| then s[..|s| + n]
    else []
  }

  /** A prefix holds no element more often than the whole sequence. */
  lemma PrefixMultiset<T>(p: seq<T>, s: seq<T>)
    requires p <= s
    ensures multiset(p) <= multiset(s)
  {
    assert s == p + s[|p|..];
  }

  /** No element occurs twice. */
  predicate Distinct<T(==)>(s: seq<T>) {
    forall i, j :: 0 <= i < j < |s| ==> s[i] != s[j]
  }

  /** In a duplicate-free sequence every element occurs at most once. */
  lemma {:induction false} DistinctOnce<T>(s: seq<T>, x: T)
    requires Distinct(s)
    ensures multiset(s)[x] <= 1
  {
    if |s| > 0 {
      assert s == [s[0]] + s[1..];
      assert Distinct(s[1..]) by {
        forall i, j | 0 <= i < j < |s[1..]| ensures s[1..][i] != s[1..][j] {
          assert s[1..][i] == s[i + 1] && s[1..][j] == s[j + 1];
        }
      }
      DistinctOnce(s[1..], x);
      if x == s[0] {
        assert forall k :: 0 <= k < |s[1..]| ==> s[1..][k] != x;
        assert x !in s[1..];
      }
    }
  }

  /** An element at two positions occurs at least twice. */
  lemma TwiceCounted<T>(s: seq<T>, i: int, j: int)
    requires 0 <= i < j < |s| && s[i] == s[j]
    ensures multiset(s)[s[i]] >= 2
  {
    assert s == s[..i] + [s[i]] + s[i + 1..];
    assert s[i + 1..][j - i - 1] == s[j];
    assert s[i] in multiset(s[i + 1..]);
  }

  /** Drawing from a duplicate-free sequence, no more often than it holds each
      element, gives a duplicate-free sequence. */
  lemma SubMultisetDistinct<T>(a: seq<T>, b: seq<T>)
    requires multiset(a) <= multiset(b) && Distinct(b)
    ensures Distinct(a)
  {
    forall i, j | 0 <= i < j < |a| ensures a[i] != a[j] {
      if a[i] == a[j] {
        TwiceCounted(a, i, j);
        DistinctOnce(b, a[i]);
        assert false;
      }
    }
  }

  /** The set of elements of a list, as Python's `set(...)`. */
  function Elems<T>(xs: seq<T>): set<T> {
    set x | x in xs
  }

  /** A sequence has at least as many positions as distinct elements. */
  lemma {:induction false} DistinctElementsBound<T>(xs: seq<T>)
    ensures |Elems(xs)| <= |xs|
  {
    if |xs| > 0 {
      var init := xs[..|xs| - 1];
      DistinctElementsBound(init);
      assert Elems(xs) == Elems(init) + {xs[|xs| - 1]} by {
        assert xs == init + [xs[|xs| - 1]];
      }
    }
  }

  /** The first element kept by a filter is the first element satisfying the
      predicate (pandas `iloc[0]` after a mask). */
  lemma {:induction false} FilterFirst<T>(p: T -> bool, s: seq<T>) returns (i: nat)
    requires |Filter(p, s)| > 0
    ensures i < |s| && p(s[i]) && Filter(p, s)[0] == s[i]
    ensures forall j :: 0 <= j < i ==> !p(s[j])
  {
    if p(s[0]) {
      i := 0;
    } else {
      var k := FilterFirst(p, s[1..]);
      i := k + 1;
      assert forall j :: 1 <= j < i ==> s[j] == s[1..][j - 1];
    }
  }

  /** The distinct elements of `xs` in order of first appearance (pandas `unique`). */
  function Unique<T(==,!new)>(xs: seq<T>): (r: seq<T>)
    ensures forall x :: x in r <==> x in xs
    ensures forall i, j :: 0 <= i < j < |r| ==> r[i] != r[j]
  {
    if |xs| == 0 then []
    else
      var init := Unique(xs[..|xs| - 1]);
      assert xs == xs[..|xs| - 1] + [xs[|xs| - 1]];
      if xs[|xs| - 1] in init then init else init + [xs[|xs| - 1]]
  }

  lemma SubsetCardinality(a: set<int>, b: set<int>)
    requires a <= b
    ensures |a| <= |b|
  {
    assert b == a + (b - a);
    assert a * (b - a) == {};
  }
}
