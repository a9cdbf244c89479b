/** Generic list computations the pages build on: JavaScript's
    `filter`, `map`, `slice(0, n)` and the stable `sort` by a numeric key. */
module Seqs {

  /** `s.filter(p)`: the elements of s that satisfy p, in their original order. */
  function Filter<T>(s: seq<T>, p: T -> bool): (r: seq<T>)
    ensures |r| <= |s|
    ensures forall i :: 0 <= i < |r| ==> p(r[i])
  {
    if s == [] then [] else (if p(s[0]) then [s[0]] else []) + Filter(s[1..], p)
  }

  /** `s.filter(p).length` */
  function Count<T>(s: seq<T>, p: T -> bool): nat
  {
    |Filter(s, p)|
  }

  /** `s.map(f)` */
  function Map<T, U>(s: seq<T>, f: T -> U): (r: seq<U>)
    ensures |r| == |s|
    ensures forall i :: 0 <= i < |s| ==> r[i] == f(s[i])
  {
    seq(|s|, i requires 0 <= i < |s| => f(s[i]))
  }

  /** `s.slice(0, n)` */
  function Take<T>(s: seq<T>, n: nat): (r: seq<T>)
    ensures |r| == if n < |s| then n else |s|
    ensures r == s[..|r|]
  {
    if n < |s| then s[..n] else s
  }

  /** Ascending by key. */
  ghost predicate SortedBy<T>(s: seq<T>, key: T -> int)
  {
    forall i, j :: 0 <= i < j < |s| ==> key(s[i]) <= key(s[j])
  }

  /** a is obtained from b by deleting some elements. */
  ghost predicate IsSubsequence<T>(a: seq<T>, b: seq<T>)
    decreases |b|
  {
    a == [] || (b != [] && ((a[0] == b[0] && IsSubsequence(a[1..], b[1..])) || IsSubsequence(a, b[1..])))
  }

  /** Puts x in front of the first element whose key is not smaller. */
  function Insert<T>(x: T, s: seq<T>, key: T -> int): seq<T>
  {
    if s == [] || key(x) <= key(s[0]) then [x] + s else [s[0]] + Insert(x, s[1..], key)
  }

  /** `s.sort((a, b) => key(a) - key(b))` on a copy. ECMAScript requires
      `sort` to be stable; insertion of each element in front of the equal
      keys already placed (which came later in s) keeps that order. */
  function SortBy<T>(s: seq<T>, key: T -> int): seq<T>
  {
    if s == [] then [] else Insert(s[0], SortBy(s[1..], key), key)
  }

  lemma FilterCons<T>(s: seq<T>, p: T -> bool)
    requires s != []
    ensures Filter(s, p) == if p(s[0]) then [s[0]] + Filter(s[1..], p) else Filter(s[1..], p)
  {
  }

  /** An element whose key is not above the head's goes in front. */
  lemma CountCons<T>(s: seq<T>, p: T -> bool)
    requires s != []
    ensures Count(s, p) == (if p(s[0]) then 1 else 0) + Count(s[1..], p)
  {
    FilterCons(s, p);
  }

  lemma InsertFront<T>(x: T, s: seq<T>, key: T -> int)
    requires s == [] || key(x) <= key(s[0])
    ensures Insert(x, s, key) == [x] + s
  {
  }

  lemma {:induction false} FilterCounts<T>(s: seq<T>, p: T -> bool)
    ensures forall x :: multiset(Filter(s, p))[x] == if p(x) then multiset(s)[x] else 0
  {
    if s != [] {
      FilterCounts(s[1..], p);
      assert s == [s[0]] + s[1..];
    }
  }

  lemma FilterMembership<T>(s: seq<T>, p: T -> bool)
    ensures forall x :: x in Filter(s, p) <==> x in s && p(x)
  {
    FilterCounts(s, p);
    forall x
      ensures x in Filter(s, p) <==> x in s && p(x)
    {
      assert x in Filter(s, p) <==> x in multiset(Filter(s, p));
      assert x in s <==> x in multiset(s);
    }
  }

  lemma {:induction false} FilterAppend<T>(a: seq<T>, b: seq<T>, p: T -> bool)
    ensures Filter(a + b, p) == Filter(a, p) + Filter(b, p)
  {
    if a != [] {
      assert (a + b)[0] == a[0];
      assert (a + b)[1..] == a[1..] + b;
      FilterAppend(a[1..], b, p);
      var h := if p(a[0]) then [a[0]] else [];
      assert Filter(a + b, p) == h + Filter(a[1..] + b, p);
    } else {
      assert a + b == b;
    }
  }

  /** Filtering by a predicate that every element already satisfies is the identity. */
  lemma {:induction false} FilterAll<T>(s: seq<T>, p: T -> bool)
    requires forall i :: 0 <= i < |s| ==> p(s[i])
    ensures Filter(s, p) == s
  {
    if s != [] {
      FilterAll(s[1..], p);
    }
  }

  /** Filtering by a predicate that no element satisfies empties the list. */
  lemma {:induction false} FilterNone<T>(s: seq<T>, p: T -> bool)
    requires forall i :: 0 <= i < |s| ==> !p(s[i])
    ensures Filter(s, p) == []
  {
    if s != [] {
      FilterNone(s[1..], p);
    }
  }

  /** Two filters in a row are one filter by the conjunction. */
  lemma {:induction false} FilterFilter<T>(s: seq<T>, p: T -> bool, q: T -> bool, pq: T -> bool)
    requires forall i :: 0 <= i < |s| ==> pq(s[i]) == (p(s[i]) && q(s[i]))
    ensures Filter(Filter(s, p), q) == Filter(s, pq)
  {
    if s != [] {
      FilterFilter(s[1..], p, q, pq);
      if p(s[0]) {
        assert Filter(s, p) == [s[0]] + Filter(s[1..], p);
        assert Filter(s, p)[0] == s[0];
        assert Filter(s, p)[1..] == Filter(s[1..], p);
      } else {
        assert Filter(s, p) == Filter(s[1..], p);
      }
    }
  }

  /** Every element counted once: by p or by its negation. */
  lemma {:induction false} CountSplit<T>(s: seq<T>, p: T -> bool, notP: T -> bool)
    requires forall i :: 0 <= i < |s| ==> notP(s[i]) == !p(s[i])
    ensures Count(s, p) + Count(s, notP) == |s|
  {
    if s != [] {
      CountSplit(s[1..], p, notP);
    }
  }

  lemma {:induction false} FilterIsSubsequence<T>(s: seq<T>, p: T -> bool)
    ensures IsSubsequence(Filter(s, p), s)
  {
    if s != [] {
      FilterIsSubsequence(s[1..], p);
      if p(s[0]) {
        assert Filter(s, p) == [s[0]] + Filter(s[1..], p);
        assert Filter(s, p)[0] == s[0];
        assert Filter(s, p)[1..] == Filter(s[1..], p);
      } else {
        assert Filter(s, p) == Filter(s[1..], p);
      }
    }
  }

  /** Strictly ascending by key. */
  ghost predicate StrictlyIncreasing<T>(s: seq<T>, key: T -> int)
  {
    forall i, j :: 0 <= i < j < |s| ==> key(s[i]) < key(s[j])
  }

  /** A filter keeps a strictly ascending list strictly ascending. */
  lemma {:induction false} FilterIncreasing<T>(s: seq<T>, p: T -> bool, key: T -> int)
    requires StrictlyIncreasing(s, key)
    ensures StrictlyIncreasing(Filter(s, p), key)
  {
    if s != [] {
      FilterIncreasing(s[1..], p, key);
      FilterCons(s, p);
      if p(s[0]) {
        var t := Filter(s[1..], p);
        FilterAbove(s[1..], p, key, key(s[0]));
        var r := [s[0]] + t;
        forall i, j | 0 <= i < j < |r|
          ensures key(r[i]) < key(r[j])
        {
          assert r[j] == t[j - 1];
          if i > 0 {
            assert r[i] == t[i - 1];
          }
        }
      }
    }
  }

  /** Keys above a bound stay above it after a filter. */
  lemma {:induction false} FilterAbove<T>(s: seq<T>, p: T -> bool, key: T -> int, bound: int)
    requires forall i :: 0 <= i < |s| ==> bound < key(s[i])
    ensures forall i :: 0 <= i < |Filter(s, p)| ==> bound < key(Filter(s, p)[i])
  {
    if s != [] {
      FilterAbove(s[1..], p, key, bound);
      FilterCons(s, p);
    }
  }

  lemma {:induction false} InsertCounts<T>(x: T, s: seq<T>, key: T -> int)
    ensures multiset(Insert(x, s, key)) == multiset(s) + multiset{x}
  {
    if s != [] && key(x) > key(s[0]) {
      InsertCounts(x, s[1..], key);
      assert s == [s[0]] + s[1..];
    }
  }

  lemma {:induction false} InsertSorted<T>(x: T, s: seq<T>, key: T -> int)
    requires SortedBy(s, key)
    ensures SortedBy(Insert(x, s, key), key)
    ensures |Insert(x, s, key)| == |s| + 1
    ensures Insert(x, s, key)[0] == x || (s != [] && Insert(x, s, key)[0] == s[0])
  {
    if s != [] && key(x) > key(s[0]) {
      InsertSorted(x, s[1..], key);
    }
  }

  /** The sorted copy is ascending and is a permutation of the input. */
  lemma {:induction false} SortByCorrect<T>(s: seq<T>, key: T -> int)
    ensures SortedBy(SortBy(s, key), key)
    ensures multiset(SortBy(s, key)) == multiset(s)
    ensures |SortBy(s, key)| == |s|
  {
    if s != [] {
      SortByCorrect(s[1..], key);
      InsertSorted(s[0], SortBy(s[1..], key), key);
      InsertCounts(s[0], SortBy(s[1..], key), key);
      assert s == [s[0]] + s[1..];
    }
  }

  /** Sorting a list that is already in order changes nothing. */
  lemma {:induction false} SortBySorted<T>(s: seq<T>, key: T -> int)
    requires SortedBy(s, key)
    ensures SortBy(s, key) == s
  {
    if s != [] {
      SortBySorted(s[1..], key);
      InsertFront(s[0], s[1..], key);
      assert [s[0]] + s[1..] == s;
    }
  }

  /** Inserting an element whose key lies strictly above every key of `low`
      and not above the head of `high` puts it between the two. */
  lemma {:induction false} InsertBetween<T>(x: T, low: seq<T>, high: seq<T>, key: T -> int)
    requires forall i :: 0 <= i < |low| ==> key(low[i]) < key(x)
    requires high == [] || key(x) <= key(high[0])
    ensures Insert(x, low + high, key) == low + ([x] + high)
  {
    if low == [] {
      assert low + high == high;
      assert low + ([x] + high) == [x] + high;
    } else {
      var t := low + high;
      assert t[0] == low[0];
      assert t[1..] == low[1..] + high;
      InsertBetween(x, low[1..], high, key);
      assert Insert(x, t, key) == [low[0]] + (low[1..] + ([x] + high));
      assert [low[0]] + (low[1..] + ([x] + high)) == low + ([x] + high);
    }
  }

  /** Stability: the elements sharing any one key `k` (those picked out by
      `sameKey`) come out of the sort in the order they had in s. */
  lemma {:induction false} SortByStable<T>(s: seq<T>, key: T -> int, k: int, sameKey: T -> bool)
    requires forall x :: sameKey(x) == (key(x) == k)
    ensures Filter(SortBy(s, key), sameKey) == Filter(s, sameKey)
  {
    if s != [] {
      SortByStable(s[1..], key, k, sameKey);
      InsertKeepsKeyClass(s[0], SortBy(s[1..], key), key, k, sameKey);
      FilterCons(s, sameKey);
    }
  }

  /** Insertion puts x in front of every element with x's key, so within one
      key class it only adds x at the front. */
  lemma {:induction false} InsertKeepsKeyClass<T>(x: T, t: seq<T>, key: T -> int, k: int, sameKey: T -> bool)
    requires forall y :: sameKey(y) == (key(y) == k)
    ensures Filter(Insert(x, t, key), sameKey)
         == if sameKey(x) then [x] + Filter(t, sameKey) else Filter(t, sameKey)
  {
    if t == [] || key(x) <= key(t[0]) {
      FilterCons([x] + t, sameKey);
      assert ([x] + t)[1..] == t;
    } else {
      InsertKeepsKeyClass(x, t[1..], key, k, sameKey);
      var u := [t[0]] + Insert(x, t[1..], key);
      FilterCons(u, sameKey);
      assert u[1..] == Insert(x, t[1..], key);
      FilterCons(t, sameKey);
    }
  }

  /** Sorting stably by a key that is 0 on p and 1 elsewhere is the stable
      partition: the elements satisfying p in their order, then the others in theirs. */
  lemma {:induction false} SortByTwoValuedKey<T>(s: seq<T>, key: T -> int, p: T -> bool, notP: T -> bool)
    requires forall x :: key(x) == if p(x) then 0 else 1
    requires forall x :: notP(x) == !p(x)
    ensures SortBy(s, key) == Filter(s, p) + Filter(s, notP)
  {
    if s != [] {
      SortByTwoValuedKey(s[1..], key, p, notP);
      PartitionStep(s[0], Filter(s[1..], p), Filter(s[1..], notP), key, p, notP);
      FilterCons(s, p);
      FilterCons(s, notP);
    }
  }

  lemma PartitionStep<T>(x: T, low: seq<T>, high: seq<T>, key: T -> int, p: T -> bool, notP: T -> bool)
    requires forall x :: key(x) == if p(x) then 0 else 1
    requires forall x :: notP(x) == !p(x)
    requires forall i :: 0 <= i < |low| ==> p(low[i])
    requires forall i :: 0 <= i < |high| ==> notP(high[i])
    ensures p(x) ==> Insert(x, low + high, key) == ([x] + low) + high
    ensures !p(x) ==> Insert(x, low + high, key) == low + ([x] + high)
  {
    if p(x) {
      var t := low + high;
      assert t == [] || key(x) <= key(t[0]);
      InsertFront(x, t, key);
      assert [x] + t == ([x] + low) + high;
    } else {
      LowKeys(x, low, key, p);
      if high != [] {
        assert notP(high[0]);
      }
      InsertBetween(x, low, high, key);
    }
  }

  lemma LowKeys<T>(x: T, low: seq<T>, key: T -> int, p: T -> bool)
    requires forall x :: key(x) == if p(x) then 0 else 1
    requires forall i :: 0 <= i < |low| ==> p(low[i])
    requires !p(x)
    ensures forall i :: 0 <= i < |low| ==> key(low[i]) < key(x)
  {
  }

  /** The first n elements of a sorted permutation of s are the n smallest:
      no element left out has a smaller key than one that was taken. */
  lemma SortedPrefixIsSmallest<T>(s: seq<T>, key: T -> int, n: nat)
    ensures var t := Take(SortBy(s, key), n);
      && multiset(t) <= multiset(s)
      && |t| == (if n < |s| then n else |s|)
      && forall x, y :: x in multiset(s) - multiset(t) && y in t ==> key(y) <= key(x)
  {
    var srt := SortBy(s, key);
    SortByCorrect(s, key);
    var t := Take(srt, n);
    var rest := srt[|t|..];
    assert srt == t + rest;
    assert multiset(srt) == multiset(t) + multiset(rest);
    forall x, y | x in multiset(s) - multiset(t) && y in t
      ensures key(y) <= key(x)
    {
      assert x in multiset(rest);
      assert x in rest;
      var j :| 0 <= j < |rest| && rest[j] == x;
      var i :| 0 <= i < |t| && t[i] == y;
      assert srt[|t| + j] == x && srt[i] == y;
    }
  }
}
