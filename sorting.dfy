/** `Array.prototype.sort` with a comparator, as the pages use it: a stable
    sort that puts `a` ahead of `b` exactly when `before(key(a), key(b))`.
    It is modelled here as insertion sort on values. */
module Sorting {
  import opened Seqs

  /** An order a comparator can describe: irreflexive and transitive. */
  ghost predicate StrictOrder<K(!new)>(before: (K, K) -> bool)
  {
    && (forall a :: !before(a, a))
    && (forall a, b, c :: before(a, b) && before(b, c) ==> before(a, c))
  }

  /** No element stands after one that it should come before. */
  predicate SortedBy<X, K>(s: seq<X>, key: X -> K, before: (K, K) -> bool)
  {
    forall i, j :: 0 <= i < j < |s| ==> !before(key(s[j]), key(s[i]))
  }

  /** `x` placed ahead of the first element it should come before. */
  function InsertBy<X, K>(x: X, s: seq<X>, key: X -> K, before: (K, K) -> bool): (r: seq<X>)
    ensures multiset(r) == multiset(s) + multiset{x}
    ensures |r| == |s| + 1
  {
    if s == [] then [x]
    else
      assert s == [s[0]] + s[1..];
      if before(key(x), key(s[0])) then [x] + s
      else [s[0]] + InsertBy(x, s[1..], key, before)
  }

  /** The sorted permutation of `s`; elements that neither comes before the other keep their order. */
  function SortBy<X, K>(s: seq<X>, key: X -> K, before: (K, K) -> bool): (r: seq<X>)
    ensures multiset(r) == multiset(s)
    ensures |r| == |s|
  {
    if s == [] then []
    else
      assert s == s[..|s| - 1] + [s[|s| - 1]];
      InsertBy(s[|s| - 1], SortBy(s[..|s| - 1], key, before), key, before)
  }

  lemma {:induction false} InsertBySorted<X, K(!new)>(x: X, s: seq<X>, key: X -> K, before: (K, K) -> bool)
    requires StrictOrder(before)
    requires SortedBy(s, key, before)
    ensures SortedBy(InsertBy(x, s, key, before), key, before)
    decreases |s|
  {
    if s == [] {
    } else if before(key(x), key(s[0])) {
      var r := [x] + s;
      forall i, j | 0 <= i < j < |r| ensures !before(key(r[j]), key(r[i])) {
        if i == 0 {
          assert r[j] == s[j - 1];
          if j > 1 {
            assert !before(key(s[j - 1]), key(s[0]));
          }
        }
      }
    } else {
      InsertBySorted(x, s[1..], key, before);
      var t := InsertBy(x, s[1..], key, before);
      forall k | 0 <= k < |t| ensures !before(key(t[k]), key(s[0])) {
        assert t[k] in multiset(t);
        if t[k] != x {
          assert t[k] in multiset(s[1..]);
          var m :| 0 <= m < |s[1..]| && s[1..][m] == t[k];
          assert s[m + 1] == t[k];
        }
      }
      var r := [s[0]] + t;
      forall i, j | 0 <= i < j < |r| ensures !before(key(r[j]), key(r[i])) {
        assert r[j] == t[j - 1];
        if i > 0 {
          assert r[i] == t[i - 1];
        }
      }
    }
  }

  /** The result of `SortBy` is sorted. */
  lemma {:induction false} SortBySorted<X, K(!new)>(s: seq<X>, key: X -> K, before: (K, K) -> bool)
    requires StrictOrder(before)
    ensures SortedBy(SortBy(s, key, before), key, before)
  {
    if s != [] {
      SortBySorted(s[..|s| - 1], key, before);
      InsertBySorted(s[|s| - 1], SortBy(s[..|s| - 1], key, before), key, before);
    }
  }

  lemma {:induction false} InsertBySum<X, K>(x: X, s: seq<X>, key: X -> K, before: (K, K) -> bool, f: X -> real)
    ensures SumOf(InsertBy(x, s, key, before), f) == SumOf(s, f) + f(x)
    decreases |s|
  {
    if s == [] {
      assert [x] == [] + [x];
      SumOfAppend([], x, f);
    } else if before(key(x), key(s[0])) {
      SumOfConcat([x], s, f);
      SumOfAppend([], x, f);
      assert [] + [x] == [x];
    } else {
      InsertBySum(x, s[1..], key, before, f);
      SumOfConcat([s[0]], InsertBy(x, s[1..], key, before), f);
      SumOfConcat([s[0]], s[1..], f);
      assert s == [s[0]] + s[1..];
    }
  }

  /** Sorting does not change a sum. */
  lemma {:induction false} SortBySum<X, K>(s: seq<X>, key: X -> K, before: (K, K) -> bool, f: X -> real)
    ensures SumOf(SortBy(s, key, before), f) == SumOf(s, f)
  {
    if s != [] {
      SortBySum(s[..|s| - 1], key, before, f);
      InsertBySum(s[|s| - 1], SortBy(s[..|s| - 1], key, before), key, before, f);
    }
  }

  lemma {:induction false} InsertByFlatMap<X, K, Y>(x: X, s: seq<X>, key: X -> K, before: (K, K) -> bool, f: X -> seq<Y>)
    ensures multiset(FlatMap(InsertBy(x, s, key, before), f)) == multiset(FlatMap(s, f)) + multiset(f(x))
    decreases |s|
  {
    if s == [] {
      assert [x] == [] + [x];
      FlatMapAppend([], x, f);
    } else if before(key(x), key(s[0])) {
      FlatMapConcat([x], s, f);
      FlatMapAppend([], x, f);
      assert [] + [x] == [x];
    } else {
      InsertByFlatMap(x, s[1..], key, before, f);
      FlatMapConcat([s[0]], InsertBy(x, s[1..], key, before), f);
      FlatMapConcat([s[0]], s[1..], f);
      assert s == [s[0]] + s[1..];
    }
  }

  /** Sorting does not change which elements a flattening holds. */
  lemma {:induction false} SortByFlatMap<X, K, Y>(s: seq<X>, key: X -> K, before: (K, K) -> bool, f: X -> seq<Y>)
    ensures multiset(FlatMap(SortBy(s, key, before), f)) == multiset(FlatMap(s, f))
  {
    if s != [] {
      SortByFlatMap(s[..|s| - 1], key, before, f);
      InsertByFlatMap(s[|s| - 1], SortBy(s[..|s| - 1], key, before), key, before, f);
    }
  }

  lemma {:induction false} InsertByDistinct<X, K, J>(x: X, s: seq<X>, key: X -> K, before: (K, K) -> bool, id: X -> J)
    requires DistinctBy(s, id)
    requires forall i :: 0 <= i < |s| ==> id(s[i]) != id(x)
    ensures DistinctBy(InsertBy(x, s, key, before), id)
    decreases |s|
  {
    if s != [] && !before(key(x), key(s[0])) {
      InsertByDistinct(x, s[1..], key, before, id);
      var t := InsertBy(x, s[1..], key, before);
      forall k | 0 <= k < |t| ensures id(t[k]) != id(s[0]) {
        assert t[k] in multiset(t);
        if t[k] != x {
          assert t[k] in multiset(s[1..]);
          var m :| 0 <= m < |s[1..]| && s[1..][m] == t[k];
          assert s[m + 1] == t[k];
        }
      }
      var r := [s[0]] + t;
      forall i, j | 0 <= i < j < |r| ensures id(r[i]) != id(r[j]) {
        assert r[j] == t[j - 1];
        if i > 0 {
          assert r[i] == t[i - 1];
        }
      }
    } else if s != [] {
      var r := [x] + s;
      forall i, j | 0 <= i < j < |r| ensures id(r[i]) != id(r[j]) {
        assert r[j] == s[j - 1];
        if i > 0 {
          assert r[i] == s[i - 1];
        }
      }
    }
  }

  /** Sorting keeps keys distinct when they were. */
  lemma {:induction false} SortByDistinct<X, K, J>(s: seq<X>, key: X -> K, before: (K, K) -> bool, id: X -> J)
    requires DistinctBy(s, id)
    ensures DistinctBy(SortBy(s, key, before), id)
  {
    if s != [] {
      var p := s[..|s| - 1];
      var x := s[|s| - 1];
      assert DistinctBy(p, id);
      SortByDistinct(p, key, before, id);
      var t := SortBy(p, key, before);
      forall i | 0 <= i < |t| ensures id(t[i]) != id(x) {
        assert t[i] in multiset(p);
        var m :| 0 <= m < |p| && p[m] == t[i];
        assert s[m] == t[i];
      }
      InsertByDistinct(x, t, key, before, id);
    }
  }

  /** Sorted with distinct keys under an order that ranks any two different
      keys means strictly ordered. */
  lemma StrictlySorted<X, K(!new)>(s: seq<X>, key: X -> K, before: (K, K) -> bool)
    requires SortedBy(s, key, before)
    requires DistinctBy(s, key)
    requires forall a, b :: a != b ==> before(a, b) || before(b, a)
    ensures forall i, j :: 0 <= i < j < |s| ==> before(key(s[i]), key(s[j]))
  {
    forall i, j | 0 <= i < j < |s| ensures before(key(s[i]), key(s[j])) {
      var a, b := key(s[i]), key(s[j]);
      assert a != b && !before(b, a);
      assert before(a, b) || before(b, a);
    }
  }
}
