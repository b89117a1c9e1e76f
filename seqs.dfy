/** Folds over sequences that the pages use again and again: sums of a
    numeric column (`reduce((s, x) => s + f(x), 0)`), concatenation of
    nested lists, `filter`, and lookup by key. */
module Seqs {

  /** The sum of `f` over `s`, accumulated left to right. */
  function SumOf<X>(s: seq<X>, f: X -> real): real
  {
    if s == [] then 0.0 else SumOf(s[..|s| - 1], f) + f(s[|s| - 1])
  }

  lemma SumOfAppend<X>(s: seq<X>, x: X, f: X -> real)
    ensures SumOf(s + [x], f) == SumOf(s, f) + f(x)
  {
    assert (s + [x])[..|s|] == s;
  }

  lemma {:induction false} SumOfConcat<X>(a: seq<X>, b: seq<X>, f: X -> real)
    ensures SumOf(a + b, f) == SumOf(a, f) + SumOf(b, f)
    decreases |b|
  {
    if b == [] {
      assert a + b == a;
    } else {
      var b' := b[..|b| - 1];
      SumOfConcat(a, b', f);
      assert (a + b)[..|a + b| - 1] == a + b';
      assert (a + b)[|a + b| - 1] == b[|b| - 1];
    }
  }

  lemma SumOfUpdate<X>(s: seq<X>, i: int, x: X, f: X -> real)
    requires 0 <= i < |s|
    ensures SumOf(s[i := x], f) == SumOf(s, f) - f(s[i]) + f(x)
  {
    assert s == (s[..i] + [s[i]]) + s[i + 1..];
    assert s[i := x] == (s[..i] + [x]) + s[i + 1..];
    SumOfConcat(s[..i] + [s[i]], s[i + 1..], f);
    SumOfConcat(s[..i] + [x], s[i + 1..], f);
    SumOfAppend(s[..i], s[i], f);
    SumOfAppend(s[..i], x, f);
  }

  /** Two sums agree when their terms agree position by position. */
  lemma {:induction false} SumOfPointwise<X, Y>(a: seq<X>, f: X -> real, b: seq<Y>, g: Y -> real)
    requires |a| == |b|
    requires forall i :: 0 <= i < |a| ==> f(a[i]) == g(b[i])
    ensures SumOf(a, f) == SumOf(b, g)
  {
    if a != [] {
      SumOfPointwise(a[..|a| - 1], f, b[..|b| - 1], g);
    }
  }

  /** A sum scales with its terms. */
  lemma {:induction false} SumOfScaled<X>(s: seq<X>, f: X -> real, g: X -> real, c: real)
    requires forall i :: 0 <= i < |s| ==> g(s[i]) == c * f(s[i])
    ensures SumOf(s, g) == c * SumOf(s, f)
  {
    if s != [] {
      var p := s[..|s| - 1];
      assert forall i :: 0 <= i < |p| ==> p[i] == s[i];
      SumOfScaled(p, f, g, c);
    }
  }

  /** Dividing every term by `t` divides the sum by `t`. */
  lemma {:induction false} SumOfDivided<X>(s: seq<X>, f: X -> real, g: X -> real, t: real)
    requires t != 0.0
    requires forall x :: x in s ==> g(x) == f(x) / t
    ensures SumOf(s, g) == SumOf(s, f) / t
  {
    if s != [] {
      var p, x := s[..|s| - 1], s[|s| - 1];
      SumOfDivided(p, f, g, t);
      assert x in s;
      DivAdd(SumOf(p, f), f(x), t);
    }
  }

  lemma DivAdd(a: real, b: real, t: real)
    requires t != 0.0
    ensures a / t + b / t == (a + b) / t
  {
  }

  /** The sum of a difference is the difference of the sums. */
  lemma {:induction false} SumOfDifference<X>(s: seq<X>, f: X -> real, g: X -> real, h: X -> real)
    requires forall x :: x in s ==> h(x) == f(x) - g(x)
    ensures SumOf(s, h) == SumOf(s, f) - SumOf(s, g)
  {
    if s != [] {
      SumOfDifference(s[..|s| - 1], f, g, h);
      assert s[|s| - 1] in s;
    }
  }

  /** A sum of terms that are all at least zero is at least zero; a sum of
      zeros is zero. */
  lemma {:induction false} SumOfNonNegative<X>(s: seq<X>, f: X -> real)
    ensures (forall i :: 0 <= i < |s| ==> f(s[i]) >= 0.0) ==> SumOf(s, f) >= 0.0
    ensures (forall i :: 0 <= i < |s| ==> f(s[i]) == 0.0) ==> SumOf(s, f) == 0.0
  {
    if s != [] {
      SumOfNonNegative(s[..|s| - 1], f);
    }
  }

  /** Reordering does not change a sum. */
  lemma {:induction false} SumOfPermutation<X>(a: seq<X>, b: seq<X>, f: X -> real)
    requires multiset(a) == multiset(b)
    ensures SumOf(a, f) == SumOf(b, f)
    decreases |a|
  {
    if a == [] {
      assert |b| == |multiset(b)| == 0;
    } else {
      var a', x := a[..|a| - 1], a[|a| - 1];
      MultisetSnoc(a);
      assert x in multiset(b);
      var k :| 0 <= k < |b| && b[k] == x;
      var l, r := b[..k], b[k + 1..];
      RemoveAt(b, k);
      MultisetCancel(multiset(a'), multiset(l + r), x);
      SumOfPermutation(a', l + r, f);
      SumAt(b, k, f);
    }
  }

  /** Taking out the element at `k` takes it out of the bag. */
  lemma RemoveAt<X>(b: seq<X>, k: int)
    requires 0 <= k < |b|
    ensures multiset(b) == multiset(b[..k] + b[k + 1..]) + multiset{b[k]}
  {
    assert b == b[..k] + [b[k]] + b[k + 1..];
  }

  lemma MultisetCancel<X>(a: multiset<X>, b: multiset<X>, x: X)
    requires a + multiset{x} == b + multiset{x}
    ensures a == b
  {
    forall y ensures a[y] == b[y] {
      assert (a + multiset{x})[y] == (b + multiset{x})[y];
    }
  }

  /** A sum is the sum without the element at `k`, plus that element. */
  lemma SumAt<X>(b: seq<X>, k: int, f: X -> real)
    requires 0 <= k < |b|
    ensures SumOf(b, f) == SumOf(b[..k] + b[k + 1..], f) + f(b[k])
  {
    var l, r := b[..k], b[k + 1..];
    assert b == l + [b[k]] + r;
    SumOfConcat(l + [b[k]], r, f);
    SumOfConcat(l, r, f);
    SumOfAppend(l, b[k], f);
  }

  /** The concatenation of `f(x)` for every `x` of `s`, in order. */
  function FlatMap<X, Y>(s: seq<X>, f: X -> seq<Y>): seq<Y>
  {
    if s == [] then [] else FlatMap(s[..|s| - 1], f) + f(s[|s| - 1])
  }

  lemma FlatMapAppend<X, Y>(s: seq<X>, x: X, f: X -> seq<Y>)
    ensures FlatMap(s + [x], f) == FlatMap(s, f) + f(x)
  {
    assert (s + [x])[..|s|] == s;
  }

  lemma {:induction false} FlatMapConcat<X, Y>(a: seq<X>, b: seq<X>, f: X -> seq<Y>)
    ensures FlatMap(a + b, f) == FlatMap(a, f) + FlatMap(b, f)
    decreases |b|
  {
    if b == [] {
      assert a + b == a;
    } else {
      var b' := b[..|b| - 1];
      FlatMapConcat(a, b', f);
      assert (a + b)[..|a + b| - 1] == a + b';
      assert (a + b)[|a + b| - 1] == b[|b| - 1];
    }
  }

  /** Summing over a flattening is summing the parts' sums. */
  lemma {:induction false} SumOfFlatMap<X, Y>(s: seq<X>, f: X -> seq<Y>, g: Y -> real, h: X -> real)
    requires forall i :: 0 <= i < |s| ==> h(s[i]) == SumOf(f(s[i]), g)
    ensures SumOf(FlatMap(s, f), g) == SumOf(s, h)
  {
    if s != [] {
      var p := s[..|s| - 1];
      assert forall i :: 0 <= i < |p| ==> p[i] == s[i];
      SumOfFlatMap(p, f, g, h);
      SumOfConcat(FlatMap(p, f), f(s[|s| - 1]), g);
    }
  }

  /** Replacing one element by one whose part holds one more element `y`
      adds `y` to the flattened bag. */
  lemma FlatMapGrow<X, Y>(s: seq<X>, i: int, x: X, f: X -> seq<Y>, y: Y)
    requires 0 <= i < |s|
    requires multiset(f(x)) == multiset(f(s[i])) + multiset{y}
    ensures multiset(FlatMap(s[i := x], f)) == multiset(FlatMap(s, f)) + multiset{y}
  {
    var p, q := s[..i], s[i + 1..];
    assert s == (p + [s[i]]) + q;
    assert s[i := x] == (p + [x]) + q;
    FlatMapConcat(p + [s[i]], q, f);
    FlatMapConcat(p + [x], q, f);
    FlatMapAppend(p, s[i], f);
    FlatMapAppend(p, x, f);
    var a, b := multiset(FlatMap(p, f)), multiset(FlatMap(q, f));
    calc {
      multiset(FlatMap(s[i := x], f));
      a + multiset(f(x)) + b;
      a + multiset(f(s[i])) + b + multiset{y};
      multiset(FlatMap(s, f)) + multiset{y};
    }
  }

  /** Two flattenings hold the same elements when their parts do, position by position. */
  lemma {:induction false} FlatMapPointwise<X, Y, Z>(a: seq<X>, f: X -> seq<Z>, b: seq<Y>, g: Y -> seq<Z>)
    requires |a| == |b|
    requires forall i :: 0 <= i < |a| ==> multiset(f(a[i])) == multiset(g(b[i]))
    ensures multiset(FlatMap(a, f)) == multiset(FlatMap(b, g))
  {
    if a != [] {
      FlatMapPointwise(a[..|a| - 1], f, b[..|b| - 1], g);
    }
  }

  /** An element of a flattening comes from one of the parts, and every
      element of every part is in the flattening. */
  lemma {:induction false} FlatMapMember<X, Y>(s: seq<X>, f: X -> seq<Y>, y: Y)
    ensures y in FlatMap(s, f) <==> exists i :: 0 <= i < |s| && y in f(s[i])
  {
    if s != [] {
      var p := s[..|s| - 1];
      FlatMapMember(p, f, y);
      if y in FlatMap(s, f) && y !in f(s[|s| - 1]) {
        var i :| 0 <= i < |p| && y in f(p[i]);
        assert s[i] == p[i];
      }
      if exists i :: 0 <= i < |s| && y in f(s[i]) {
        var i :| 0 <= i < |s| && y in f(s[i]);
        if i < |p| {
          assert p[i] == s[i];
        }
      }
    }
  }

  /** `s.filter(x => p(x) == want)`: the elements whose test gives `want`, in order. */
  function Select<X>(s: seq<X>, p: X -> bool, want: bool): (r: seq<X>)
    ensures |r| <= |s|
    ensures forall i :: 0 <= i < |r| ==> r[i] in s && p(r[i]) == want
    ensures forall i :: 0 <= i < |s| && p(s[i]) == want ==> s[i] in r
  {
    if s == [] then []
    else
      var rest := Select(s[..|s| - 1], p, want);
      assert s == s[..|s| - 1] + [s[|s| - 1]];
      if p(s[|s| - 1]) == want then rest + [s[|s| - 1]] else rest
  }

  /** Selecting from a concatenation selects from each part, keeping their order. */
  lemma {:induction false} SelectConcat<X>(a: seq<X>, b: seq<X>, p: X -> bool, want: bool)
    ensures Select(a + b, p, want) == Select(a, p, want) + Select(b, p, want)
    decreases |b|
  {
    if b == [] {
      assert a + b == a;
    } else {
      var b' := b[..|b| - 1];
      SelectConcat(a, b', p, want);
      assert (a + b)[..|a + b| - 1] == a + b';
      assert (a + b)[|a + b| - 1] == b[|b| - 1];
    }
  }

  /** The two selections split `s` exactly: every element lands in one of them. */
  lemma {:induction false} SelectPartition<X>(s: seq<X>, p: X -> bool)
    ensures multiset(Select(s, p, true)) + multiset(Select(s, p, false)) == multiset(s)
    ensures |Select(s, p, true)| + |Select(s, p, false)| == |s|
  {
    if s != [] {
      var t, x := s[..|s| - 1], s[|s| - 1];
      SelectPartition(t, p);
      MultisetSnoc(s);
      if p(x) {
        assert Select(s, p, true) == Select(t, p, true) + [x];
        assert Select(s, p, false) == Select(t, p, false);
      } else {
        assert Select(s, p, true) == Select(t, p, true);
        assert Select(s, p, false) == Select(t, p, false) + [x];
      }
    }
  }

  /** Selecting from elements that all pass keeps them all; from elements
      that all fail keeps none. */
  lemma {:induction false} SelectAllOrNone<X>(s: seq<X>, p: X -> bool, want: bool)
    ensures (forall i :: 0 <= i < |s| ==> p(s[i]) == want) ==> Select(s, p, want) == s
    ensures (forall i :: 0 <= i < |s| ==> p(s[i]) != want) ==> Select(s, p, want) == []
  {
    if s != [] {
      SelectAllOrNone(s[..|s| - 1], p, want);
    }
  }

  /** A filter that drops only elements a later filter drops anyway changes nothing. */
  lemma {:induction false} SelectSubsumed<X>(s: seq<X>, p: X -> bool, q: X -> bool)
    requires forall i :: 0 <= i < |s| ==> q(s[i]) ==> !p(s[i])
    ensures Select(Select(s, p, false), q, true) == Select(s, q, true)
  {
    if s != [] {
      var t := s[..|s| - 1];
      var x := s[|s| - 1];
      SelectSubsumed(t, p, q);
      if !p(x) {
        SelectConcat(Select(t, p, false), [x], q, true);
        assert [x][..0] == [];
      }
    }
  }

  /** No two elements share a key. */
  predicate DistinctBy<X, K(==)>(s: seq<X>, key: X -> K)
  {
    forall i, j :: 0 <= i < j < |s| ==> key(s[i]) != key(s[j])
  }

  /** No element occurs twice. */
  predicate NoDup<X(==)>(s: seq<X>)
  {
    forall i, j :: 0 <= i < j < |s| ==> s[i] != s[j]
  }

  /** The index of the first element whose key is `k`, or `|s|` when there is none. */
  function FindBy<X, K(==)>(s: seq<X>, key: X -> K, k: K): (r: nat)
    ensures r <= |s|
    ensures r < |s| ==> key(s[r]) == k
    ensures forall j :: 0 <= j < r ==> key(s[j]) != k
  {
    if s == [] then 0
    else if key(s[0]) == k then 0
    else 1 + FindBy(s[1..], key, k)
  }

  lemma MultisetSnoc<X>(s: seq<X>)
    requires s != []
    ensures multiset(s) == multiset(s[..|s| - 1]) + multiset{s[|s| - 1]}
  {
    assert s == s[..|s| - 1] + [s[|s| - 1]];
  }

  lemma ElemsSnoc<X>(s: seq<X>, x: X)
    ensures (set y | y in s + [x]) == (set y | y in s) + {x}
  {
  }
}
