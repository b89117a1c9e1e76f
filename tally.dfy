/** Two running sums per key, as `methodsTotalsByPerson` (src/app/page.tsx)
    and `byPartner` (src/app/riepilogo/page.tsx) build them: every listed
    key starts at zero and every row adds two amounts to the entry of its
    key, creating the entry when the key was not listed. */
module Tally {
  import opened Common
  import opened Seqs
  import opened OrderedMap
  import opened Keyed

  datatype Pair = Pair(first: real, second: real)

  const Zero := Pair(0.0, 0.0)

  function First(e: Entry<Pair>): real { e.value.first }
  function Second(e: Entry<Pair>): real { e.value.second }

  /** `for (const p of keys) m.set(p, { 0, 0 })`. */
  function Zeroed(keys: seq<string>): seq<Entry<Pair>>
  {
    if keys == [] then [] else Put(Zeroed(keys[..|keys| - 1]), keys[|keys| - 1], Zero)
  }

  /** One row: `cur = m.get(key) ?? { 0, 0 }`, both amounts added, `m.set(key, cur)`. */
  function Step<R>(m: seq<Entry<Pair>>, r: R, keyOf: R -> string, f: R -> real, g: R -> real): seq<Entry<Pair>>
  {
    Put(m, keyOf(r), Added(Get(m, keyOf(r)).GetOr(Zero), f(r), g(r)))
  }

  /** `cur.first += a; cur.second += b`. */
  function Added(cur: Pair, a: real, b: real): Pair
  {
    Pair(cur.first + a, cur.second + b)
  }

  /** `m` after every row has been added, in order. */
  function Tallied<R>(m: seq<Entry<Pair>>, rows: seq<R>, keyOf: R -> string, f: R -> real, g: R -> real): seq<Entry<Pair>>
  {
    if rows == [] then m else Step(Tallied(m, rows[..|rows| - 1], keyOf, f, g), rows[|rows| - 1], keyOf, f, g)
  }

  /** The two loops: zero entries for `keys`, then every row added. */
  method TallyByKey<R>(keys: seq<string>, rows: seq<R>, keyOf: R -> string, f: R -> real, g: R -> real)
    returns (m: seq<Entry<Pair>>)
    ensures m == Tallied(Zeroed(keys), rows, keyOf, f, g)
  {
    m := [];
    var i := 0;
    while i < |keys|
      invariant 0 <= i <= |keys|
      invariant m == Zeroed(keys[..i])
    {
      m := Put(m, keys[i], Zero);
      assert keys[..i + 1][..i] == keys[..i];
      i := i + 1;
    }
    assert keys[..i] == keys;
    ghost var z := m;
    var j := 0;
    while j < |rows|
      invariant 0 <= j <= |rows|
      invariant m == Tallied(z, rows[..j], keyOf, f, g)
    {
      var r := rows[j];
      var cur := Get(m, keyOf(r)).GetOr(Zero);
      ghost var prev, before := m, cur;
      cur := cur.(first := cur.first + f(r));
      cur := cur.(second := cur.second + g(r));
      assert cur == Added(before, f(r), g(r));
      m := Put(m, keyOf(r), cur);
      assert m == Step(prev, r, keyOf, f, g);
      assert rows[..j + 1][..j] == rows[..j] && rows[..j + 1][j] == r;
      j := j + 1;
    }
    assert rows[..j] == rows;
  }

  /** Zeroing gives one entry per listed key and nothing else. */
  lemma {:induction false} ZeroedOk(keys: seq<string>)
    ensures Valid(Zeroed(keys))
    ensures Keys(Zeroed(keys)) == set x | x in keys
    ensures SumOf(Zeroed(keys), First) == 0.0 && SumOf(Zeroed(keys), Second) == 0.0
  {
    if keys != [] {
      var p := keys[..|keys| - 1];
      var k := keys[|keys| - 1];
      assert keys == p + [k];
      ElemsSnoc(p, k);
      ZeroedOk(p);
      var m := Zeroed(p);
      ZeroedGet(p, k);
      GetSpec(m, k);
      PutKeys(m, k, Zero);
      PutSum(m, k, Zero, First);
      PutSum(m, k, Zero, Second);
    }
  }

  /** Every entry of a zeroed map is zero. */
  lemma {:induction false} ZeroedGet(keys: seq<string>, k: string)
    ensures Get(Zeroed(keys), k).GetOr(Zero) == Zero
  {
    if keys != [] {
      var p := keys[..|keys| - 1];
      ZeroedOk(p);
      ZeroedGet(p, k);
      PutGet(Zeroed(p), keys[|keys| - 1], Zero, k);
    }
  }

  lemma StepOk<R>(m: seq<Entry<Pair>>, r: R, keyOf: R -> string, f: R -> real, g: R -> real)
    requires Valid(m)
    ensures Valid(Step(m, r, keyOf, f, g))
    ensures Keys(Step(m, r, keyOf, f, g)) == Keys(m) + {keyOf(r)}
    ensures SumOf(Step(m, r, keyOf, f, g), First) == SumOf(m, First) + f(r)
    ensures SumOf(Step(m, r, keyOf, f, g), Second) == SumOf(m, Second) + g(r)
  {
    var v := Added(Get(m, keyOf(r)).GetOr(Zero), f(r), g(r));
    PutKeys(m, keyOf(r), v);
    PutSum(m, keyOf(r), v, First);
    PutSum(m, keyOf(r), v, Second);
  }

  /** After the rows, the key set has grown by the rows' keys, and each
      column total by the column's sum over all rows. */
  lemma {:induction false} TalliedOk<R>(m: seq<Entry<Pair>>, rows: seq<R>, keyOf: R -> string, f: R -> real, g: R -> real)
    requires Valid(m)
    ensures Valid(Tallied(m, rows, keyOf, f, g))
    ensures Keys(Tallied(m, rows, keyOf, f, g)) == Keys(m) + RowKeys(rows, keyOf)
    ensures SumOf(Tallied(m, rows, keyOf, f, g), First) == SumOf(m, First) + SumOf(rows, f)
    ensures SumOf(Tallied(m, rows, keyOf, f, g), Second) == SumOf(m, Second) + SumOf(rows, g)
  {
    if rows != [] {
      var p := rows[..|rows| - 1];
      RowKeysSnoc(rows, keyOf);
      TalliedOk(m, p, keyOf, f, g);
      StepOk(Tallied(m, p, keyOf, f, g), rows[|rows| - 1], keyOf, f, g);
    }
  }

  /** After the rows, every key holds its starting pair plus the sums of the
      rows with that key. */
  lemma {:induction false} TalliedGet<R>(m: seq<Entry<Pair>>, rows: seq<R>, keyOf: R -> string, f: R -> real, g: R -> real, k: string)
    requires Valid(m)
    ensures Get(Tallied(m, rows, keyOf, f, g), k).GetOr(Zero)
         == Added(Get(m, k).GetOr(Zero), SumWhere(rows, keyOf, k, f), SumWhere(rows, keyOf, k, g))
  {
    if rows != [] {
      var p := rows[..|rows| - 1];
      var r := rows[|rows| - 1];
      TalliedOk(m, p, keyOf, f, g);
      TalliedGet(m, p, keyOf, f, g, k);
      var t := Tallied(m, p, keyOf, f, g);
      PutGet(t, keyOf(r), Added(Get(t, keyOf(r)).GetOr(Zero), f(r), g(r)), k);
    }
  }

  /** What `TallyByKey` returns: one entry per listed key and per key a row
      mentions, each holding the sums of its rows, and column totals equal to
      the sums over all rows. */
  lemma TallyOk<R>(keys: seq<string>, rows: seq<R>, keyOf: R -> string, f: R -> real, g: R -> real)
    ensures Valid(Tallied(Zeroed(keys), rows, keyOf, f, g))
    ensures Keys(Tallied(Zeroed(keys), rows, keyOf, f, g)) == (set x | x in keys) + RowKeys(rows, keyOf)
    ensures forall k :: k in Keys(Tallied(Zeroed(keys), rows, keyOf, f, g)) ==>
              Get(Tallied(Zeroed(keys), rows, keyOf, f, g), k) == Some(Pair(SumWhere(rows, keyOf, k, f), SumWhere(rows, keyOf, k, g)))
    ensures SumOf(Tallied(Zeroed(keys), rows, keyOf, f, g), First) == SumOf(rows, f)
    ensures SumOf(Tallied(Zeroed(keys), rows, keyOf, f, g), Second) == SumOf(rows, g)
  {
    ZeroedOk(keys);
    TalliedOk(Zeroed(keys), rows, keyOf, f, g);
    var m := Tallied(Zeroed(keys), rows, keyOf, f, g);
    forall k | k in Keys(m)
      ensures Get(m, k) == Some(Pair(SumWhere(rows, keyOf, k, f), SumWhere(rows, keyOf, k, g)))
    {
      ZeroedGet(keys, k);
      TalliedGet(Zeroed(keys), rows, keyOf, f, g, k);
      GetSpec(m, k);
    }
  }

  /** Summing `SumWhere` over a list of distinct keys sums the rows whose key is listed. */
  function SumOverKeys<R>(ks: seq<string>, rows: seq<R>, keyOf: R -> string, f: R -> real): real
  {
    if ks == [] then 0.0
    else SumOverKeys(ks[..|ks| - 1], rows, keyOf, f) + SumWhere(rows, keyOf, ks[|ks| - 1], f)
  }

  /** Over distinct keys that cover every row's key, the per-key sums add up
      to the sum over all rows. */
  lemma {:induction false} SumOverKeysCovers<R>(ks: seq<string>, rows: seq<R>, keyOf: R -> string, f: R -> real)
    requires NoDup(ks)
    requires forall i :: 0 <= i < |rows| ==> keyOf(rows[i]) in ks
    ensures SumOverKeys(ks, rows, keyOf, f) == SumOf(rows, f)
  {
    if rows != [] {
      var p := rows[..|rows| - 1];
      var r := rows[|rows| - 1];
      SumOverKeysCovers(ks, p, keyOf, f);
      SumOverKeysStep(ks, p, r, keyOf, f);
      assert rows == p + [r];
    } else {
      SumOverKeysEmpty(ks, keyOf, f);
    }
  }

  lemma {:induction false} SumOverKeysEmpty<R>(ks: seq<string>, keyOf: R -> string, f: R -> real)
    ensures SumOverKeys(ks, [], keyOf, f) == 0.0
  {
    if ks != [] {
      SumOverKeysEmpty(ks[..|ks| - 1], keyOf, f);
    }
  }

  /** One more row adds its amount exactly once when its key is listed once. */
  lemma {:induction false} SumOverKeysStep<R>(ks: seq<string>, rows: seq<R>, r: R, keyOf: R -> string, f: R -> real)
    requires NoDup(ks)
    ensures SumOverKeys(ks, rows + [r], keyOf, f)
         == SumOverKeys(ks, rows, keyOf, f) + (if keyOf(r) in ks then f(r) else 0.0)
  {
    assert (rows + [r])[..|rows|] == rows;
    if ks != [] {
      var q := ks[..|ks| - 1];
      assert NoDup(q);
      SumOverKeysStep(q, rows, r, keyOf, f);
      assert keyOf(r) in ks <==> keyOf(r) in q || keyOf(r) == ks[|ks| - 1] by {
        assert ks == q + [ks[|ks| - 1]];
      }
      if keyOf(r) == ks[|ks| - 1] {
        assert keyOf(r) !in q by {
          forall i | 0 <= i < |q| ensures q[i] != keyOf(r) {
            assert q[i] == ks[i];
          }
        }
      }
    }
  }
}
