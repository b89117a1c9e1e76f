/** Maps built by one pass over rows, keyed by a field of each row:
    `map.set(k, (map.get(k) ?? 0) + x)` for a running sum per key, and
    `arr = m.get(k) ?? []; arr.push(row); m.set(k, arr)` for the rows of
    each key. */
module Keyed {
  import opened Common
  import opened Seqs
  import opened OrderedMap

  /** The sum of `f` over the rows whose key is `k`. */
  function SumWhere<R>(rows: seq<R>, keyOf: R -> string, k: string, f: R -> real): real
  {
    if rows == [] then 0.0
    else SumWhere(rows[..|rows| - 1], keyOf, k, f) + (if keyOf(rows[|rows| - 1]) == k then f(rows[|rows| - 1]) else 0.0)
  }

  /** The keys the rows mention. */
  function RowKeys<R>(rows: seq<R>, keyOf: R -> string): set<string>
  {
    set i | 0 <= i < |rows| :: keyOf(rows[i])
  }

  lemma RowKeysSnoc<R>(rows: seq<R>, keyOf: R -> string)
    requires rows != []
    ensures RowKeys(rows, keyOf) == RowKeys(rows[..|rows| - 1], keyOf) + {keyOf(rows[|rows| - 1])}
  {
    var p := rows[..|rows| - 1];
    forall x | x in RowKeys(rows, keyOf) ensures x in RowKeys(p, keyOf) + {keyOf(rows[|rows| - 1])} {
      var i :| 0 <= i < |rows| && keyOf(rows[i]) == x;
      if i < |p| { assert keyOf(p[i]) == x; }
    }
    forall x | x in RowKeys(p, keyOf) ensures x in RowKeys(rows, keyOf) {
      var i :| 0 <= i < |p| && keyOf(p[i]) == x;
      assert keyOf(rows[i]) == x;
    }
  }

  /** The rows whose key is `k`, in their order. */
  function Where<R>(rows: seq<R>, keyOf: R -> string, k: string): (r: seq<R>)
    ensures forall i :: 0 <= i < |r| ==> keyOf(r[i]) == k
  {
    if rows == [] then []
    else Where(rows[..|rows| - 1], keyOf, k) + (if keyOf(rows[|rows| - 1]) == k then [rows[|rows| - 1]] else [])
  }

  /** `Where` keeps exactly the rows of key `k`, as often as they occur. */
  lemma {:induction false} WhereCount<R>(rows: seq<R>, keyOf: R -> string, k: string, x: R)
    ensures multiset(Where(rows, keyOf, k))[x] == if keyOf(x) == k then multiset(rows)[x] else 0
  {
    if rows != [] {
      WhereCount(rows[..|rows| - 1], keyOf, k, x);
      MultisetSnoc(rows);
    }
  }

  lemma SumWhereSnoc<R>(rows: seq<R>, keyOf: R -> string, k: string, f: R -> real)
    requires rows != []
    ensures SumWhere(rows, keyOf, k, f)
         == SumWhere(rows[..|rows| - 1], keyOf, k, f) + (if keyOf(rows[|rows| - 1]) == k then f(rows[|rows| - 1]) else 0.0)
  {
  }

  function Val(e: Entry<real>): real { e.value }

  // ----- A running sum per key -----

  /** `map.set(k, (map.get(k) ?? 0) + x)`. */
  function AddTo(m: seq<Entry<real>>, k: string, x: real): seq<Entry<real>>
  {
    Put(m, k, Get(m, k).GetOr(0.0) + x)
  }

  /** `AddTo` of equal arguments gives equal maps. */
  lemma AddToCongruent(m: seq<Entry<real>>, m': seq<Entry<real>>, k: string, k': string, x: real, x': real)
    requires m == m' && k == k' && x == x'
    ensures AddTo(m, k, x) == AddTo(m', k', x')
  {
  }

  /** The map after every row has added its amount under its key, starting empty. */
  function Summed<R>(rows: seq<R>, keyOf: R -> string, f: R -> real): seq<Entry<real>>
  {
    if rows == [] then [] else AddTo(Summed(rows[..|rows| - 1], keyOf, f), keyOf(rows[|rows| - 1]), f(rows[|rows| - 1]))
  }

  lemma SummedSnoc<R>(rows: seq<R>, x: R, keyOf: R -> string, f: R -> real)
    ensures Summed(rows + [x], keyOf, f) == AddTo(Summed(rows, keyOf, f), keyOf(x), f(x))
  {
    assert (rows + [x])[..|rows|] == rows;
  }

  /** One more row adds its amount to the sums of the selected rows exactly
      when the selection keeps it. */
  lemma SummedSelectSnoc<R>(rows: seq<R>, x: R, p: R -> bool, want: bool, keyOf: R -> string, f: R -> real)
    ensures Summed(Select(rows + [x], p, want), keyOf, f)
         == if p(x) == want then AddTo(Summed(Select(rows, p, want), keyOf, f), keyOf(x), f(x))
            else Summed(Select(rows, p, want), keyOf, f)
  {
    assert (rows + [x])[..|rows|] == rows;
    if p(x) == want {
      SummedSnoc(Select(rows, p, want), x, keyOf, f);
    }
  }

  /** One addition: the key is there afterwards and the entries grow by `x`. */
  lemma AddToOk(m: seq<Entry<real>>, k: string, x: real)
    requires Valid(m)
    ensures Valid(AddTo(m, k, x)) && Keys(AddTo(m, k, x)) == Keys(m) + {k}
    ensures SumOf(AddTo(m, k, x), Val) == SumOf(m, Val) + x
  {
    var v := Get(m, k).GetOr(0.0) + x;
    GetSpec(m, k);
    PutKeys(m, k, v);
    PutSum(m, k, v, Val);
  }

  /** One entry per key the rows mention, and the entries add up to the rows. */
  lemma {:induction false} SummedOk<R>(rows: seq<R>, keyOf: R -> string, f: R -> real)
    ensures Valid(Summed(rows, keyOf, f))
    ensures Keys(Summed(rows, keyOf, f)) == RowKeys(rows, keyOf)
    ensures SumOf(Summed(rows, keyOf, f), Val) == SumOf(rows, f)
  {
    if rows != [] {
      var p, r := rows[..|rows| - 1], rows[|rows| - 1];
      SummedOk(p, keyOf, f);
      RowKeysSnoc(rows, keyOf);
      AddToOk(Summed(p, keyOf, f), keyOf(r), f(r));
    }
  }

  /** The entry of `k` is the sum of the amounts of the rows of key `k`, and
      is there exactly when some row has that key. */
  lemma SummedGet<R>(rows: seq<R>, keyOf: R -> string, f: R -> real, k: string)
    ensures Get(Summed(rows, keyOf, f), k) == if k in RowKeys(rows, keyOf) then Some(SumWhere(rows, keyOf, k, f)) else None
  {
    SummedOk(rows, keyOf, f);
    SummedValue(rows, keyOf, f, k);
    GetSpec(Summed(rows, keyOf, f), k);
  }

  lemma {:induction false} SummedValue<R>(rows: seq<R>, keyOf: R -> string, f: R -> real, k: string)
    ensures Get(Summed(rows, keyOf, f), k).GetOr(0.0) == SumWhere(rows, keyOf, k, f)
  {
    if rows != [] {
      var p, r := rows[..|rows| - 1], rows[|rows| - 1];
      SummedOk(p, keyOf, f);
      SummedValue(p, keyOf, f, k);
      var m, kr := Summed(p, keyOf, f), keyOf(r);
      var v := Get(m, kr).GetOr(0.0) + f(r);
      assert Get(Summed(rows, keyOf, f), k) == Get(Put(m, kr, v), k);
      SumWhereSnoc(rows, keyOf, k, f);
      PutGet(m, kr, v, k);
      if kr == k {
        assert Get(Put(m, kr, v), k).GetOr(0.0) == v;
      } else {
        assert Get(Put(m, kr, v), k) == Get(m, k);
      }
    }
  }

  // ----- The rows of each key -----

  /** `arr = m.get(k) ?? []; arr.push(row); m.set(k, arr)`. */
  function Pushed<R>(m: seq<Entry<seq<R>>>, k: string, row: R): seq<Entry<seq<R>>>
  {
    Put(m, k, Get(m, k).GetOr([]) + [row])
  }

  /** The map after every row has been pushed under its key, starting empty. */
  function Listed<R>(rows: seq<R>, keyOf: R -> string): seq<Entry<seq<R>>>
  {
    if rows == [] then [] else Pushed(Listed(rows[..|rows| - 1], keyOf), keyOf(rows[|rows| - 1]), rows[|rows| - 1])
  }

  /** One entry per key the rows mention. */
  lemma {:induction false} ListedOk<R>(rows: seq<R>, keyOf: R -> string)
    ensures Valid(Listed(rows, keyOf))
    ensures Keys(Listed(rows, keyOf)) == RowKeys(rows, keyOf)
  {
    if rows != [] {
      var p, r := rows[..|rows| - 1], rows[|rows| - 1];
      ListedOk(p, keyOf);
      RowKeysSnoc(rows, keyOf);
      var m := Listed(p, keyOf);
      PutKeys(m, keyOf(r), Get(m, keyOf(r)).GetOr([]) + [r]);
    }
  }

  /** The entry of `k` holds the rows of key `k` in their order. */
  lemma {:induction false} ListedGet<R>(rows: seq<R>, keyOf: R -> string, k: string)
    ensures Get(Listed(rows, keyOf), k).GetOr([]) == Where(rows, keyOf, k)
  {
    if rows != [] {
      var p, r := rows[..|rows| - 1], rows[|rows| - 1];
      ListedOk(p, keyOf);
      ListedGet(p, keyOf, k);
      ListedGet(p, keyOf, keyOf(r));
      var m := Listed(p, keyOf);
      PutGet(m, keyOf(r), Get(m, keyOf(r)).GetOr([]) + [r], k);
    }
  }
}
