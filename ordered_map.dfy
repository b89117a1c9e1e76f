/** JavaScript's `Map<string, V>` as the pages use it: entries in insertion
    order, `get` returning `undefined` for a missing key, and `set` that
    overwrites an existing key in place or appends a new one. */
module OrderedMap {
  import opened Common
  import opened Seqs

  datatype Entry<V> = Entry(key: string, value: V)

  function KeyOf<V>(e: Entry<V>): string { e.key }

  /** A `Map` never holds a key twice. */
  predicate Valid<V>(m: seq<Entry<V>>)
  {
    DistinctBy(m, KeyOf)
  }

  function Keys<V>(m: seq<Entry<V>>): set<string>
  {
    set i | 0 <= i < |m| :: m[i].key
  }

  /** `m.get(k)`. */
  function Get<V>(m: seq<Entry<V>>, k: string): Option<V>
  {
    var i := FindBy(m, KeyOf, k);
    if i < |m| then Some(m[i].value) else None
  }

  /** `get` finds a key exactly when the map holds it, and then gives its value. */
  lemma GetSpec<V>(m: seq<Entry<V>>, k: string)
    ensures Get(m, k).None? <==> k !in Keys(m)
    ensures Valid(m) ==> forall i :: 0 <= i < |m| && m[i].key == k ==> Get(m, k) == Some(m[i].value)
  {
  }

  /** `m.set(k, v)`: overwrites the entry of `k` in place, or appends one. */
  function Put<V>(m: seq<Entry<V>>, k: string, v: V): seq<Entry<V>>
  {
    var i := FindBy(m, KeyOf, k);
    if i < |m| then m[i := Entry(k, v)] else m + [Entry(k, v)]
  }

  /** `set` adds its key, and keeps keys distinct. */
  lemma PutKeys<V>(m: seq<Entry<V>>, k: string, v: V)
    ensures Keys(Put(m, k, v)) == Keys(m) + {k}
    ensures Valid(m) ==> Valid(Put(m, k, v))
  {
    var i := FindBy(m, KeyOf, k);
    var r := Put(m, k, v);
    forall x | x in Keys(m) ensures x in Keys(r) {
      var j :| 0 <= j < |m| && m[j].key == x;
      assert r[j].key == x;
    }
    if i < |m| {
      assert r[i].key == k;
    } else {
      assert r[|m|].key == k;
    }
  }

  /** After `m.set(k, v)`, `get(k)` gives `v` and every other key is as before. */
  lemma PutGet<V>(m: seq<Entry<V>>, k: string, v: V, k': string)
    requires Valid(m)
    ensures Get(Put(m, k, v), k') == if k' == k then Some(v) else Get(m, k')
  {
    var i := FindBy(m, KeyOf, k);
    var r := Put(m, k, v);
    GetSpec(m, k');
    PutKeys(m, k, v);
    GetSpec(r, k');
    if k' != k {
      if k' in Keys(m) {
        var j :| 0 <= j < |m| && m[j].key == k';
        assert r[j] == m[j];
      }
    } else {
      if i < |m| { assert r[i] == Entry(k, v); } else { assert r[|m|] == Entry(k, v); }
    }
  }

  /** `get` right after `set` gives the value just set, and a second `set`
      of the same key overwrites the first. */
  lemma PutTwice<V>(m: seq<Entry<V>>, k: string, v: V, w: V)
    ensures Get(Put(m, k, v), k) == Some(v)
    ensures Put(Put(m, k, v), k, w) == Put(m, k, w)
  {
    var i := FindBy(m, KeyOf, k);
    var r := Put(m, k, v);
    var j := FindBy(r, KeyOf, k);
    assert r[i].key == k;
    assert j == i;
  }

  lemma KeysSnoc<V>(m: seq<Entry<V>>)
    requires m != []
    ensures Keys(m) == Keys(m[..|m| - 1]) + {m[|m| - 1].key}
  {
    var p := m[..|m| - 1];
    forall x | x in Keys(m) ensures x in Keys(p) + {m[|m| - 1].key} {
      var i :| 0 <= i < |m| && m[i].key == x;
      if i < |p| { assert p[i].key == x; }
    }
    forall x | x in Keys(p) ensures x in Keys(m) {
      var i :| 0 <= i < |p| && p[i].key == x;
      assert m[i].key == x;
    }
  }

  /** A new key goes to the end; an existing key keeps its place. */
  lemma PutPlace<V>(m: seq<Entry<V>>, k: string, v: V)
    requires Valid(m)
    ensures k !in Keys(m) ==> Put(m, k, v) == m + [Entry(k, v)]
    ensures k in Keys(m) ==>
              && |Put(m, k, v)| == |m|
              && forall i :: 0 <= i < |m| ==> Put(m, k, v)[i] == if m[i].key == k then Entry(k, v) else m[i]
  {
    var i := FindBy(m, KeyOf, k);
    if i == |m| {
      assert k !in Keys(m);
    } else {
      assert m[i].key == k;
    }
  }

  /** `set` changes a column sum by the new entry minus the entry it replaces. */
  lemma PutSum<V>(m: seq<Entry<V>>, k: string, v: V, f: Entry<V> -> real)
    requires Valid(m)
    ensures SumOf(Put(m, k, v), f)
         == SumOf(m, f) + f(Entry(k, v)) - (if k in Keys(m) then f(Entry(k, Get(m, k).value)) else 0.0)
  {
    var i := FindBy(m, KeyOf, k);
    GetSpec(m, k);
    if i < |m| {
      assert Put(m, k, v) == m[i := Entry(k, v)];
      assert m[i] == Entry(k, Get(m, k).value);
      SumOfUpdate(m, i, Entry(k, v), f);
    } else {
      assert k !in Keys(m);
      SumOfAppend(m, Entry(k, v), f);
    }
  }
}
