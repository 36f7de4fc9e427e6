/**
  A Python `dict`: a sequence of (key, value) entries kept in insertion order.
  Assigning to a key that is already present replaces its value where it stands;
  assigning to a new key appends an entry at the end.
 */
module OrderedDict {
  import opened Wrappers

  type Dict<K, V> = seq<(K, V)>

  /** The keys, in iteration order (`list(d.keys())`). */
  function Keys<K, V>(d: Dict<K, V>): (ks: seq<K>)
    ensures |ks| == |d|
    ensures forall i {:trigger ks[i]} :: 0 <= i < |d| ==> ks[i] == d[i].0
  {
    if d == [] then [] else [d[0].0] + Keys(d[1..])
  }

  /** No key occurs twice, as in every Python dict. */
  predicate DistinctKeys<K(==), V>(d: Dict<K, V>) {
    forall i, j :: 0 <= i < j < |d| ==> d[i].0 != d[j].0
  }

  /** `d.get(k)`: the value stored under `k`, if any. */
  function Get<K(==), V>(d: Dict<K, V>, k: K): (r: Option<V>)
    ensures r.None? <==> k !in Keys(d)
    ensures r.Some? ==> exists i :: 0 <= i < |d| && d[i].0 == k && d[i].1 == r.value
  {
    if d == [] then None
    else if d[0].0 == k then Some(d[0].1)
    else Get(d[1..], k)
  }

  /** `d[k] = v`: overwrite in place when `k` is present, append otherwise. */
  function Put<K(==), V>(d: Dict<K, V>, k: K, v: V): (r: Dict<K, V>)
    ensures Keys(r) == if k in Keys(d) then Keys(d) else Keys(d) + [k]
  {
    if d == [] then [(k, v)]
    else if d[0].0 == k then [(k, v)] + d[1..]
    else [d[0]] + Put(d[1..], k, v)
  }

  /** The value of the LAST entry of `kvs` whose key is `k`, if any. */
  function LastGet<K(==), V>(kvs: seq<(K, V)>, k: K): (r: Option<V>)
    ensures r.None? <==> k !in Keys(kvs)
  {
    if kvs == [] then None
    else
      KeysSnoc(kvs);
      if kvs[|kvs| - 1].0 == k then Some(kvs[|kvs| - 1].1)
      else LastGet(kvs[..|kvs| - 1], k)
  }

  /** `for k, v in kvs: d[k] = v` */
  function PutAll<K(==), V>(d: Dict<K, V>, kvs: seq<(K, V)>): (r: Dict<K, V>)
    ensures |d| <= |r| && Keys(r)[..|d|] == Keys(d)
  {
    if kvs == [] then d
    else Put(PutAll(d, kvs[..|kvs| - 1]), kvs[|kvs| - 1].0, kvs[|kvs| - 1].1)
  }

  /** One more assignment at the end of a run. */
  lemma PutAllSnoc<K, V>(d: Dict<K, V>, kvs: seq<(K, V)>, i: nat)
    requires i < |kvs|
    ensures PutAll(d, kvs[..i + 1]) == Put(PutAll(d, kvs[..i]), kvs[i].0, kvs[i].1)
  {
    assert kvs[..i + 1][..i] == kvs[..i];
  }

  /** The keys of a dict with one more entry at the end. */
  lemma KeysSnoc<K, V>(d: Dict<K, V>)
    requires d != []
    ensures Keys(d) == Keys(d[..|d| - 1]) + [d[|d| - 1].0]
  {
    var n := |d| - 1;
    var a := Keys(d);
    var b := Keys(d[..n]) + [d[n].0];
    forall i | 0 <= i < |a|
      ensures a[i] == b[i]
    {
      if i < n {
        assert d[..n][i] == d[i];
        assert b[i] == Keys(d[..n])[i];
      }
    }
  }

  /** In a dict without repeated keys, `get` returns the value of the one entry with that key. */
  lemma {:induction false} GetDistinct<K, V>(d: Dict<K, V>, i: nat)
    requires DistinctKeys(d) && i < |d|
    ensures Get(d, d[i].0) == Some(d[i].1)
  {
    if i > 0 {
      GetDistinct(d[1..], i - 1);
    }
  }

  /** Assignment stores `v` under `k` and leaves every other key's value as it was. */
  lemma {:induction false} GetPut<K, V>(d: Dict<K, V>, k: K, v: V, k': K)
    ensures Get(Put(d, k, v), k') == if k' == k then Some(v) else Get(d, k')
  {
    if d != [] && d[0].0 != k {
      GetPut(d[1..], k, v, k');
    }
  }

  /** Assignment keeps every entry with another key at its index. */
  lemma {:induction false} PutInPlace<K, V>(d: Dict<K, V>, k: K, v: V, i: nat)
    requires i < |d| && d[i].0 != k
    ensures i < |Put(d, k, v)| && Put(d, k, v)[i] == d[i]
  {
    if d[0].0 != k && i > 0 {
      PutInPlace(d[1..], k, v, i - 1);
    }
  }

  /** Assignment never creates a repeated key. */
  lemma PutDistinct<K, V>(d: Dict<K, V>, k: K, v: V)
    requires DistinctKeys(d)
    ensures DistinctKeys(Put(d, k, v))
  {
    var r := Put(d, k, v);
    forall i, j | 0 <= i < j < |r| ensures r[i].0 != r[j].0 {
      assert Keys(r)[i] == r[i].0 && Keys(r)[j] == r[j].0;
    }
  }

  /** After a run of assignments, a key holds the value it was last assigned, or its old value. */
  lemma {:induction false} GetPutAll<K, V>(d: Dict<K, V>, kvs: seq<(K, V)>, k: K)
    ensures Get(PutAll(d, kvs), k) == if LastGet(kvs, k).Some? then LastGet(kvs, k) else Get(d, k)
  {
    if kvs != [] {
      var last := kvs[|kvs| - 1];
      GetPutAll(d, kvs[..|kvs| - 1], k);
      GetPut(PutAll(d, kvs[..|kvs| - 1]), last.0, last.1, k);
    }
  }

  /** The keys after a run of assignments are the old keys and the assigned ones. */
  lemma {:induction false} PutAllKeys<K, V>(d: Dict<K, V>, kvs: seq<(K, V)>, k: K)
    ensures k in Keys(PutAll(d, kvs)) <==> k in Keys(d) || k in Keys(kvs)
  {
    if kvs != [] {
      var init := kvs[..|kvs| - 1];
      var last := kvs[|kvs| - 1];
      PutAllKeys(d, init, k);
      KeysSnoc(kvs);
      assert k in Keys(PutAll(d, kvs)) <==> k in Keys(PutAll(d, init)) || k == last.0;
    }
  }

  /** A run of assignments never creates a repeated key. */
  lemma {:induction false} PutAllDistinct<K, V>(d: Dict<K, V>, kvs: seq<(K, V)>)
    requires DistinctKeys(d)
    ensures DistinctKeys(PutAll(d, kvs))
  {
    if kvs != [] {
      var init := kvs[..|kvs| - 1];
      var last := kvs[|kvs| - 1];
      PutAllDistinct(d, init);
      PutDistinct(PutAll(d, init), last.0, last.1);
    }
  }

  /** `LastGet` finds the value of the last entry with the key. */
  lemma {:induction false} LastGetIsLast<K, V>(kvs: seq<(K, V)>, i: nat)
    requires i < |kvs|
    requires forall j :: i < j < |kvs| ==> kvs[j].0 != kvs[i].0
    ensures LastGet(kvs, kvs[i].0) == Some(kvs[i].1)
  {
    if i < |kvs| - 1 {
      LastGetIsLast(kvs[..|kvs| - 1], i);
    }
  }

  /** Whatever `LastGet` finds is the value of some entry with the key. */
  lemma {:induction false} LastGetFound<K, V>(kvs: seq<(K, V)>, k: K)
    requires LastGet(kvs, k).Some?
    ensures exists i :: 0 <= i < |kvs| && kvs[i].0 == k && kvs[i].1 == LastGet(kvs, k).value
  {
    if kvs[|kvs| - 1].0 != k {
      LastGetFound(kvs[..|kvs| - 1], k);
      var i :| 0 <= i < |kvs| - 1 && kvs[i].0 == k && kvs[i].1 == LastGet(kvs, k).value;
      assert kvs[..|kvs| - 1][i] == kvs[i];
    }
  }

  /** Reading back a dict extended by one new entry at the end. */
  lemma {:induction false} GetAppend<K, V>(d: Dict<K, V>, k: K, v: V, k': K)
    ensures Get(d + [(k, v)], k') == if k' in Keys(d) then Get(d, k') else if k' == k then Some(v) else None
  {
    if d != [] {
      assert (d + [(k, v)])[1..] == d[1..] + [(k, v)];
      GetAppend(d[1..], k, v, k');
    }
  }
}
