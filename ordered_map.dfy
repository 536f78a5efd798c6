/** A Python `dict` as the solver uses it: keys in first-insertion order, and assigning to a
    key that is already present replaces its value in place. */
module OrderedMap {
  import opened Wrappers

  /** The entries of a dictionary, in iteration order. */
  type Dict<K, V> = seq<(K, V)>

  function Keys<K, V>(d: Dict<K, V>): (ks: seq<K>)
    ensures |ks| == |d| && forall i | 0 <= i < |d| :: ks[i] == d[i].0
  {
    seq(|d|, i requires 0 <= i < |d| => d[i].0)
  }

  /** No key occurs twice. */
  predicate DistinctKeys<K(==), V>(d: Dict<K, V>) {
    forall i, j | 0 <= i < j < |d| :: d[i].0 != d[j].0
  }

  /** The index of `k`'s entry, or |d| when there is none. */
  function IndexOf<K(==), V>(d: Dict<K, V>, k: K): (i: nat)
    ensures i <= |d|
    ensures i < |d| ==> d[i].0 == k
    ensures forall j | 0 <= j < i :: d[j].0 != k
  {
    if d == [] then 0
    else if d[0].0 == k then 0
    else 1 + IndexOf(d[1..], k)
  }

  /** `IndexOf` is the first index holding `k`, or |d|. */
  lemma IndexOfUnique<K, V>(d: Dict<K, V>, k: K, i: nat)
    requires i <= |d| && (i < |d| ==> d[i].0 == k) && forall j | 0 <= j < i :: d[j].0 != k
    ensures IndexOf(d, k) == i
  {
    var m := IndexOf(d, k);
    assert m <= i by {
      if i < |d| {
        assert d[i].0 == k;
      }
    }
  }

  /** `d.get(k)`. */
  function Lookup<K(==), V>(d: Dict<K, V>, k: K): (r: Option<V>)
    ensures r.None? <==> k !in Keys(d)
  {
    var i := IndexOf(d, k);
    if i < |d| then Some(d[i].1) else None
  }

  /** `d[k] = v`. */
  function Put<K(==), V>(d: Dict<K, V>, k: K, v: V): Dict<K, V> {
    var i := IndexOf(d, k);
    if i < |d| then d[i := (k, v)] else d + [(k, v)]
  }

  /** After `d[k] = v`, `k` maps to `v` and every other key keeps its value. */
  lemma PutLookup<K, V>(d: Dict<K, V>, k: K, v: V)
    ensures Lookup(Put(d, k, v), k) == Some(v)
    ensures forall k' | k' != k :: Lookup(Put(d, k, v), k') == Lookup(d, k')
  {
    var i := IndexOf(d, k);
    var r := Put(d, k, v);
    if i < |d| {
      IndexOfUnique(r, k, i);
      forall k' | k' != k
        ensures Lookup(r, k') == Lookup(d, k')
      {
        var j := IndexOf(d, k');
        IndexOfUnique(r, k', j);
      }
    } else {
      IndexOfUnique(r, k, |d|);
      forall k' | k' != k
        ensures Lookup(r, k') == Lookup(d, k')
      {
        var j := IndexOf(d, k');
        IndexOfUnique(r, k', if j < |d| then j else |d| + 1);
      }
    }
  }

  /** Assignment keeps the keys distinct, leaves the key order alone when the key is present
      and appends it otherwise, and makes `k` map to `v` while every other key keeps its value. */
  lemma PutMeaning<K, V>(d: Dict<K, V>, k: K, v: V)
    requires DistinctKeys(d)
    ensures DistinctKeys(Put(d, k, v))
    ensures k in Keys(d) ==> Keys(Put(d, k, v)) == Keys(d)
    ensures k !in Keys(d) ==> Keys(Put(d, k, v)) == Keys(d) + [k]
    ensures Lookup(Put(d, k, v), k) == Some(v)
    ensures forall k' | k' != k :: Lookup(Put(d, k, v), k') == Lookup(d, k')
  {
    var r := Put(d, k, v);
    PutLookup(d, k, v);
    if IndexOf(d, k) < |d| {
      assert Keys(r) == Keys(d);
    } else {
      assert Keys(r) == Keys(d) + [k];
    }
  }
}
