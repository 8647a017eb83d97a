/**
 * Python dictionaries as used by the registry parser: entries in insertion
 * order, each key at most once; assigning to an existing key replaces its
 * value in place, assigning to a new key appends an entry.
 */
module PyDict {

  import opened Wrappers

  type Dict<K(==), V> = seq<(K, V)>

  predicate UniqueKeys<K(==), V>(d: Dict<K, V>)
  {
    forall i, j :: 0 <= i < j < |d| ==> d[i].0 != d[j].0
  }

  function KeySet<K(==), V>(d: Dict<K, V>): (ks: set<K>)
    ensures forall i :: 0 <= i < |d| ==> d[i].0 in ks
    ensures forall k :: k in ks ==> exists i :: 0 <= i < |d| && d[i].0 == k
  {
    set i | 0 <= i < |d| :: d[i].0
  }

  function Values<K(==), V>(d: Dict<K, V>): (vs: seq<V>)
    ensures |vs| == |d| && forall i :: 0 <= i < |d| ==> vs[i] == d[i].1
  {
    if d == [] then [] else [d[0].1] + Values(d[1..])
  }

  /** `d[k]`, or None where Python raises KeyError. */
  function Get<K(==), V>(d: Dict<K, V>, k: K): (r: Option<V>)
    ensures r.Some? <==> k in KeySet(d)
    ensures r.Some? ==> (k, r.value) in d
  {
    if d == [] then None
    else if d[0].0 == k then Some(d[0].1)
    else
      var r := Get(d[1..], k);
      assert d == [d[0]] + d[1..];
      KeySetCons(d[0], d[1..]);
      r
  }

  /** `d[k] = v`. */
  function Put<K(==), V>(d: Dict<K, V>, k: K, v: V): (r: Dict<K, V>)
  {
    if d == [] then [(k, v)]
    else if d[0].0 == k then [(k, v)] + d[1..]
    else [d[0]] + Put(d[1..], k, v)
  }

  /**
   * Assignment reads back the new value under its key and leaves every other
   * key's value alone; keys stay unique; an existing key keeps its position
   * and a new key is appended.
   */
  lemma PutSpec<K, V>(d: Dict<K, V>, k: K, v: V)
    requires UniqueKeys(d)
    ensures UniqueKeys(Put(d, k, v))
    ensures KeySet(Put(d, k, v)) == KeySet(d) + {k}
    ensures Get(Put(d, k, v), k) == Some(v)
    ensures forall k' :: k' != k ==> Get(Put(d, k, v), k') == Get(d, k')
    ensures k in KeySet(d) ==> |Put(d, k, v)| == |d| && forall i :: 0 <= i < |d| ==> Put(d, k, v)[i].0 == d[i].0
    ensures k !in KeySet(d) ==> Put(d, k, v) == d + [(k, v)]
  {
    PutKeySet(d, k, v);
    PutShape(d, k, v);
    PutGet(d, k, v);
    PutUnique(d, k, v);
  }

  lemma {:induction false} PutKeySet<K, V>(d: Dict<K, V>, k: K, v: V)
    ensures KeySet(Put(d, k, v)) == KeySet(d) + {k}
  {
    if d == [] {
      assert Put(d, k, v) == [(k, v)] + [];
      KeySetCons((k, v), []);
    } else {
      assert d == [d[0]] + d[1..];
      KeySetCons(d[0], d[1..]);
      if d[0].0 == k {
        assert Put(d, k, v) == [(k, v)] + d[1..];
        KeySetCons((k, v), d[1..]);
      } else {
        PutKeySet(d[1..], k, v);
        KeySetCons(d[0], Put(d[1..], k, v));
      }
    }
  }

  lemma {:induction false} PutShape<K, V>(d: Dict<K, V>, k: K, v: V)
    ensures k in KeySet(d) ==> |Put(d, k, v)| == |d| && forall i :: 0 <= i < |d| ==> Put(d, k, v)[i].0 == d[i].0
    ensures k !in KeySet(d) ==> Put(d, k, v) == d + [(k, v)]
  {
    if d != [] {
      assert d == [d[0]] + d[1..];
      KeySetCons(d[0], d[1..]);
      if d[0].0 != k {
        PutShape(d[1..], k, v);
      }
    }
  }

  lemma {:induction false} PutGet<K, V>(d: Dict<K, V>, k: K, v: V)
    ensures Get(Put(d, k, v), k) == Some(v)
    ensures forall k' :: k' != k ==> Get(Put(d, k, v), k') == Get(d, k')
  {
    if d != [] && d[0].0 != k {
      PutGet(d[1..], k, v);
    }
  }

  lemma PutUnique<K, V>(d: Dict<K, V>, k: K, v: V)
    requires UniqueKeys(d)
    ensures UniqueKeys(Put(d, k, v))
  {
    PutShape(d, k, v);
  }

  /** The loop `for (k, v) in pairs: d[k] = v`. */
  function PutAll<K(==), V>(d: Dict<K, V>, pairs: seq<(K, V)>): (r: Dict<K, V>)
    decreases |pairs|
  {
    if pairs == [] then d else PutAll(Put(d, pairs[0].0, pairs[0].1), pairs[1..])
  }

  /** Filling a dictionary keeps keys unique and holds exactly the keys it was given. */
  lemma {:induction false} PutAllKeys<K, V>(d: Dict<K, V>, pairs: seq<(K, V)>)
    requires UniqueKeys(d)
    ensures UniqueKeys(PutAll(d, pairs))
    ensures KeySet(PutAll(d, pairs)) == KeySet(d) + KeySet(pairs)
    decreases |pairs|
  {
    if pairs != [] {
      PutKeySet(d, pairs[0].0, pairs[0].1);
      PutUnique(d, pairs[0].0, pairs[0].1);
      PutAllKeys(Put(d, pairs[0].0, pairs[0].1), pairs[1..]);
      assert pairs == [pairs[0]] + pairs[1..];
      KeySetCons(pairs[0], pairs[1..]);
    }
  }

  lemma KeySetCons<K, V>(x: (K, V), d: Dict<K, V>)
    ensures KeySet([x] + d) == {x.0} + KeySet(d)
  {
    var l := KeySet([x] + d);
    assert ([x] + d)[0].0 == x.0;
    forall k | k in l ensures k in {x.0} + KeySet(d) {
      var i :| 0 <= i < |[x] + d| && ([x] + d)[i].0 == k;
      if i > 0 { assert d[i - 1].0 == k; }
    }
    forall k | k in KeySet(d) ensures k in l {
      var i :| 0 <= i < |d| && d[i].0 == k;
      assert ([x] + d)[i + 1].0 == k;
    }
  }

  /** The value under a key is the one of the last pair carrying it. */
  lemma {:induction false} PutAllLast<K, V>(d: Dict<K, V>, pairs: seq<(K, V)>, j: nat)
    requires UniqueKeys(d) && j < |pairs|
    requires forall i :: j < i < |pairs| ==> pairs[i].0 != pairs[j].0
    ensures Get(PutAll(d, pairs), pairs[j].0) == Some(pairs[j].1)
    decreases |pairs|
  {
    PutSpec(d, pairs[0].0, pairs[0].1);
    if j == 0 {
      PutAllUntouched(Put(d, pairs[0].0, pairs[0].1), pairs[1..], pairs[0].0);
    } else {
      PutAllLast(Put(d, pairs[0].0, pairs[0].1), pairs[1..], j - 1);
    }
  }

  lemma {:induction false} PutAllUntouched<K, V>(d: Dict<K, V>, pairs: seq<(K, V)>, k: K)
    requires UniqueKeys(d)
    requires forall i :: 0 <= i < |pairs| ==> pairs[i].0 != k
    ensures Get(PutAll(d, pairs), k) == Get(d, k)
    decreases |pairs|
  {
    if pairs != [] {
      PutSpec(d, pairs[0].0, pairs[0].1);
      PutAllUntouched(Put(d, pairs[0].0, pairs[0].1), pairs[1..], k);
    }
  }
}
