/**
 * PHP arrays with keys: an ordered sequence of (key, value) entries in
 * insertion order. Writing an existing key overwrites its entry in place,
 * writing a new key appends an entry.
 */
module OrderedMaps {
  import opened Wrappers

  type OrderedMap<K, V> = seq<(K, V)>

  function Keys<K, V>(m: OrderedMap<K, V>): seq<K>
  {
    seq(|m|, i requires 0 <= i < |m| => m[i].0)
  }

  /** A PHP array never holds the same key twice. */
  predicate DistinctKeys<K(==), V>(m: OrderedMap<K, V>)
  {
    forall i, j :: 0 <= i < j < |m| ==> m[i].0 != m[j].0
  }

  /** The value stored under `k`, or None when the key is absent. */
  function Lookup<K(==), V>(m: OrderedMap<K, V>, k: K): (r: Option<V>)
    ensures r.Some? <==> k in Keys(m)
  {
    if m == [] then None
    else
      assert Keys(m) == [m[0].0] + Keys(m[1..]);
      if m[0].0 == k then Some(m[0].1) else Lookup(m[1..], k)
  }

  /** `$m[$k] = $v`: overwrite in place when `k` is present, append otherwise. */
  function Put<K(==), V>(m: OrderedMap<K, V>, k: K, v: V): OrderedMap<K, V>
  {
    if k in Keys(m) then seq(|m|, i requires 0 <= i < |m| => if m[i].0 == k then (k, v) else m[i])
    else m + [(k, v)]
  }

  /** `unset($m[$k])`: drop the entry for `k`. */
  function Remove<K(==,!new), V>(m: OrderedMap<K, V>, k: K): (r: OrderedMap<K, V>)
    ensures forall x :: x in Keys(r) <==> x in Keys(m) && x != k
  {
    if m == [] then []
    else
      assert Keys(m) == [m[0].0] + Keys(m[1..]);
      var rest := Remove(m[1..], k);
      if m[0].0 == k then rest
      else
        assert Keys([m[0]] + rest) == [m[0].0] + Keys(rest);
        [m[0]] + rest
  }

  lemma {:induction false} LookupAt<K, V>(m: OrderedMap<K, V>, i: int)
    requires DistinctKeys(m) && 0 <= i < |m|
    ensures Lookup(m, m[i].0) == Some(m[i].1)
  {
    if i > 0 {
      assert m[0].0 != m[i].0;
      assert m[1..][i - 1] == m[i];
      LookupAt(m[1..], i - 1);
    }
  }

  /** Put keeps the keys distinct and the existing keys in their order. */
  lemma PutKeys<K, V>(m: OrderedMap<K, V>, k: K, v: V)
    requires DistinctKeys(m)
    ensures DistinctKeys(Put(m, k, v))
    ensures |Put(m, k, v)| == if k in Keys(m) then |m| else |m| + 1
    ensures Keys(Put(m, k, v))[..|m|] == Keys(m)
  {
    var r := Put(m, k, v);
    if k in Keys(m) {
      assert forall i :: 0 <= i < |m| ==> r[i].0 == m[i].0;
    } else {
      assert forall i :: 0 <= i < |m| ==> Keys(m)[i] == m[i].0 && r[i] == m[i];
    }
  }

  /** Put stores `v` under `k` and leaves every other key's value alone. */
  lemma PutSpec<K, V>(m: OrderedMap<K, V>, k: K, v: V)
    requires DistinctKeys(m)
    ensures DistinctKeys(Put(m, k, v))
    ensures Lookup(Put(m, k, v), k) == Some(v)
    ensures forall x :: x != k ==> Lookup(Put(m, k, v), x) == Lookup(m, x)
  {
    PutKeys(m, k, v);
    var r := Put(m, k, v);
    var j :| 0 <= j < |r| && r[j].0 == k;
    LookupAt(r, j);
    forall x | x != k
      ensures Lookup(r, x) == Lookup(m, x)
    {
      if x in Keys(m) {
        var i :| 0 <= i < |m| && m[i].0 == x;
        LookupAt(m, i);
        assert r[i] == m[i];
        LookupAt(r, i);
      } else {
        assert x !in Keys(r);
      }
    }
  }

  /** Remove makes `k` absent and leaves every other key's value alone. */
  lemma {:induction false} RemoveSpec<K(!new), V>(m: OrderedMap<K, V>, k: K)
    requires DistinctKeys(m)
    ensures DistinctKeys(Remove(m, k))
    ensures Lookup(Remove(m, k), k) == None
    ensures forall x :: x != k ==> Lookup(Remove(m, k), x) == Lookup(m, x)
  {
    if m != [] {
      RemoveSpec(m[1..], k);
      var rest := Remove(m[1..], k);
      if m[0].0 != k {
        var r := [m[0]] + rest;
        assert m[0].0 !in Keys(m[1..]);
        assert forall j :: 0 <= j < |rest| ==> Keys(rest)[j] == rest[j].0;
        assert DistinctKeys(r);
      }
    }
  }
}
