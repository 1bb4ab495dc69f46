/**
 * Python dicts: key/value pairs in insertion order. Assigning to a key that
 * is already present replaces its value in place (the key keeps its
 * position); assigning to a new key appends it.
 */
module Dicts {
  import opened Outcomes

  type Dict<K, V> = seq<(K, V)>

  predicate IsDict<K(==), V>(d: Dict<K, V>) {
    forall i, j :: 0 <= i < j < |d| ==> d[i].0 != d[j].0
  }

  /** The keys in iteration order (`for k in d`). */
  function Keys<K, V>(d: Dict<K, V>): seq<K> {
    if d == [] then [] else [d[0].0] + Keys(d[1..])
  }

  /** The values in iteration order (`d.values()`). */
  function Values<K, V>(d: Dict<K, V>): seq<V> {
    if d == [] then [] else [d[0].1] + Values(d[1..])
  }

  /** d[k], with None where Python raises KeyError. */
  function Lookup<K(==), V>(d: Dict<K, V>, k: K): Option<V> {
    if d == [] then None else if d[0].0 == k then Some(d[0].1) else Lookup(d[1..], k)
  }

  /** d[k] = v */
  function Put<K(==), V>(d: Dict<K, V>, k: K, v: V): (r: Dict<K, V>)
    ensures |r| == if Lookup(d, k).Some? then |d| else |d| + 1
  {
    if d == [] then [(k, v)]
    else if d[0].0 == k then [(k, v)] + d[1..]
    else [d[0]] + Put(d[1..], k, v)
  }

  /** After `d[k] = v`, k maps to v and every other key maps to what it did. */
  lemma {:induction false} LookupPut<K, V>(d: Dict<K, V>, k: K, v: V, k': K)
    ensures Lookup(Put(d, k, v), k') == if k' == k then Some(v) else Lookup(d, k')
  {
    if d != [] && d[0].0 != k {
      var r := Put(d, k, v);
      assert r[1..] == Put(d[1..], k, v);
      LookupPut(d[1..], k, v, k');
    }
  }

  /** `d[k] = v` keeps the key order, adding k at the end when it is new. */
  lemma {:induction false} KeysPut<K, V>(d: Dict<K, V>, k: K, v: V)
    ensures Keys(Put(d, k, v)) == if Lookup(d, k).Some? then Keys(d) else Keys(d) + [k]
  {
    if d != [] && d[0].0 != k {
      var r := Put(d, k, v);
      assert r[1..] == Put(d[1..], k, v);
      KeysPut(d[1..], k, v);
    }
  }

  /** A second assignment to the same key overrides the first. */
  lemma {:induction false} PutPut<K, V>(d: Dict<K, V>, k: K, v: V, w: V)
    ensures Put(Put(d, k, v), k, w) == Put(d, k, w)
  {
    if d != [] && d[0].0 != k {
      var r := Put(d, k, v);
      assert r[1..] == Put(d[1..], k, v);
      PutPut(d[1..], k, v, w);
    }
  }

  lemma {:induction false} KeysAt<K, V>(d: Dict<K, V>)
    ensures |Keys(d)| == |d|
    ensures forall i :: 0 <= i < |d| ==> Keys(d)[i] == d[i].0
  {
    if d != [] {
      KeysAt(d[1..]);
    }
  }

  /** A key is stored exactly when looking it up succeeds. */
  lemma {:induction false} LookupIffKey<K, V>(d: Dict<K, V>, k: K)
    ensures Lookup(d, k).Some? <==> k in Keys(d)
  {
    if d != [] {
      LookupIffKey(d[1..], k);
    }
  }

  /** In a dict, the lookup of a stored key yields the value stored with it. */
  lemma {:induction false} LookupAt<K, V>(d: Dict<K, V>, i: nat)
    requires IsDict(d) && i < |d|
    ensures Lookup(d, d[i].0) == Some(d[i].1)
  {
    if i > 0 {
      LookupAt(d[1..], i - 1);
    }
  }

  /** Assigning to a key preserves the dict property. */
  lemma {:induction false} PutIsDict<K, V>(d: Dict<K, V>, k: K, v: V)
    requires IsDict(d)
    ensures IsDict(Put(d, k, v))
  {
    if d != [] && d[0].0 != k {
      PutIsDict(d[1..], k, v);
      var r := Put(d, k, v);
      assert r[1..] == Put(d[1..], k, v);
      KeysPut(d[1..], k, v);
      KeysAt(d[1..]);
      KeysAt(Put(d[1..], k, v));
      LookupIffKey(d[1..], k);
      forall j | 1 <= j < |r|
        ensures r[j].0 != d[0].0
      {
        assert r[j].0 == Keys(Put(d[1..], k, v))[j - 1];
        assert r[j].0 in Keys(d[1..]) + [k];
      }
    }
  }

  /** Storing under a new key appends the pair. */
  lemma {:induction false} PutNew<K, V>(d: Dict<K, V>, k: K, v: V)
    requires Lookup(d, k).None?
    ensures Put(d, k, v) == d + [(k, v)]
  {
    if d != [] {
      PutNew(d[1..], k, v);
      assert d == [d[0]] + d[1..];
    }
  }

  lemma {:induction false} ValuesSnoc<K, V>(d: Dict<K, V>, k: K, v: V)
    ensures Values(d + [(k, v)]) == Values(d) + [v]
    ensures Keys(d + [(k, v)]) == Keys(d) + [k]
  {
    if d != [] {
      assert (d + [(k, v)])[1..] == d[1..] + [(k, v)];
      ValuesSnoc(d[1..], k, v);
    }
  }

  lemma {:induction false} LookupSnoc<K, V>(d: Dict<K, V>, k: K, v: V, k': K)
    ensures Lookup(d + [(k, v)], k') ==
      if Lookup(d, k').Some? then Lookup(d, k') else if k' == k then Some(v) else None
  {
    if d != [] {
      assert (d + [(k, v)])[1..] == d[1..] + [(k, v)];
      LookupSnoc(d[1..], k, v, k');
    }
  }

  /** In a dict the last key does not occur before it. */
  lemma LastKeyIsNew<K, V>(d: Dict<K, V>)
    requires IsDict(d) && d != []
    ensures IsDict(d[..|d| - 1])
    ensures Lookup(d[..|d| - 1], d[|d| - 1].0).None?
    ensures d[|d| - 1].0 !in Keys(d[..|d| - 1])
  {
    var init := d[..|d| - 1];
    LookupIffKey(init, d[|d| - 1].0);
    KeysAt(init);
  }

  /** Two dicts with the same keys in the same order and the same lookups are equal. */
  lemma Extensionality<K, V>(a: Dict<K, V>, b: Dict<K, V>)
    requires IsDict(a) && IsDict(b)
    requires Keys(a) == Keys(b)
    requires forall k :: Lookup(a, k) == Lookup(b, k)
    ensures a == b
  {
    KeysAt(a);
    KeysAt(b);
    forall i | 0 <= i < |a|
      ensures a[i] == b[i]
    {
      LookupAt(a, i);
      LookupAt(b, i);
    }
  }
}
