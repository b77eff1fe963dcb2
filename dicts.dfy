/** Python dictionaries keep insertion order, and `d[k] = v` overwrites an existing key in
    place or appends a new one. A dictionary is modelled as the sequence of its items. */
module Dicts {
  import opened Wrappers

  type Dict<K, V> = seq<(K, V)>

  function Keys<K, V>(d: Dict<K, V>): (ks: seq<K>)
    ensures |ks| == |d|
    ensures forall i :: 0 <= i < |d| ==> ks[i] == d[i].0
  {
    if |d| == 0 then [] else [d[0].0] + Keys(d[1..])
  }

  /** `k in d` */
  predicate HasKey<K(==), V>(d: Dict<K, V>, k: K) {
    k in Keys(d)
  }

  /** `d.get(k)`: the value of the first item with key `k`. */
  function Get<K(==), V>(d: Dict<K, V>, k: K): (r: Option<V>)
    ensures r.Some? <==> HasKey(d, k)
  {
    if |d| == 0 then None
    else if d[0].0 == k then Some(d[0].1)
    else Get(d[1..], k)
  }

  /** `d[k] = v` */
  function Put<K(==), V>(d: Dict<K, V>, k: K, v: V): Dict<K, V> {
    if |d| == 0 then [(k, v)]
    else if d[0].0 == k then [(k, v)] + d[1..]
    else [d[0]] + Put(d[1..], k, v)
  }

  /** No key occurs twice: true of every Python dictionary. */
  ghost predicate DistinctKeys<K, V>(d: Dict<K, V>) {
    forall i, j :: 0 <= i < j < |d| ==> d[i].0 != d[j].0
  }

  lemma GetPutSame<K, V>(d: Dict<K, V>, k: K, v: V)
    ensures Get(Put(d, k, v), k) == Some(v)
  {
  }

  lemma GetPutOther<K, V>(d: Dict<K, V>, k: K, v: V, k': K)
    requires k' != k
    ensures Get(Put(d, k, v), k') == Get(d, k')
  {
  }

  lemma KeysPutAbsent<K, V>(d: Dict<K, V>, k: K, v: V)
    requires !HasKey(d, k)
    ensures Put(d, k, v) == d + [(k, v)]
  {
  }

  lemma KeysPutPresent<K, V>(d: Dict<K, V>, k: K, v: V)
    requires HasKey(d, k)
    ensures Keys(Put(d, k, v)) == Keys(d)
  {
  }

  lemma PutPut<K, V>(d: Dict<K, V>, k: K, v: V, w: V)
    ensures Put(Put(d, k, v), k, w) == Put(d, k, w)
  {
  }

  lemma HasKeyPut<K, V>(d: Dict<K, V>, k: K, v: V, k': K)
    ensures HasKey(Put(d, k, v), k') <==> k' == k || HasKey(d, k')
  {
  }

  lemma {:induction false} DistinctKeysPut<K, V>(d: Dict<K, V>, k: K, v: V)
    requires DistinctKeys(d)
    ensures DistinctKeys(Put(d, k, v))
  {
    if HasKey(d, k) {
      KeysPutPresent(d, k, v);
      var p := Put(d, k, v);
      assert forall i :: 0 <= i < |p| ==> p[i].0 == Keys(p)[i] == Keys(d)[i] == d[i].0;
    } else {
      KeysPutAbsent(d, k, v);
    }
  }

  /** In a dictionary without repeated keys, `Get` finds the item at its position. */
  lemma {:induction false} GetAt<K, V>(d: Dict<K, V>, i: nat)
    requires DistinctKeys(d) && i < |d|
    ensures Get(d, d[i].0) == Some(d[i].1)
  {
    if i > 0 {
      assert d[0].0 != d[i].0;
      assert d[1..][i - 1] == d[i];
      GetAt(d[1..], i - 1);
    }
  }

  /** Looking up a key after appending an item: earlier items win. */
  lemma {:induction false} GetAppend<K, V>(d: Dict<K, V>, x: (K, V), k: K)
    ensures Get(d + [x], k) == if HasKey(d, k) then Get(d, k) else if x.0 == k then Some(x.1) else None
  {
    if |d| > 0 {
      assert (d + [x])[1..] == d[1..] + [x];
      GetAppend(d[1..], x, k);
    }
  }

  /** Looking up a key that the first part of a concatenation holds: the first part wins. */
  lemma {:induction false} GetConcatFirst<K, V>(a: Dict<K, V>, b: Dict<K, V>, k: K)
    requires HasKey(a, k)
    ensures Get(a + b, k) == Get(a, k)
  {
    assert (a + b)[0] == a[0];
    if a[0].0 != k {
      assert (a + b)[1..] == a[1..] + b;
      GetConcatFirst(a[1..], b, k);
    }
  }
}
