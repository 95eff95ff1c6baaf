/**
 * Python's insertion-ordered dictionaries (`dict`, `OrderedDict`) as
 * sequences of key/value pairs: assigning to an existing key keeps its
 * position, assigning to a new key appends it.
 */
module OrderedMap {
  import opened Common

  function Keys<K, V>(m: seq<(K, V)>): (r: seq<K>)
    ensures |r| == |m| && forall i :: 0 <= i < |m| ==> r[i] == m[i].0
  {
    if m == [] then [] else [m[0].0] + Keys(m[1..])
  }

  /** `m.get(k)`. */
  function Get<K(==), V>(m: seq<(K, V)>, k: K): (r: Option<V>)
    ensures r.None? <==> k !in Keys(m)
  {
    if m == [] then None else if m[0].0 == k then Some(m[0].1) else Get(m[1..], k)
  }

  /** `m[k] = v`. */
  function Put<K(==,!new), V>(m: seq<(K, V)>, k: K, v: V): (r: seq<(K, V)>)
    ensures Keys(r) == if k in Keys(m) then Keys(m) else Keys(m) + [k]
    ensures Get(r, k) == Some(v)
    ensures forall j :: j != k ==> Get(r, j) == Get(m, j)
  {
    if m == [] then [(k, v)]
    else if m[0].0 == k then [(k, v)] + m[1..]
    else
      var r := [m[0]] + Put(m[1..], k, v);
      assert Keys(m) == [m[0].0] + Keys(m[1..]);
      assert Keys(r) == [m[0].0] + Keys(Put(m[1..], k, v));
      r
  }

  /** What `get` finds is one of the pairs of the map. */
  lemma {:induction false} GetIn<K, V>(m: seq<(K, V)>, k: K)
    requires Get(m, k).Some?
    ensures (k, Get(m, k).value) in m
  {
    if m[0].0 != k {
      GetIn(m[1..], k);
    }
  }

  /** Two assignments to an empty map under different keys keep both, in order. */
  lemma PutTwo<K(!new), V>(a: K, va: V, b: K, vb: V)
    requires a != b
    ensures Put(Put([], a, va), b, vb) == [(a, va), (b, vb)]
  {
    assert Put([], a, va) == [(a, va)];
    assert [(a, va)][1..] == [];
    assert Put([], b, vb) == [(b, vb)];
  }

  /** Assigning the same key twice keeps one pair. */
  lemma PutSameTwice<K(!new), V>(a: K, v: V, w: V)
    ensures Put(Put([], a, v), a, w) == [(a, w)]
  {
    assert Put([], a, v) == [(a, v)];
    assert [(a, v)][1..] == [];
  }

  ghost predicate DistinctKeys<K, V>(m: seq<(K, V)>) {
    forall i, j :: 0 <= i < j < |m| ==> m[i].0 != m[j].0
  }

  /** Assignment never duplicates a key. */
  lemma PutDistinct<K(!new), V>(m: seq<(K, V)>, k: K, v: V)
    requires DistinctKeys(m)
    ensures DistinctKeys(Put(m, k, v))
  {
    var r := Put(m, k, v);
    forall i, j | 0 <= i < j < |r| ensures r[i].0 != r[j].0 {
      assert Keys(r)[i] == r[i].0 && Keys(r)[j] == r[j].0;
      if k !in Keys(m) && j == |m| {
        assert Keys(r)[i] == Keys(m)[i];
      } else {
        assert Keys(r)[i] == Keys(m)[i] && Keys(r)[j] == Keys(m)[j];
      }
    }
  }
}
