/**
 * Python dictionaries as ordered association lists. A dict iterates in
 * insertion order, assigning to a present key replaces its value where it
 * stands, and assigning to a new key appends it; `Put` is that assignment.
 */
module Assoc {
  import opened Wrappers

  type Pairs<K, V> = seq<(K, V)>

  function Keys<K, V>(m: Pairs<K, V>): (ks: seq<K>)
    ensures |ks| == |m|
    ensures forall i :: 0 <= i < |m| ==> ks[i] == m[i].0
  {
    if m == [] then [] else [m[0].0] + Keys(m[1..])
  }

  predicate DistinctKeys<K(==), V>(m: Pairs<K, V>) {
    forall i, j :: 0 <= i < j < |m| ==> m[i].0 != m[j].0
  }

  /** `d.get(k)`: the value of the first pair with key `k`. */
  function Get<K(==), V>(m: Pairs<K, V>, k: K): Option<V>
  {
    if m == [] then None
    else if m[0].0 == k then Some(m[0].1)
    else Get(m[1..], k)
  }

  /** `d.get(k)` finds a value exactly when `k` is a key, and the value is stored under `k`. */
  lemma {:induction false} GetFound<K, V>(m: Pairs<K, V>, k: K)
    ensures Get(m, k).None? <==> k !in Keys(m)
    ensures Get(m, k).Some? ==> (k, Get(m, k).value) in m
    decreases |m|
  {
    if m != [] {
      GetFound(m[1..], k);
      assert Keys(m) == [m[0].0] + Keys(m[1..]);
      if Get(m, k).Some? && m[0].0 != k {
        assert (k, Get(m, k).value) in m[1..];
      }
    }
  }

  /** `d.get(k, default)`. */
  function GetOr<K(==), V>(m: Pairs<K, V>, k: K, default: V): V
  {
    match Get(m, k)
    case Some(v) => v
    case None => default
  }

  /** `d[k] = v`. */
  function Put<K(==), V>(m: Pairs<K, V>, k: K, v: V): Pairs<K, V>
  {
    if m == [] then [(k, v)]
    else if m[0].0 == k then [(k, v)] + m[1..]
    else [m[0]] + Put(m[1..], k, v)
  }

  /** Assigning to a present key keeps the keys where they stand; a new key is appended. */
  lemma {:induction false} PutShape<K, V>(m: Pairs<K, V>, k: K, v: V)
    ensures k in Keys(m) ==> |Put(m, k, v)| == |m| && Keys(Put(m, k, v)) == Keys(m)
    ensures k !in Keys(m) ==> Put(m, k, v) == m + [(k, v)]
    decreases |m|
  {
    if m != [] {
      PutShape(m[1..], k, v);
      assert Keys(m) == [m[0].0] + Keys(m[1..]);
      if m[0].0 == k {
        assert Keys(Put(m, k, v)) == [k] + Keys(m[1..]);
      } else {
        assert Keys(Put(m, k, v)) == [m[0].0] + Keys(Put(m[1..], k, v));
      }
    }
  }

  /** Assignment introduces no pair other than `(k, v)`. */
  lemma {:induction false} PutPairs<K, V>(m: Pairs<K, V>, k: K, v: V)
    ensures (k, v) in Put(m, k, v)
    ensures forall p :: p in Put(m, k, v) ==> p in m || p == (k, v)
    decreases |m|
  {
    if m != [] && m[0].0 != k {
      PutPairs(m[1..], k, v);
    }
  }

  /** The assignments `kvs` applied in order to `m`. */
  function PutAll<K(==), V>(m: Pairs<K, V>, kvs: Pairs<K, V>): Pairs<K, V>
    decreases |kvs|
  {
    if kvs == [] then m
    else
      var n := |kvs| - 1;
      Put(PutAll(m, kvs[..n]), kvs[n].0, kvs[n].1)
  }

  /** The value of the last assignment to `k` in `kvs`, if any. */
  function LastValue<K(==), V>(kvs: Pairs<K, V>, k: K): Option<V>
    decreases |kvs|
  {
    if kvs == [] then None
    else if kvs[|kvs| - 1].0 == k then Some(kvs[|kvs| - 1].1)
    else LastValue(kvs[..|kvs| - 1], k)
  }

  /** After `d[k] = v`, `d[k]` is `v` and every other key reads as before. */
  lemma {:induction false} GetPut<K, V>(m: Pairs<K, V>, k: K, v: V, k': K)
    ensures Get(Put(m, k, v), k') == if k' == k then Some(v) else Get(m, k')
    decreases |m|
  {
    if m != [] && m[0].0 != k {
      GetPut(m[1..], k, v, k');
      assert Put(m, k, v)[1..] == Put(m[1..], k, v);
    }
  }

  /** Assignment keeps keys distinct. */
  lemma PutDistinct<K, V>(m: Pairs<K, V>, k: K, v: V)
    requires DistinctKeys(m)
    ensures DistinctKeys(Put(m, k, v))
  {
    var r := Put(m, k, v);
    PutShape(m, k, v);
    if k in Keys(m) {
      PutKeepsOthers(m, k, v);
      assert forall i :: 0 <= i < |r| ==> r[i].0 == Keys(r)[i] == Keys(m)[i] == m[i].0;
    } else {
      forall i, j | 0 <= i < j < |r| ensures r[i].0 != r[j].0 {
        if j == |m| {
          assert m[i].0 == Keys(m)[i];
        }
      }
    }
  }

  /** Assignment changes only the value stored under `k`. */
  lemma {:induction false} PutKeepsOthers<K, V>(m: Pairs<K, V>, k: K, v: V)
    ensures k in Keys(m) ==>
      |Put(m, k, v)| == |m| && forall i :: 0 <= i < |m| && m[i].0 != k ==> Put(m, k, v)[i] == m[i]
    decreases |m|
  {
    PutShape(m, k, v);
    if m != [] && m[0].0 != k {
      PutKeepsOthers(m[1..], k, v);
      PutShape(m[1..], k, v);
      if k in Keys(m) {
        assert Keys(m) == [m[0].0] + Keys(m[1..]);
        forall i | 0 <= i < |m| && m[i].0 != k ensures Put(m, k, v)[i] == m[i] {
          if i > 0 {
            assert m[1..][i - 1] == m[i];
          }
        }
      }
    }
  }

  /** In a list with distinct keys, `Get` finds the pair at any position. */
  lemma GetAt<K, V>(m: Pairs<K, V>, i: int)
    requires DistinctKeys(m) && 0 <= i < |m|
    ensures Get(m, m[i].0) == Some(m[i].1)
  {
    var r := Get(m, m[i].0);
    assert m[i].0 == Keys(m)[i];
    GetFound(m, m[i].0);
    var j :| 0 <= j < |m| && m[j] == (m[i].0, r.value);
    assert i == j;
  }

  /** After a run of assignments, a key reads as its last assignment, or as before if it had none. */
  lemma {:induction false} GetPutAll<K, V>(m: Pairs<K, V>, kvs: Pairs<K, V>, k: K)
    ensures Get(PutAll(m, kvs), k) == if LastValue(kvs, k).Some? then LastValue(kvs, k) else Get(m, k)
    decreases |kvs|
  {
    if kvs != [] {
      var n := |kvs| - 1;
      GetPutAll(m, kvs[..n], k);
      GetPut(PutAll(m, kvs[..n]), kvs[n].0, kvs[n].1, k);
    }
  }

  /** A run of assignments keeps keys distinct and introduces only the assigned pairs. */
  lemma {:induction false} PutAllShape<K, V>(m: Pairs<K, V>, kvs: Pairs<K, V>)
    requires DistinctKeys(m)
    ensures DistinctKeys(PutAll(m, kvs))
    ensures forall p :: p in PutAll(m, kvs) ==> p in m || p in kvs
    decreases |kvs|
  {
    if kvs != [] {
      var n := |kvs| - 1;
      PutAllShape(m, kvs[..n]);
      PutDistinct(PutAll(m, kvs[..n]), kvs[n].0, kvs[n].1);
      PutPairs(PutAll(m, kvs[..n]), kvs[n].0, kvs[n].1);
      forall p | p in PutAll(m, kvs) ensures p in m || p in kvs {
        if p in kvs[..n] {
          assert p in kvs;
        }
      }
    }
  }

  /** Extending the assignments by one is one more `Put`. */
  lemma PutAllSnoc<K, V>(m: Pairs<K, V>, kvs: Pairs<K, V>, k: K, v: V)
    ensures PutAll(m, kvs + [(k, v)]) == Put(PutAll(m, kvs), k, v)
  {
    assert (kvs + [(k, v)])[..|kvs|] == kvs;
  }

  /** Assigning a key the value it already reads as changes nothing. */
  lemma {:induction false} PutSame<K, V>(m: Pairs<K, V>, k: K, v: V)
    requires Get(m, k) == Some(v)
    ensures Put(m, k, v) == m
    decreases |m|
  {
    if m[0].0 != k {
      PutSame(m[1..], k, v);
    }
  }

  /** In a list with distinct keys, `Get` finds every pair of the list. */
  lemma GetPair<K, V>(m: Pairs<K, V>, p: (K, V))
    requires DistinctKeys(m) && p in m
    ensures Get(m, p.0) == Some(p.1)
  {
    var i :| 0 <= i < |m| && m[i] == p;
    GetAt(m, i);
  }

  /** A second assignment to the same key overrides the first where it stands. */
  lemma {:induction false} PutPut<K, V>(m: Pairs<K, V>, k: K, v: V, w: V)
    ensures Put(Put(m, k, v), k, w) == Put(m, k, w)
    decreases |m|
  {
    if m != [] && m[0].0 != k {
      PutPut(m[1..], k, v, w);
    }
  }

  /** A key no assignment names keeps no last value. */
  lemma {:induction false} LastValueAbsent<K, V>(kvs: Pairs<K, V>, k: K)
    requires forall i :: 0 <= i < |kvs| ==> kvs[i].0 != k
    ensures LastValue(kvs, k) == None
    decreases |kvs|
  {
    if kvs != [] {
      LastValueAbsent(kvs[..|kvs| - 1], k);
    }
  }

  /** With distinct keys, the last assignment to a key is its only one. */
  lemma {:induction false} LastValueAt<K, V>(kvs: Pairs<K, V>, i: int)
    requires DistinctKeys(kvs) && 0 <= i < |kvs|
    ensures LastValue(kvs, kvs[i].0) == Some(kvs[i].1)
    decreases |kvs|
  {
    var n := |kvs| - 1;
    if i < n {
      LastValueAt(kvs[..n], i);
    }
  }

  /** A run of assignments keeps the keys it started with, in order, at the front. */
  lemma {:induction false} PutAllKeepsKeys<K, V>(m: Pairs<K, V>, kvs: Pairs<K, V>)
    ensures |m| <= |PutAll(m, kvs)| && Keys(PutAll(m, kvs))[..|m|] == Keys(m)
    decreases |kvs|
  {
    if kvs != [] {
      var n := |kvs| - 1;
      var t := PutAll(m, kvs[..n]);
      PutAllKeepsKeys(m, kvs[..n]);
      PutShape(t, kvs[n].0, kvs[n].1);
      if kvs[n].0 !in Keys(t) {
        assert Keys(t + [(kvs[n].0, kvs[n].1)])[..|t|] == Keys(t);
      }
    }
  }

  /**
   * `d.update(kvs)` with distinct keys: each assigned key reads its new
   * value, every other key reads as before, and the keys `d` had stay in
   * front in their order.
   */
  lemma UpdateShape<K, V>(m: Pairs<K, V>, kvs: Pairs<K, V>)
    requires DistinctKeys(m) && DistinctKeys(kvs)
    ensures DistinctKeys(PutAll(m, kvs))
    ensures forall i :: 0 <= i < |kvs| ==> Get(PutAll(m, kvs), kvs[i].0) == Some(kvs[i].1)
    ensures forall k :: (forall i :: 0 <= i < |kvs| ==> kvs[i].0 != k) ==> Get(PutAll(m, kvs), k) == Get(m, k)
    ensures |m| <= |PutAll(m, kvs)| && Keys(PutAll(m, kvs))[..|m|] == Keys(m)
  {
    PutAllShape(m, kvs);
    PutAllKeepsKeys(m, kvs);
    forall i | 0 <= i < |kvs|
      ensures Get(PutAll(m, kvs), kvs[i].0) == Some(kvs[i].1)
    {
      GetPutAll(m, kvs, kvs[i].0);
      LastValueAt(kvs, i);
    }
    forall k | forall i :: 0 <= i < |kvs| ==> kvs[i].0 != k
      ensures Get(PutAll(m, kvs), k) == Get(m, k)
    {
      GetPutAll(m, kvs, k);
      LastValueAbsent(kvs, k);
    }
  }

  /** Assigning distinct keys the list does not have appends them in order. */
  lemma {:induction false} PutAllAppends<K, V>(m: Pairs<K, V>, kvs: Pairs<K, V>)
    requires DistinctKeys(kvs)
    requires forall i :: 0 <= i < |kvs| ==> kvs[i].0 !in Keys(m)
    ensures PutAll(m, kvs) == m + kvs
    decreases |kvs|
  {
    if kvs != [] {
      var n := |kvs| - 1;
      var front := kvs[..n];
      PutAllAppends(m, front);
      var k := kvs[n].0;
      PutShape(m + front, k, kvs[n].1);
      assert m + front + [(k, kvs[n].1)] == m + kvs;
    }
  }

  /** Assigning only keys the list already has keeps its keys as they are. */
  lemma {:induction false} PutAllPresent<K, V>(m: Pairs<K, V>, kvs: Pairs<K, V>)
    requires forall i :: 0 <= i < |kvs| ==> kvs[i].0 in Keys(m)
    ensures Keys(PutAll(m, kvs)) == Keys(m)
    decreases |kvs|
  {
    if kvs != [] {
      var n := |kvs| - 1;
      PutAllPresent(m, kvs[..n]);
      PutShape(PutAll(m, kvs[..n]), kvs[n].0, kvs[n].1);
    }
  }
}
