/** The part of the JavaScript `Map` that packages/db/src/pool.ts relies on: a finite map
    whose keys are kept in insertion order (section 24.1.3 of ECMA-262). */
module OrderedMap {
  datatype OMap<K, V> = OMap(order: seq<K>, at: map<K, V>)

  /** The order lists every key once. */
  ghost predicate WellFormed<K, V>(m: OMap<K, V>) {
    && (forall i, j :: 0 <= i < j < |m.order| ==> m.order[i] != m.order[j])
    && (forall i :: 0 <= i < |m.order| ==> m.order[i] in m.at)
    && |m.order| == |m.at.Keys|
  }

  function IndexOf<K(==)>(q: seq<K>, k: K): (i: nat)
    requires k in q
    ensures i < |q| && q[i] == k
    ensures forall j :: 0 <= j < i ==> q[j] != k
  {
    if q[0] == k then 0 else 1 + IndexOf(q[1..], k)
  }

  /** `map.delete(k)`: the other keys keep their relative order. */
  function Delete<K(==), V>(m: OMap<K, V>, k: K): OMap<K, V> {
    if k in m.order then
      var i := IndexOf(m.order, k);
      OMap(m.order[..i] + m.order[i + 1..], m.at - {k})
    else
      OMap(m.order, m.at - {k})
  }

  /** `map.set(k, v)`: a new key goes to the end, a known key keeps its place. */
  function Set<K(==), V>(m: OMap<K, V>, k: K, v: V): OMap<K, V> {
    OMap(if k in m.order then m.order else m.order + [k], m.at[k := v])
  }

  lemma {:induction false} DistinctSize<K>(q: seq<K>, keys: set<K>)
    requires forall i, j :: 0 <= i < j < |q| ==> q[i] != q[j]
    requires forall i :: 0 <= i < |q| ==> q[i] in keys
    ensures |q| <= |keys|
    ensures forall k :: k in keys && k !in q ==> |q| < |keys|
  {
    if q != [] {
      var init, last := q[..|q| - 1], q[|q| - 1];
      assert q == init + [last];
      DistinctSize(init, keys - {last});
    }
  }

  /** Every key of the map has a place in the order. */
  lemma {:induction false} KeyInOrder<K, V>(m: OMap<K, V>, k: K)
    requires WellFormed(m) && k in m.at
    ensures k in m.order
  {
    DistinctSize(m.order, m.at.Keys);
  }

  /** `Delete` drops the element at position `i` of the order and nothing else. */
  lemma {:induction false} DeletePositions<K, V>(m: OMap<K, V>, k: K) returns (i: nat)
    requires k in m.order
    ensures i < |m.order| && m.order[i] == k
    ensures |Delete(m, k).order| == |m.order| - 1
    ensures forall j :: 0 <= j < i ==> Delete(m, k).order[j] == m.order[j]
    ensures forall j :: i <= j < |m.order| - 1 ==> Delete(m, k).order[j] == m.order[j + 1]
    ensures m.order[0] == k ==> i == 0
  {
    i := IndexOf(m.order, k);
  }

  /** Deleting a key removes exactly that key. */
  lemma {:induction false} DeleteKeeps<K, V>(m: OMap<K, V>, k: K)
    requires WellFormed(m) && k in m.at
    ensures WellFormed(Delete(m, k))
    ensures k !in Delete(m, k).order
    ensures |Delete(m, k).order| == |m.order| - 1
  {
    KeyInOrder(m, k);
    var i := DeletePositions(m, k);
    assert (m.at - {k}).Keys == m.at.Keys - {k};
  }

  /** Appending a new key keeps the map well formed. */
  lemma {:induction false} AppendKeeps<K, V>(m: OMap<K, V>, k: K, v: V)
    requires WellFormed(m) && k !in m.at
    ensures WellFormed(OMap(m.order + [k], m.at[k := v]))
    ensures Set(m, k, v) == OMap(m.order + [k], m.at[k := v])
  {
    assert m.at[k := v].Keys == m.at.Keys + {k};
  }

  /** Deleting the first key drops the head of the order. */
  lemma {:induction false} DeletesFirst<K, V>(m: OMap<K, V>)
    requires |m.order| > 0
    ensures Delete(m, m.order[0]).order == m.order[1..]
  {
    var i := DeletePositions(m, m.order[0]);
  }
}
