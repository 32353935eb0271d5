/** Iterating a hash map: the keys come out in some order, each exactly once. */
module Maps {

  predicate Distinct<K(==)>(ks: seq<K>) {
    forall i, j :: 0 <= i < j < |ks| ==> ks[i] != ks[j]
  }

  /** `map.iter()`: the iteration order of a hash map is unspecified, so any listing of the keys is allowed. */
  method Keys<K(==), V>(m: map<K, V>) returns (ks: seq<K>)
    ensures Distinct(ks)
    ensures forall i :: 0 <= i < |ks| ==> ks[i] in m
    ensures forall k :: k in m ==> k in ks
    ensures |ks| == |m|
  {
    ks := [];
    var rest := m.Keys;
    while rest != {}
      invariant rest <= m.Keys
      invariant Distinct(ks)
      invariant forall i :: 0 <= i < |ks| ==> ks[i] in m && ks[i] !in rest
      invariant forall k :: k in m ==> k in ks || k in rest
      invariant |ks| + |rest| == |m.Keys|
      decreases |rest|
    {
      var k :| k in rest;
      ks := ks + [k];
      rest := rest - {k};
    }
    assert |m.Keys| == |m|;
  }
}
