/** Sorting keys by falling weight with an unstable sort: equal weights come in any order. */
module Sorting {
  lemma {:induction false} HasBusiest<K>(weights: map<K, int>, rest: set<K>)
    requires rest != {} && rest <= weights.Keys
    ensures exists k :: k in rest && forall other :: other in rest ==> weights[k] >= weights[other]
    decreases |rest|
  {
    var k :| k in rest;
    if rest - {k} == {} {
      assert forall other :: other in rest ==> other == k by { assert rest == {k}; }
    } else {
      HasBusiest(weights, rest - {k});
      var best :| best in rest - {k} && forall other :: other in rest - {k} ==> weights[best] >= weights[other];
      var top := if weights[k] >= weights[best] then k else best;
      assert forall other :: other in rest ==> weights[top] >= weights[other];
    }
  }

  method SortFalling<K(==)>(weights: map<K, int>) returns (keys: seq<K>)
    ensures |keys| == |weights| && (forall k :: k in keys <==> k in weights) && (set k | k in keys) == weights.Keys
    ensures forall i, j :: 0 <= i < j < |keys| ==> keys[i] != keys[j] && weights[keys[i]] >= weights[keys[j]]
  {
    keys := [];
    var rest := weights.Keys;
    while rest != {}
      invariant rest <= weights.Keys && |keys| + |rest| == |weights|
      invariant forall k :: k in keys <==> k in weights && k !in rest
      invariant forall i, j :: 0 <= i < j < |keys| ==> keys[i] != keys[j] && weights[keys[i]] >= weights[keys[j]]
      invariant forall i, k :: 0 <= i < |keys| && k in rest ==> weights[keys[i]] >= weights[k]
      decreases |rest|
    {
      HasBusiest(weights, rest);
      var k :| k in rest && forall other :: other in rest ==> weights[k] >= weights[other];
      rest := rest - {k};
      keys := keys + [k];
    }
  }
}
