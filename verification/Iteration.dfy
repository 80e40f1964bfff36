/** Go iterates over a map in an order of its own choosing. */
module Iteration {
  ghost predicate Enumerates<K(!new)>(order: seq<K>, s: set<K>) {
    && (forall k :: k in order <==> k in s)
    && (forall i, j :: 0 <= i < j < |order| ==> order[i] != order[j])
  }

  /** Some order of the keys: nothing else is promised about it. */
  method AnyOrder<K(==, !new)>(s: set<K>) returns (order: seq<K>)
    ensures Enumerates(order, s) && |order| == |s|
  {
    order := [];
    var rest := s;
    while rest != {}
      invariant rest <= s && Enumerates(order, s - rest) && |order| + |rest| == |s|
      decreases |rest|
    {
      var k :| k in rest;
      order, rest := order + [k], rest - {k};
    }
  }
}
