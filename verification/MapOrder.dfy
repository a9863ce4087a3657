/** Go iterates over a map in an order that it does not fix. */
module MapOrder {

  /** order is one in which a map with these keys may be enumerated. */
  ghost predicate Enumerates<K(!new)>(order: seq<K>, keys: set<K>) {
    && (forall i, j :: 0 <= i < j < |order| ==> order[i] != order[j])
    && (forall k :: k in order <==> k in keys)
  }

  /** One more key, taken from those that are still to come. */
  lemma EnumerateOneMore<K(!new)>(order: seq<K>, keys: set<K>, todo: set<K>, k: K)
    requires Enumerates(order, keys - todo) && k in todo && todo <= keys
    ensures Enumerates(order + [k], keys - (todo - {k}))
  {
    var order' := order + [k];
    assert forall i :: 0 <= i < |order| ==> order'[i] in order;
  }
}
