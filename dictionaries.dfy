/** A C# `Dictionary` as the core uses it: its entries, and the order in which
    `foreach` visits them, taken to be insertion order. */
module Dictionaries {
  /** `order` lists the keys of a dictionary once each, in enumeration order. */
  ghost predicate Ordered<K(!new)>(order: seq<K>, keys: set<K>) {
    && (forall i, j | 0 <= i < j < |order| :: order[i] != order[j])
    && (forall k :: k in keys <==> k in order)
  }

  /** The enumeration order after `dictionary[k] = value`: a new key goes last,
      an existing one keeps its place. */
  function Insert<K(==)>(order: seq<K>, k: K): (r: seq<K>)
    ensures k in order ==> r == order
    ensures k !in order ==> r == order + [k]
  {
    if k in order then order else order + [k]
  }

  lemma InsertOrdered<K(!new)>(order: seq<K>, keys: set<K>, k: K)
    requires Ordered(order, keys)
    ensures Ordered(Insert(order, k), keys + {k})
  {
  }

  /** The values of `m` listed in the order `order`. */
  function Values<K(==), T>(order: seq<K>, m: map<K, T>): (r: seq<T>)
    requires forall i | 0 <= i < |order| :: order[i] in m
    ensures |r| == |order|
    ensures forall i | 0 <= i < |order| :: r[i] == m[order[i]]
  {
    if order == [] then [] else [m[order[0]]] + Values(order[1..], m)
  }
}
