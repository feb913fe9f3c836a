/** Results that may be absent. */
module Wrappers {
  datatype Option<+T> = None | Some(value: T)
}

/** What a database driver hands to `Scan`. Strings and byte slices are treated alike. */
module Columns {
  datatype Column = Null | Text(text: string) | Unsupported
}

/** Powers of two. */
module Powers {
  function Pow2(n: nat): (p: nat)
    ensures p >= 1
  {
    if n == 0 then 1 else 2 * Pow2(n - 1)
  }
}

/** The orders in which Go may yield the keys of a map. */
module MapOrders {
  ghost predicate IsOrder<K(!new), V>(m: map<K, V>, order: seq<K>) {
    && (forall i, j :: 0 <= i < j < |order| ==> order[i] != order[j])
    && (forall k :: k in order <==> k in m)
  }

  /** Part of such an order, with the keys that are still to come. */
  ghost predicate IsBegun<K(!new), V>(m: map<K, V>, order: seq<K>, pending: set<K>) {
    && pending <= m.Keys
    && (forall i, j :: 0 <= i < j < |order| ==> order[i] != order[j])
    && (forall k :: k in order <==> k in m && k !in pending)
  }

  lemma NextKey<K(!new), V>(m: map<K, V>, order: seq<K>, pending: set<K>, k: K)
    requires IsBegun(m, order, pending) && k in pending
    ensures IsBegun(m, order + [k], pending - {k})
  {
  }
}
