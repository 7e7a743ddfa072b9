/** Sequences and maps: the orders in which a set or a hash map may be iterated, and what is read back in one. */
module Orders {
  ghost predicate NoDuplicates<T>(s: seq<T>) {
    forall i, j | 0 <= i < j < |s| :: s[i] != s[j]
  }

  /** `order` lists each of `keys` once. */
  ghost predicate IsOrder<T(!new)>(order: seq<T>, keys: set<T>) {
    NoDuplicates(order) && forall k :: k in order <==> k in keys
  }

  lemma OrderIsWithin<T(!new)>(order: seq<T>, keys: set<T>)
    requires IsOrder(order, keys)
    ensures NoDuplicates(order) && forall k :: k in order <==> k in keys
  {
  }

  lemma Associative<T>(a: seq<T>, b: seq<T>, c: seq<T>)
    ensures a + b + c == a + (b + c)
  {
  }

  // ---------- A map rebuilt entry by entry ----------

  function Restricted<K, V>(m: map<K, V>, keys: set<K>): map<K, V> {
    map k | k in m && k in keys :: m[k]
  }

  lemma RestrictedStep<K, V>(m: map<K, V>, keys: set<K>, key: K)
    requires key in m
    ensures Restricted(m, keys)[key := m[key]] == Restricted(m, keys + {key})
  {
  }

  lemma RestrictedAll<K(!new), V>(m: map<K, V>, order: seq<K>)
    requires IsOrder(order, m.Keys)
    ensures Restricted(m, {}) == map[]
    ensures Restricted(m, {} + set k | k in order) == m
  {
  }
}
