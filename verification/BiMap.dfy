// The bidirectional map of util/alg_ds: two trees that index each other.
module BiMap {
  /** The two sides as values. */
  datatype Bi<K, V> = Bi(left: map<K, V>, right: map<V, K>)
  {
    ghost predicate Inverse() {
      && (forall k | k in left :: left[k] in right && right[left[k]] == k)
      && (forall v | v in right :: right[v] in left && left[right[v]] == v)
    }

    predicate Fresh(k: K, v: V) {
      k !in left && v !in right
    }

    function Insert(k: K, v: V): Bi<K, V> {
      Bi(left[k := v], right[v := k])
    }

    function ExtractRight(v: V): Bi<K, V>
      requires v in right
    {
      Bi(left - {right[v]}, right - {v})
    }
  }

}
