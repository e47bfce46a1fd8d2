module Maps {
  /** `after` is `before` with `value` at `key`, and nothing else different. */
  predicate Sets<K(==), V(==)>(before: map<K, V>, after: map<K, V>, key: K, value: V) {
    && after.Keys == before.Keys + {key} && after[key] == value
    && forall k | k in before && k != key :: after[k] == before[k]
  }
}
