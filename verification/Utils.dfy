/** Optional values, and a fact about maps. */
module Utils {
  datatype Option<+T> = None | Some(value: T)

  lemma Overwrite<K, V>(m: map<K, V>, k: K, first: V, second: V)
    ensures m[k := first][k := second] == m[k := second]
  {
  }
}
