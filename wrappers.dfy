/** The optional value used throughout the model. */
module Wrappers {

  datatype Option<+T> = None | Some(value: T)

  /** The value `m` holds for `k`, if any. */
  function Find<K, V>(m: map<K, V>, k: K): Option<V>
  {
    if k in m then Some(m[k]) else None
  }
}
