/** Small result types shared by the other modules. */
module Wrappers {

  /** A value that may be absent: a null pointer, an empty optional, a failed lookup. */
  datatype Option<+T> = None | Some(value: T)

  /** The entry of a map, if there is one. */
  function Lookup<K, V>(m: map<K, V>, k: K): Option<V> {
    if k in m then Some(m[k]) else None
  }
}
