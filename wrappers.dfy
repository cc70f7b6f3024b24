/** Optional values: SQL NULL, a JavaScript `null`/`undefined`, or a missing key. */
module Wrappers {

  datatype Option<+T> = None | Some(value: T)

  /** Reading a key: `req.query[key]`, `localStorage.getItem(key)`; None when
      the key is absent. */
  function Lookup<K, V>(m: map<K, V>, key: K): (v: Option<V>)
    ensures v.Some? <==> key in m
    ensures v.Some? ==> v.value == m[key]
  {
    if key in m then Some(m[key]) else None
  }
}
