/** Option and Result values, used for Python's None and for errors returned instead of raised. */
module Wrappers {
  datatype Option<+T> = None | Some(value: T)

  datatype Result<+R, +E> = Success(value: R) | Failure(error: E)

  /** Python's `d.get(key, default)`. */
  function Get<K, V>(d: map<K, V>, key: K, default: V): (v: V) {
    if key in d then d[key] else default
  }
}
