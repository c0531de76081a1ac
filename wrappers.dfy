/** A dictionary key that may be absent: `Some(v)` when the key is present with value v. */
module Wrappers {

  datatype Option<T> = None | Some(value: T) {

    /** Python's `d.get(key, default)`: the value when present, the default otherwise. */
    function GetOr(default: T): T {
      match this
      case Some(v) => v
      case None => default
    }
  }
}
