/** Optional values: a nullable column, an empty form field, or a failed
    backend call that would have returned a generated key. */
module Wrappers {

  datatype Option<+T> = None | Some(value: T) {

    /** Returns the value, or `default` when there is none (JavaScript's `x || d`
        for a column that cannot hold a falsy value other than null). */
    function GetOr(default: T): T {
      match this
      case Some(v) => v
      case None => default
    }
  }
}
