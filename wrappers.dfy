/** Optional values: a PHP array field that may be missing or null. */
module Wrappers {

  datatype Option<+T> = None | Some(value: T) {

    /** PHP's null-coalescing operator: the value, or the default when it is missing or null. */
    function GetOr(default: T): T {
      match this
      case Some(v) => v
      case None => default
    }
  }
}
