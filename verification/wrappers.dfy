/** Optional values: a field that may be absent (an empty date input, a key missing from a partial record). */
module Wrappers {

  datatype Option<+T> = None | Some(value: T) {

    /** The held value when present, else `default`. */
    function GetOr(default: T): T {
      match this
      case Some(v) => v
      case None => default
    }
  }
}
