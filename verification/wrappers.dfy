/** Optional values for fields and storage keys that may be absent, and results that may fail. */
module Wrappers {

  datatype Option<+T> = None | Some(value: T) {

    /** The value, or `default` when absent (JavaScript's `?? default`). */
    function GetOr(default: T): T {
      match this
      case Some(v) => v
      case None => default
    }
  }

  /** A value, or the reason there is none. */
  datatype Result<+T, +E> = Success(value: T) | Failure(error: E)
}
