/** Optional values (Kotlin's nullable types) and success-or-error results
    (Kotlin's thrown exceptions). */
module Wrappers {

  /** A value that may be absent: Kotlin's `T?`. */
  datatype Option<+T> = None | Some(value: T) {

    /** Kotlin's elvis operator `?: default`. */
    function GetOr(default: T): T {
      match this
      case Some(v) => v
      case None => default
    }
  }

  /** Either a returned value or the exception the call ended with. */
  datatype Result<+T, +E> = Success(value: T) | Failure(error: E)
}
