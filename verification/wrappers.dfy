/** Optional values and fallible results, used for absent fields and for errors. */
module Wrappers {

  /** A value that may be missing (the source's `undefined`). */
  datatype Option<+T> = None | Some(value: T) {

    /** The carried value, or `default` when there is none. */
    function GetOr(default: T): T {
      match this
      case Some(v) => v
      case None => default
    }
  }

  /** The outcome of an operation that can throw: a value, or the error message. */
  datatype Result<+R, +E> = Success(value: R) | Failure(error: E)
}
