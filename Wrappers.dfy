/** Optional values and success-or-error results, standing for Python's `None`
    and for exceptions that a caller sees. */
module Wrappers {

  datatype Option<+T> = None | Some(value: T) {
    function GetOr(default: T): T {
      match this
      case Some(v) => v
      case None => default
    }
  }

  /** `Failure` carries the error a caller is handed: an error text, or a structured error value. */
  datatype Result<+R, +E> = Success(value: R) | Failure(error: E)
}
