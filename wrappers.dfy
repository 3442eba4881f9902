/**
 * Optional values (JavaScript's `null`/`undefined` next to a present value)
 * and results (a returned value or a thrown one).
 */
module Wrappers {

  datatype Option<+T> = None | Some(value: T) {

    /** The value when present, `default` otherwise (the `x ?? default` idiom). */
    function GetOr(default: T): T {
      match this
      case Some(v) => v
      case None => default
    }
  }

  /** The settled value of an awaited call: what it returned, or what it threw. */
  datatype Result<+T, +E> = Success(value: T) | Failure(error: E)
}
