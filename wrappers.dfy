/** Option and outcome types standing in for PHP's NULL and for thrown exceptions. */
module Wrappers {

  /** A value that may be absent (PHP `NULL`). */
  datatype Option<+T> = None | Some(value: T)

  /** A computed value, or the error that the source would throw instead. */
  datatype Result<+T, +E> = Success(value: T) | Failure(error: E)

  /** A `void` operation that either returns normally or throws `error`. */
  datatype Outcome<+E> = Pass | Fail(error: E)
}
