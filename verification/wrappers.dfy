/** Failure-carrying values used throughout the model in place of the
    source's `null`/`undefined` results and thrown errors. */
module Wrappers {

  /** A value that may be absent (the source's `null`/`undefined`). */
  datatype Option<+T> = None | Some(value: T)

  /** A computation that either succeeds or stops with an error (the
      source's `throw`, or a `TypeError` raised by reading a field of
      `undefined`). */
  datatype Result<+T, +E> = Success(value: T) | Failure(error: E)
}
