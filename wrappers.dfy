/** Failure-carrying values shared by the client and the tool adapter. */
module Wrappers {

  /** A value that may be absent: Go's nil pointer or a failed parse. */
  datatype Option<+T> = None | Some(value: T)

  /** A value or an error; the error of a Go `(T, error)` return. */
  datatype Result<+T, +E> = Success(value: T) | Failure(error: E)

  /** A check that passes or fails with an error; a Go function returning only `error`. */
  datatype Outcome<+E> = Pass | Fail(error: E)
}
