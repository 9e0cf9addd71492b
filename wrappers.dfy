/** Failure-carrying values used in place of JavaScript's `undefined` and thrown errors. */
module Wrappers {

  /** A value that may be absent, as a JavaScript property read may give `undefined`. */
  datatype Option<+T> = None | Some(value: T)

  /** The outcome of a computation that either produces a value or aborts with an error. */
  datatype Result<+T, +E> = Success(value: T) | Failure(error: E)
}
