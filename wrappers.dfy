/** Failure-compatible wrappers: a nullable value and a value-or-exception. */
module Wrappers {

  /** A nullable column or an optional argument: `None` is SQL NULL / `undefined`. */
  datatype Option<+T> = None | Some(value: T)

  /** The outcome of an async service call: it resolves with a value or rejects with an error. */
  datatype Result<+R, +E> = Success(value: R) | Failure(error: E)
}
