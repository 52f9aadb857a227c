/** Failure-compatible wrappers shared by the rest of the model. */
module Basics {

  /** A value that may be absent; Python's `None` for an optional field. */
  datatype Option<+T> = None | Some(value: T)

  /** The outcome of an operation that may raise: a value or the raised error. */
  datatype Result<+T, +E> = Ok(value: T) | Err(error: E)
}
