/** Option and Result datatypes used across the model. */
module Wrappers {

  /** A value that may be absent (a JavaScript `undefined` property). */
  datatype Option<+T> = None | Some(value: T)

  /** The outcome of a computation that may throw. */
  datatype Result<+T, +E> = Ok(value: T) | Err(error: E)
}
