/** Option and Result values used for the absent values and error returns of the model. */
module Wrappers {

  /** A value that may be absent (JavaScript's `undefined`/`null` for an optional field). */
  datatype Option<+T> = None | Some(value: T)

  /** The outcome of an operation that may fail with an error, instead of throwing. */
  datatype Result<+R, +E> = Ok(value: R) | Err(error: E)
}
