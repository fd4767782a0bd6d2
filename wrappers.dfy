/** Option and Result values used by the rest of the model. */
module Wrappers {

  /** A value that may be absent (JavaScript `null`). */
  datatype Option<+T> = None | Some(value: T)

  /** The outcome of an operation that may throw: its value, or the error message. */
  datatype Result<+T> = Ok(value: T) | Err(message: string)
}
