/** Option and Result values used across the model. */
module Wrappers {

  /** A value that may be missing (JavaScript `undefined` / `null`). */
  datatype Option<+T> = None | Some(value: T)

  /** The outcome of an operation that may throw: `Err` carries the message. */
  datatype Result<+T> = Ok(value: T) | Err(message: string)
}
