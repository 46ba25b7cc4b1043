/** Option and Result values for the program's nullable fields and thrown errors. */
module Wrappers {

  /** A JavaScript value that may be `null`/`undefined` (None) or present (Some). */
  datatype Option<+T> = None | Some(value: T)

  /** The outcome of an operation that either yields a value or raises an error message. */
  datatype Result<+T> = Ok(value: T) | Err(error: string)
}
