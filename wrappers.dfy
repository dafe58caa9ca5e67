/** The `Option` and `Result` datatypes shared by the other modules. */
module Wrappers {

  /** A value that may be missing; Go's nil error is `None`. */
  datatype Option<+T> = None | Some(value: T)

  /** A value or the error that took its place. */
  datatype Result<+T, +E> = Ok(value: T) | Err(error: E)
}
