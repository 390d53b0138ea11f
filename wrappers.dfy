/** Success and failure values used for the Rust `Option`, `Result<T>` and `Result<()>` types. */
module Wrappers {

  datatype Option<+T> = None | Some(value: T)

  /** A `Result<T>`: a value, or the error that was propagated with `?`. */
  datatype Result<+T, +E> = Ok(value: T) | Err(error: E)

  /** A `Result<()>`: success, or the error that was propagated. */
  datatype Outcome<+E> = Pass | Fail(error: E)
}
