/** Failure-carrying results shared by every model in this project. */
module Wrappers {

  datatype Option<+T> = None | Some(value: T)

  /** A computation that either yields a value or stops with the error it raised. */
  datatype Result<+T, +E> = Ok(value: T) | Err(error: E)
}
