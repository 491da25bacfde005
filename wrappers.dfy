/** Failure-carrying results used across the model: `Option` for "found or not",
    `Result` for an operation that either yields a value or raises. */
module Wrappers {

  datatype Option<+T> = None | Some(value: T)

  datatype Result<+T, +E> = Ok(value: T) | Err(error: E)
}
