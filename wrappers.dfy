/** Failure-carrying results: a Go function that returns an error or panics
    becomes a function returning `Result`. */
module Wrappers {

  datatype Result<+T, +E> = Ok(value: T) | Err(error: E)

  datatype Option<+T> = None | Some(value: T)
}
