/** Failure-carrying values: an optional value, and a result that is either
    a value or the error that stopped the computation. */
module Outcome {

  datatype Option<+T> = None | Some(value: T)

  datatype Result<+T, +E> = Ok(value: T) | Err(error: E)
}
