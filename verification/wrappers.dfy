/** Failure-carrying values used in place of Go's `(value, err)` pairs and `panic`. */
module Wrappers {

  /** A value that may be missing; `None` stands for a conversion error. */
  datatype Option<+T> = None | Some(value: T)

  /** Either a computed value or the error that stopped the computation. */
  datatype Result<+T, +E> = Ok(value: T) | Err(error: E)
}
