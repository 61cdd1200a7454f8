/** Option and Result, the two failure-carrying types the rest of the model uses. */
module Wrappers {

  datatype Option<+T> = None | Some(value: T)

  /** A Rust `Result` / a Python call that either returns or raises. */
  datatype Result<+T, +E> = Ok(value: T) | Err(error: E)
}
