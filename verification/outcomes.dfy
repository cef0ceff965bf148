/** Option and Result, the two failure-carrying types the Rust code returns. */
module Outcomes {

  /** Rust's `Option<T>`. */
  datatype Option<+T> = None | Some(value: T)

  /** Rust's `Result<T, E>`: a value on success, an error otherwise. */
  datatype Result<+T, +E> = Ok(value: T) | Err(error: E)
}
