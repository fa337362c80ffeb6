/** Option and Result, the two failure-carrying shapes the row codec needs. */
module Wrappers {

  /** Rust's `Option<T>`: a nullable column or an optional field. */
  datatype Option<+T> = None | Some(value: T)

  /** Rust's `Result<T, E>`. */
  datatype Result<+T, +E> = Ok(value: T) | Err(error: E)
}
