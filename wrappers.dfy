/** Option and Result, the two sum types the modelled Rust code returns everywhere. */
module Wrappers {

  datatype Option<+T> = None | Some(value: T)

  /** Rust's `Result<T, E>`: a value or an error, never both. */
  datatype Result<+T, +E> = Ok(value: T) | Err(error: E)
}
