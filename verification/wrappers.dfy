/** Option and Result, the two Rust sum types the parser returns. */
module Wrappers {

  datatype Option<+T> = None | Some(value: T)

  /** A Rust `Result`: `Err` also stands for a panic the model turns into a value. */
  datatype Result<+T, +E> = Ok(value: T) | Err(error: E)
}
