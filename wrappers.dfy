/** The values of Rust's `Option` and `anyhow::Result`. */
module Wrappers {

  /** The value of Rust's `Option<T>`. */
  datatype Option<+T> = None | Some(value: T)

  /** The value of `anyhow::Result<T>`; the error itself is left abstract. */
  datatype Result<+T> = Ok(value: T) | Err
}
