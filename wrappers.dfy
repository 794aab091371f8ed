/** Option and Result, named after their Rust counterparts, shared by every module of the model. */
module Wrappers {

  datatype Option<+T> = None | Some(value: T)

  datatype Result<+T, +E> = Ok(value: T) | Err(error: E)

  /** An unsigned byte (`u8`). */
  newtype u8 = x: int | 0 <= x < 256
}
