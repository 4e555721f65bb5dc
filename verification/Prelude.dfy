/** The option and result types the rest of the project shares. */
module Prelude {

  datatype Option<+T> = None | Some(value: T)

  datatype Result<+T, +E> = Ok(value: T) | Err(error: E)

  /** One octet of a Go []byte, where its numeric value matters. */
  type Byte = x: int | 0 <= x < 256
}
