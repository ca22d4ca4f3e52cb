/** The types the models share. */
module Wrappers {
  datatype Option<+T> = None | Some(value: T)

  /** A C++ call that either returns a value or throws. */
  datatype Result<+T, +E> = Ok(value: T) | Err(error: E)

  /** unsigned int. */
  newtype uint32 = x: int | 0 <= x < 0x1_0000_0000
}
