/** Small value types shared by the other modules. */
module Wrappers {

  /** A value that may be absent: a null pointer, a failed vendor call, a missing file. */
  datatype Option<+T> = None | Some(value: T)

  /** One octet of a binary artifact (uint8_t). */
  newtype byte = x: int | 0 <= x < 256
}
