module Prelude {

  datatype Option<+T> = None | Some(value: T)

  /** Go strings and byte slices are sequences of bytes. */
  type Byte = x: int | 0 <= x < 256
}
