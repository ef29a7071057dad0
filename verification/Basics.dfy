/** Types shared by every part of the model. */
module Basics {

  datatype Option<+T> = None | Some(value: T)

  /** A byte as the unsigned integer it denotes. */
  type Byte = b: int | 0 <= b < 256

  type Bytes = seq<Byte>
}
