/** Types and constants that several parts of the model share. */
module Basics {

  datatype Option<+T> = None | Some(value: T)

  type Positive = n: int | n > 0 witness 1

  type Byte = x: int | 0 <= x < 256

  type Bytes = seq<Byte>

  /** The size of path buffers, terminating zero included. */
  const PATH_MAX := 4096
}
