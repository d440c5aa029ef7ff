/** Types shared by every component: optional values, byte strings and cache keys. */
module Wrappers {

  datatype Option<+T> = None | Some(value: T)

  /** Bytes are characters; a character above 127 stands for a byte that C++ reads as a negative char. */
  type Bytes = string

  /** The cache key of a request is its normalised text. */
  type Key = string
}
