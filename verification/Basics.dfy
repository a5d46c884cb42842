/** Types that several components share. */
module Basics {
  /** uchar. */
  type Byte = x: int | 0 <= x < 256

  datatype Option<T> = None | Some(value: T)
}
