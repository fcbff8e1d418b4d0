/** Small shared definitions: an optional value and the C++ `uint32_t` range. */
module Basics {

  datatype Option<T> = None | Some(value: T)

  /** 2^32: one past the largest `uint32_t`. */
  const U32Limit: int := 0x1_0000_0000

  /** Values of a C++ `uint32_t`. */
  type U32 = x: int | 0 <= x < 0x1_0000_0000
}
