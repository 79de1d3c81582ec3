/** Bytes and machine words as numbers. */
module Bytes {
  type Byte = b: int | 0 <= b < 256

  const U32: nat := 0x1_0000_0000

  const U64: nat := 0x1_0000_0000_0000_0000
}
