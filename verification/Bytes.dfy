/** Bytes, and the machine widths the sources compute in. */
module Bytes {

  newtype byte = x: int | 0 <= x < 256

  type Buffer = seq<byte>

  const TWO_TO_64: int := 0x1_0000_0000_0000_0000
}
