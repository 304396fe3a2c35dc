/** Machine words as integers. */
module Bytes {

  type Byte = x: int | 0 <= x < 256

  /** What an 8-bit variable keeps of a number. */
  function LowByte(x: int): (b: int)
    ensures 0 <= b < 256
  {
    x % 256
  }

  /** What a 32-bit signed variable keeps of a number. */
  function Int32(x: int): (r: int)
    ensures -0x8000_0000 <= r < 0x8000_0000
  {
    (x + 0x8000_0000) % 0x1_0000_0000 - 0x8000_0000
  }
}
