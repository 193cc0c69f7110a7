/** The C integer widths the modelled code stores its values in. */
module Widths {
  type u8 = x: int | 0 <= x < 0x100
  type u16 = x: int | 0 <= x < 0x1_0000

  /** Unsigned 8-bit and 16-bit stores truncate. */
  function To8(x: int): u8 { x % 0x100 }

  function To16(x: int): u16 { x % 0x1_0000 }
}
