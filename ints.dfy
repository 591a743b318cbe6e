/** The fixed-width unsigned integers of the source, as ranges of `int`. */
module Ints {
  /** `u8`. */
  type byte = x: int | 0 <= x < 0x100
  /** `u16`: a UTF-16 code unit, or a port number. */
  type u16 = x: int | 0 <= x < 0x1_0000
}
