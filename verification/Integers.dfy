/** The bounds of C++'s 32-bit integers. */
module Integers {
  const TWO_31: int := 0x8000_0000
  const TWO_32: int := 0x1_0000_0000
}
