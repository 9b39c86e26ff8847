/** The C++ `int` of the modelled programs, as a 32-bit two's-complement range. */
module Int32 {

  const MIN: int := -0x8000_0000
  const MAX: int := 0x7FFF_FFFF

  /** True when `x` is representable as a C++ `int`; arithmetic leaving this range is undefined behaviour. */
  predicate InRange(x: int) {
    MIN <= x <= MAX
  }

  newtype int32 = x: int | InRange(x)
}
