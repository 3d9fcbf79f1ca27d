/** The fixed-width C integers the SDK computes with, as ranges of `int`, and the conversions between them. */
module CInt {
  const TWO30: int := 0x4000_0000
  const TWO31: int := 0x8000_0000
  const TWO32: int := 0x1_0000_0000
  const TWO62: int := 0x4000_0000_0000_0000
  const TWO63: int := 0x8000_0000_0000_0000
  const TWO64: int := 0x1_0000_0000_0000_0000

  type Byte = x: int | 0 <= x < 256
  type U32 = x: int | 0 <= x < 0x1_0000_0000
  type S32 = x: int | -0x8000_0000 <= x < 0x8000_0000
  type S64 = x: int | -0x8000_0000_0000_0000 <= x < 0x8000_0000_0000_0000

  predicate InS64(x: int) {
    -0x8000_0000_0000_0000 <= x < 0x8000_0000_0000_0000
  }

  /** `(u32_t) x`: also the result of any 32-bit unsigned addition, subtraction or product. */
  function WrapU32(x: int): U32 {
    x % 0x1_0000_0000
  }

  /** `(s32_t) x` for an unsigned 32-bit x, in two's complement. */
  function AsS32(x: U32): S32 {
    if x < 0x8000_0000 then x else x - 0x1_0000_0000
  }

  /** `(s64_t) x` for x taken modulo 2^64, in two's complement. */
  function WrapS64(x: int): S64 {
    var u := x % 0x1_0000_0000_0000_0000;
    if u < 0x8000_0000_0000_0000 then u else u - 0x1_0000_0000_0000_0000
  }

  /** C's `x / 2` on signed operands: the quotient is truncated toward zero. */
  function HalfTowardZero(x: int): int {
    if x >= 0 then x / 2 else -((-x) / 2)
  }

  function Abs(x: int): int {
    if x >= 0 then x else -x
  }

  function Min(a: int, b: int): int {
    if a <= b then a else b
  }

  function Pow2(n: nat): (p: int)
    ensures p >= 1
  {
    if n == 0 then 1 else 2 * Pow2(n - 1)
  }
}
