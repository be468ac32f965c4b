/** The integer arithmetic of the C++ source, written out where it differs from
    Dafny's: `/` truncates toward zero, `%` takes the sign of its left operand,
    and a conversion to `int` keeps the low 32 bits. */
module CInts {

  const INT32_MIN: int := -0x8000_0000
  const INT32_MAX: int := 0x7fff_ffff
  const INT64_MIN: int := -0x8000_0000_0000_0000
  const INT64_MAX: int := 0x7fff_ffff_ffff_ffff
  const UINT64_MAX: int := 0xffff_ffff_ffff_ffff

  predicate InInt32(n: int) { INT32_MIN <= n <= INT32_MAX }

  /** C's `n / d` for a positive divisor. */
  function Quot(n: int, d: int): int
    requires d > 0
  {
    if n >= 0 then n / d else -((-n) / d)
  }

  /** C's `n % d` for a positive divisor. */
  function Rem(n: int, d: int): int
    requires d > 0
  {
    if n >= 0 then n % d else -((-n) % d)
  }

  /** `static_cast<int>(n)` */
  function ToInt32(n: int): int {
    (n - INT32_MIN) % 0x1_0000_0000 + INT32_MIN
  }
}
