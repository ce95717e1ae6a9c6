// Types and integer operations the other modules share.
module Common {
  datatype Option<+T> = None | Some(value: T)

  datatype Result<+T, +E> = Ok(value: T) | Err(error: E)

  const I64_MAX: int := 0x7fff_ffff_ffff_ffff
  const I64_MIN: int := -0x8000_0000_0000_0000
  const U64_MAX: int := 0xffff_ffff_ffff_ffff
  const U32_MAX: int := 0xffff_ffff

  /** The signed 64-bit value nearest to `x`: what a saturating operation answers. */
  function Saturate(x: int): int {
    if x > I64_MAX then I64_MAX else if x < I64_MIN then I64_MIN else x
  }

  function SaturatingSub(a: int, b: int): int {
    Saturate(a - b)
  }

  function SaturatingAdd(a: int, b: int): int {
    Saturate(a + b)
  }

  function Min(a: int, b: int): int {
    if a <= b then a else b
  }

  function Max(a: int, b: int): int {
    if a >= b then a else b
  }
}
