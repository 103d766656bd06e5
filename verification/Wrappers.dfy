/** Result types and bytes shared by every component. */
module Wrappers {
  datatype Option<+T> = None | Some(value: T)

  datatype Result<+T, +E> = Ok(value: T) | Err(error: E)

  type byte = x: int | 0 <= x < 256

  type Bytes = seq<byte>

  function Min(a: int, b: int): int {
    if a <= b then a else b
  }

  function Max(a: int, b: int): int {
    if a <= b then b else a
  }

  function Pow2(k: nat): (r: nat)
    ensures r >= 1
  {
    if k == 0 then 1 else 2 * Pow2(k - 1)
  }
}

/** Rust's saturating `i64` arithmetic, written out over unbounded integers. */
module SaturatingI64 {
  const I64_MAX: int := 0x7fff_ffff_ffff_ffff
  const I64_MIN: int := -0x8000_0000_0000_0000

  type i64 = x: int | I64_MIN <= x <= I64_MAX witness 0

  function Clamp(x: int): i64 {
    if x > I64_MAX then I64_MAX else if x < I64_MIN then I64_MIN else x
  }

  function SatAdd(a: i64, b: i64): i64 {
    Clamp(a as int + b as int)
  }

  function SatSub(a: i64, b: i64): i64 {
    Clamp(a as int - b as int)
  }

  function SatAbs(a: i64): i64 {
    Clamp(if a < 0 then -(a as int) else a as int)
  }
}
