/** Small shared vocabulary: optional values and saturating unsigned arithmetic. */
module Prelude {

  datatype Option<+T> = None | Some(value: T)

  const U32_MAX: nat := 0xffff_ffff
  const U64_MAX: nat := 0xffff_ffff_ffff_ffff

  type u32 = x: int | 0 <= x <= 0xffff_ffff
  type u64 = x: int | 0 <= x <= 0xffff_ffff_ffff_ffff

  function SatAdd(a: u32, b: u32): u32 { Min(a + b, U32_MAX) }

  function SatMul(a: u32, b: u32): u32 { Min(a * b, U32_MAX) }

  function Min(a: int, b: int): int { if a <= b then a else b }

  function Max(a: int, b: int): int { if a >= b then a else b }

  function AbsDiff(a: int, b: int): nat { if a >= b then a - b else b - a }

  /** Unsigned subtraction that stops at zero. */
  function SatSub(a: nat, b: nat): (r: nat)
    ensures r <= a
  {
    if a >= b then a - b else 0
  }
}
