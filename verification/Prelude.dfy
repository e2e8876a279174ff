/** Shared value types and the fixed-width arithmetic the relay relies on. */
module Prelude {
  datatype Option<+T> = None | Some(value: T)

  datatype Result<+T, +E> = Success(value: T) | Failure(error: E)

  const U32_MAX: nat := 0xFFFF_FFFF
  const U64_MAX: nat := 0xFFFF_FFFF_FFFF_FFFF

  type U32 = x: nat | x <= U32_MAX
  type U64 = x: nat | x <= U64_MAX

  function Min(a: nat, b: nat): nat {
    if a <= b then a else b
  }

  function Max(a: nat, b: nat): nat {
    if a >= b then a else b
  }

  /** `u32::saturating_add`. */
  function SatAdd32(a: U32, b: U32): U32 {
    Min(a + b, U32_MAX)
  }

  /** `u64::saturating_add`. */
  function SatAdd64(a: U64, b: U64): U64 {
    Min(a + b, U64_MAX)
  }

  /** `u64::saturating_mul`. */
  function SatMul64(a: nat, b: nat): U64 {
    Min(a * b, U64_MAX)
  }

  /** `saturating_sub` on unsigned integers. */
  function SatSub(a: nat, b: nat): nat {
    if a >= b then a - b else 0
  }

  /** `u32::abs_diff`. */
  function AbsDiff(a: nat, b: nat): nat {
    if a >= b then a - b else b - a
  }
}
