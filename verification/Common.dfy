/** Shared vocabulary: options, bytes, machine-integer bounds and saturating arithmetic. */
module Common {

  datatype Option<+T> = None | Some(value: T)

  type byte = x: int | 0 <= x < 256

  const U16 := 0x1_0000
  const U32 := 0x1_0000_0000
  const U48 := 0x1_0000_0000_0000
  const U64 := 0x1_0000_0000_0000_0000

  function Min(a: int, b: int): int { if a <= b then a else b }

  function Max(a: int, b: int): int { if a <= b then b else a }

  /** `u64::saturating_add`. */
  function SatAdd(a: nat, b: nat): nat { Min(a + b, U64 - 1) }

  /** `u32::saturating_add`. */
  function SatAdd32(a: nat, b: nat): nat { Min(a + b, U32 - 1) }

  /** `saturating_sub` on unsigned operands. */
  function SatSub(a: nat, b: nat): nat { Max(a - b, 0) }

  /** `u64::saturating_mul`. */
  function SatMul(a: nat, b: nat): nat { Min(a * b, U64 - 1) }

  /** Overflowing `u64` addition of a release build. */
  function Wrap64(x: nat): nat { x % U64 }

  /** `x |= bit` for a single-bit mask. */
  function SetBit(x: nat, bit: nat): nat
    requires bit > 0
  {
    if (x / bit) % 2 == 1 then x else x + bit
  }
}
