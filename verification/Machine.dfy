/** Machine integers of the profiler: widths and saturating arithmetic. */
module Machine {
  const U32_MAX: nat := 0xFFFF_FFFF
  const U64_MAX: nat := 0xFFFF_FFFF_FFFF_FFFF
  const I64_MAX: nat := 0x7FFF_FFFF_FFFF_FFFF
  const U128_MAX: nat := 0xFFFF_FFFF_FFFF_FFFF_FFFF_FFFF_FFFF_FFFF

  type u8 = x: int | 0 <= x <= 0xFF
  type u16 = x: int | 0 <= x <= 0xFFFF
  type u32 = x: int | 0 <= x <= U32_MAX
  type u64 = x: int | 0 <= x <= U64_MAX

  function Min(a: int, b: int): int {
    if a <= b then a else b
  }

  function Max(a: int, b: int): int {
    if a >= b then a else b
  }

  /** `a.saturating_sub(b)` on an unsigned type. */
  function SaturatingSub(a: nat, b: nat): nat {
    if a >= b then a - b else 0
  }

  /** Clamping an exact result into the type: what the `saturating_` operations and the
      saturating casts of `u64` and `u128` to `i64` return. */
  function SatI64(a: nat): nat {
    if a <= 0x7FFF_FFFF_FFFF_FFFF then a else 0x7FFF_FFFF_FFFF_FFFF
  }

  function SatU64(a: nat): nat {
    if a <= 0xFFFF_FFFF_FFFF_FFFF then a else 0xFFFF_FFFF_FFFF_FFFF
  }

  function SatU128(a: nat): nat {
    if a <= 0xFFFF_FFFF_FFFF_FFFF_FFFF_FFFF_FFFF_FFFF then a else 0xFFFF_FFFF_FFFF_FFFF_FFFF_FFFF_FFFF_FFFF
  }

  datatype Option<+T> = None | Some(value: T)
}
