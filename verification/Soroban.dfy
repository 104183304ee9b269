/** What both contracts take from their host: addresses and machine widths. Overflow checks are on
    in the release profile, so arithmetic that leaves its width traps. */
module Soroban {
  type Address = string

  const U32_MAX: int := 0xFFFF_FFFF
  const U64_MAX: int := 0xFFFF_FFFF_FFFF_FFFF
  const I128_MAX: int := 0x7FFF_FFFF_FFFF_FFFF_FFFF_FFFF_FFFF_FFFF

  predicate FitsI128(x: int) { -I128_MAX - 1 <= x <= I128_MAX }
}
