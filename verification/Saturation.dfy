/** Unsigned 64-bit numbers that stop at the largest instead of wrapping. */
module Saturation {

  const U64_MAX: nat := 0xFFFF_FFFF_FFFF_FFFF

  /** An unsigned 64-bit number. */
  type U64 = n: nat | n <= U64_MAX

  function Saturated(n: nat): nat {
    if n > U64_MAX then U64_MAX else n
  }

  function SaturatingAdd(a: nat, b: nat): nat {
    Saturated(a + b)
  }
}
