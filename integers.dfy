/** The fixed-width integers of the combatant state and Rust's saturating
    operations on them. The widths of `StatValue` and `SignedStatValue` are
    taken to be those of `u16` and `i16`. */
module Integers {

  const StatValueMax: int := 0xFFFF
  const SignedStatValueMin: int := -0x8000
  const SignedStatValueMax: int := 0x7FFF

  /** An unsigned stat value (`u16`). */
  type StatValue = x: int | 0 <= x <= StatValueMax

  /** A signed stat value (`i16`), used for modifiers. */
  type SignedStatValue = x: int | SignedStatValueMin <= x <= SignedStatValueMax

  /** `x` forced into `[lo, hi]`: the shape of every saturating operation. */
  function Clamp(x: int, lo: int, hi: int): (r: int)
    requires lo <= hi
    ensures lo <= r <= hi
    ensures lo <= x <= hi ==> r == x
    ensures x < lo ==> r == lo
    ensures hi < x ==> r == hi
  {
    if x < lo then lo else if hi < x then hi else x
  }

  /** `u16::saturating_sub`. */
  function SaturatingSub(a: StatValue, b: StatValue): StatValue
  {
    Clamp(a - b, 0, StatValueMax)
  }

  /** `u16::saturating_add_signed`. */
  function SaturatingAddSigned(a: StatValue, d: SignedStatValue): StatValue
  {
    Clamp(a + d, 0, StatValueMax)
  }

  /** `i16::saturating_sub_unsigned`. */
  function SaturatingSubUnsigned(a: SignedStatValue, b: StatValue): SignedStatValue
  {
    Clamp(a - b, SignedStatValueMin, SignedStatValueMax)
  }

  /** `i16::saturating_add_unsigned`. */
  function SaturatingAddUnsigned(a: SignedStatValue, b: StatValue): SignedStatValue
  {
    Clamp(a + b, SignedStatValueMin, SignedStatValueMax)
  }

  /** The `as i16` cast of a `u16`: the same bits read in two's complement,
      so values above `i16::MAX` wrap to negative ones. */
  function AsSigned(x: StatValue): (r: SignedStatValue)
    ensures (x - r) % 0x1_0000 == 0
    ensures x <= SignedStatValueMax <==> r == x
    ensures SignedStatValueMax < x <==> r < 0
  {
    if x <= SignedStatValueMax then x else x - 0x1_0000
  }
}
