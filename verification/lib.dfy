/** The library crate: addition of two 32-bit signed integers. */
module Lib {

  newtype I32 = x: int | -0x8000_0000 <= x < 0x8000_0000

  /** The sum must fit in 32 bits: Rust's `+` on `i32` overflows otherwise. */
  predicate SumFits(a: I32, b: I32)
  {
    -0x8000_0000 <= a as int + b as int < 0x8000_0000
  }

  /** `add`: the mathematical sum of its arguments. */
  function Add(a: I32, b: I32): (r: I32)
    requires SumFits(a, b)
    ensures r as int == a as int + b as int
  {
    a + b
  }

  /** The `adds_one_and_one` test. */
  lemma AddsOneAndOne()
    ensures Add(1, 1) == 2
  {
  }

  /** The `adds_negative_and_positive` test. */
  lemma AddsNegativeAndPositive()
    ensures Add(-1, 2) == 1
  {
  }

  lemma AddCommutes(a: I32, b: I32)
    requires SumFits(a, b)
    ensures SumFits(b, a) && Add(a, b) == Add(b, a)
  {
  }

  lemma AddZeroIsIdentity(a: I32)
    ensures SumFits(a, 0) && Add(a, 0) == a
  {
  }
}
