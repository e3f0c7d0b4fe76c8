/**
 * The signed 64-bit range shared by Java's `long` and C++'s `int64_t`, and
 * Java's wrap-around `long` arithmetic.
 */
module FixedWidth {
  const TWO_TO_63: int := 0x8000_0000_0000_0000
  const TWO_TO_64: int := 0x1_0000_0000_0000_0000

  predicate IsInt64(x: int) { -TWO_TO_63 <= x < TWO_TO_63 }

  /** A value of a Java `long` or C++ `int64_t` variable. */
  type Int64 = x: int | IsInt64(x)

  /** Java `long` arithmetic: the mathematical result reduced into the 64-bit range. */
  function WrapInt64(x: int): (r: int)
    ensures IsInt64(r)
    ensures IsInt64(x) ==> r == x
    ensures (r - x) % TWO_TO_64 == 0
  {
    (x + TWO_TO_63) % TWO_TO_64 - TWO_TO_63
  }
}
