/** Go's fixed-width integers. Dafny's `int` is unbounded, so the widths
    the client relies on, and the wrap-around of Go's arithmetic on them,
    are written out here. */
module Ints {

  const TWO_TO_THE_64: int := 0x1_0000_0000_0000_0000
  const INT64_MIN: int := -0x8000_0000_0000_0000
  const INT64_MAX: int := 0x7FFF_FFFF_FFFF_FFFF

  type uint64 = x: int | 0 <= x < TWO_TO_THE_64
  type int64 = x: int | INT64_MIN <= x <= INT64_MAX

  /** Go's `a + b` on uint64: the sum modulo 2^64. */
  function AddUint64(a: uint64, b: uint64): (r: uint64)
    ensures a + b < TWO_TO_THE_64 ==> r == a + b
    ensures a + b >= TWO_TO_THE_64 ==> r == a + b - TWO_TO_THE_64
    ensures r == (a + b) % TWO_TO_THE_64
  {
    if a + b < TWO_TO_THE_64 then a + b else a + b - TWO_TO_THE_64
  }

  /** The int64 that Go's two's-complement arithmetic leaves when the exact
      result is `x`: the unique value in range congruent to `x` modulo 2^64. */
  function WrapInt64(x: int): (r: int64)
    ensures (x - r) % TWO_TO_THE_64 == 0
    ensures INT64_MIN <= x <= INT64_MAX ==> r == x
  {
    (x - INT64_MIN) % TWO_TO_THE_64 + INT64_MIN
  }
}
