/** The fixed-width Go integer types the metric layer reads and computes with. */
module Ints {

  const TwoTo32: int := 0x1_0000_0000
  const TwoTo63: int := 0x8000_0000_0000_0000
  const TwoTo64: int := 0x1_0000_0000_0000_0000

  type u32 = x: int | 0 <= x < TwoTo32
  type u64 = x: int | 0 <= x < TwoTo64
  type i32 = x: int | -0x8000_0000 <= x < 0x8000_0000
  type i64 = x: int | -TwoTo63 <= x < TwoTo63

  /** Go's `int64(x)` for an unsigned 64-bit `x`: two's-complement reinterpretation. */
  function ToInt64(x: u64): (r: i64)
    ensures x < TwoTo63 ==> r == x
    ensures x >= TwoTo63 ==> r < 0 && r + TwoTo64 == x
  {
    if x < TwoTo63 then x else x - TwoTo64
  }

  /** Go's wrapping `+` on `uint64`. */
  function AddU64(a: u64, b: u64): (r: u64)
    ensures a + b < TwoTo64 ==> r == a + b
    ensures a + b >= TwoTo64 ==> r == a + b - TwoTo64
  {
    (a + b) % TwoTo64
  }
}
