/** Fixed-width unsigned integers of the Rust source. Dafny integers are
    unbounded, so every `as u32` cast is written out with `Truncate32`. */
module MachineInt {

  const U32_LIMIT: int := 0x1_0000_0000

  /** Rust's `u32`. */
  type u32 = x: int | 0 <= x < U32_LIMIT

  /** `x as u32` for a non-negative `x`: keeps the low 32 bits. */
  function Truncate32(x: nat): (r: u32)
    ensures x < U32_LIMIT ==> r == x
    ensures exists k: nat :: x == k * U32_LIMIT + r
  {
    var r := x % U32_LIMIT;
    assert x == (x / U32_LIMIT) * U32_LIMIT + r;
    r
  }
}
