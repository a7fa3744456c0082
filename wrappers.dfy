/** Option and Result, shared by the modules of this model. */
module Wrappers {

  datatype Option<+T> = None | Some(value: T)

  /** A value or an error; stands for Rust's `Result<T, E>`. */
  datatype Result<+T, +E> = Ok(value: T) | Err(error: E)
}

/** Integer widths of the target (wasm32): u8, u32, usize, i64 and u64 bit patterns. */
module Ints {

  const U8_LIMIT: int := 0x100
  const U32_LIMIT: int := 0x1_0000_0000
  const U32_MAX: int := U32_LIMIT - 1
  const U64_LIMIT: int := 0x1_0000_0000_0000_0000

  newtype uint8 = x: int | 0 <= x < 0x100

  /** usize on wasm32 is 32 bits wide; `wrapping_add(1)` wraps at 2^32. */
  function WrappingIncUsize(x: nat): (r: nat)
    requires x < U32_LIMIT
    ensures r < U32_LIMIT
    ensures x < U32_MAX ==> r == x + 1
    ensures x == U32_MAX ==> r == 0
  {
    (x + 1) % U32_LIMIT
  }

  /** i64.sub on bit patterns: subtraction modulo 2^64, read back as unsigned. */
  function WrappingSub64(a: nat, b: nat): (r: nat)
    requires a < U64_LIMIT && b < U64_LIMIT
    ensures r < U64_LIMIT
    ensures b <= a ==> r == a - b
    ensures a < b ==> r == a - b + U64_LIMIT
  {
    (a - b) % U64_LIMIT
  }
}
