/** Small shared vocabulary: optional values, results and the proxy's saturating counters. */
module Prelude {

  datatype Option<+T> = None | Some(value: T)

  datatype Result<+T, +E> = Ok(value: T) | Err(error: E)

  const U64_MAX: nat := 0xFFFF_FFFF_FFFF_FFFF

  type u64 = n: nat | n <= U64_MAX

  /** The value a saturating counter shows for an exact count. */
  function Clamp(n: nat): u64 {
    if n <= U64_MAX then n else U64_MAX
  }

  function SaturatingAdd(a: u64, b: u64): u64 {
    if a + b <= U64_MAX then a + b else U64_MAX
  }

  function SaturatingSub(a: u64, b: u64): u64 {
    if a >= b then a - b else 0
  }

  function Min(a: real, b: real): real {
    if a <= b then a else b
  }

  function Max(a: real, b: real): real {
    if a >= b then a else b
  }

  /** Token usage as an upstream reports it. */
  datatype Usage = Usage(input: u64, output: u64, total: u64)
}
