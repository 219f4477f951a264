/** Shared vocabulary: optional values, outcomes, and 64-bit integer arithmetic. */
module Prelude {
  datatype Option<+T> = None | Some(value: T)

  datatype Result<+T, +E> = Ok(value: T) | Err(error: E)

  const MAX_INT64: int := 0x7FFF_FFFF_FFFF_FFFF

  predicate FitsInt64(x: int) {
    -MAX_INT64 - 1 <= x <= MAX_INT64
  }

  /** The value an int64 variable holds after an arithmetic result `x` is stored in it. */
  function Wrap64(x: int): (r: int)
    ensures FitsInt64(r)
  {
    if FitsInt64(x) then x
    else
      var m := x % 0x1_0000_0000_0000_0000;
      if m <= MAX_INT64 then m else m - 0x1_0000_0000_0000_0000
  }

  /** Integer division rounding toward zero. */
  function TruncDiv(x: int, d: int): int
    requires d > 0
  {
    if x >= 0 then x / d else -((-x) / d)
  }
}
