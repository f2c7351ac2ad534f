/** Shared vocabulary: an optional value and the fixed-width integer casts
    that the client performs on sizes. */
module Common {

  /** Rust's `Option<T>`. */
  datatype Option<+T> = None | Some(value: T)

  /** Rust's `Result<T, E>`. */
  datatype Result<+T, +E> = Ok(value: T) | Err(error: E)

  const U32_MAX: nat := 0xFFFF_FFFF
  const I32_MAX: nat := 0x7FFF_FFFF
  const TWO_POW_32: nat := 0x1_0000_0000

  /** Rust's `u32`. */
  type u32 = x: nat | x <= U32_MAX

  /** A width and a height, as `(u32, u32)`. */
  datatype Dims = Dims(width: u32, height: u32)

  /** `x as u32` applied to a non-negative `f64` that holds the integer `x`:
      Rust's float-to-integer cast saturates at the top of the range. */
  function SaturateU32(x: nat): (r: u32)
    ensures r <= x
    ensures r == x <==> x <= U32_MAX
    ensures x > U32_MAX ==> r == U32_MAX
  {
    if x <= U32_MAX then x else U32_MAX
  }

  /** `x as i32` for a `u32`: the bit pattern is reinterpreted in two's
      complement, so values above `i32::MAX` wrap to negatives. */
  function WrapToI32(x: u32): (r: int)
    ensures -(I32_MAX as int) - 1 <= r <= I32_MAX
    ensures (x - r) % TWO_POW_32 == 0
    ensures r == x <==> x <= I32_MAX
  {
    if x <= I32_MAX then x else x - TWO_POW_32
  }

  /** `i32::try_from(x)` for a `u32`: fails exactly when the value does not fit. */
  function TryIntoI32(x: u32): (r: Option<int>)
    ensures r.Some? <==> x <= I32_MAX
    ensures r.Some? ==> r.value == x
  {
    if x <= I32_MAX then Some(x) else None
  }
}
