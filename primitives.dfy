/** Machine integers of the target (64-bit Android), `std::time::Duration`,
    and the `as` casts between them that the engine and the foreign-call layer use. */
module Primitives {

  const I32_MIN: int := -0x8000_0000
  const U32_MODULUS: int := 0x1_0000_0000
  const U64_MODULUS: int := 0x1_0000_0000_0000_0000
  const NANOS_PER_SEC: int := 1_000_000_000
  const NANOS_PER_MILLI: int := 1_000_000
  const MILLIS_PER_SEC: int := 1_000

  /** `i32`, also `c_int` */
  type I32 = x: int | -0x8000_0000 <= x < 0x8000_0000
  /** `u32`, also `c_uint` */
  type U32 = x: int | 0 <= x < 0x1_0000_0000
  /** `u64`, and `usize` on the 64-bit target */
  type U64 = x: int | 0 <= x < 0x1_0000_0000_0000_0000
  /** The sub-second part of a duration */
  type Nanos = n: int | 0 <= n < 1_000_000_000

  datatype Option<+T> = None | Some(value: T)

  /** `std::time::Duration`: whole seconds and the nanoseconds below one second. */
  datatype Duration = Duration(secs: U64, nanos: Nanos)

  /** The length of a duration in nanoseconds. */
  function TotalNanos(d: Duration): nat
  {
    d.secs * NANOS_PER_SEC + d.nanos
  }

  /** `x as u64` (or `as usize`) for an `i32`: two's-complement sign extension. */
  function I32ToU64(x: I32): (r: U64)
    ensures x >= 0 ==> r == x
    ensures x < 0 ==> r == U64_MODULUS + x
  {
    x % U64_MODULUS
  }

  /** `x as i32` for a `u64`: keep the low 32 bits and read them as two's complement. */
  function U64ToI32(x: U64): (r: I32)
    ensures (r - x) % U32_MODULUS == 0
  {
    var low := x % U32_MODULUS;
    if low < 0x8000_0000 then low else low - U32_MODULUS
  }

  /** `x as u32` for a `u64`: keep the low 32 bits. */
  function U64ToU32(x: U64): (r: U32)
    ensures x < U32_MODULUS ==> r == x
    ensures (x - r) % U32_MODULUS == 0
  {
    x % U32_MODULUS
  }

  /** Sign-extending an `i32` to 64 bits and truncating back gives the same `i32`. */
  lemma I32RoundTrip(x: I32)
    ensures U64ToI32(I32ToU64(x)) == x
  {
    if x < 0 {
      assert I32ToU64(x) == (U64_MODULUS - U32_MODULUS) + (U32_MODULUS + x);
      assert (U64_MODULUS - U32_MODULUS) % U32_MODULUS == 0;
      assert I32ToU64(x) % U32_MODULUS == U32_MODULUS + x;
    }
  }

  /** `Duration::from_millis(ms)`: `ms / 1000` seconds and the rest as nanoseconds. */
  function FromMillis(ms: U64): (d: Duration)
    ensures TotalNanos(d) == ms * NANOS_PER_MILLI
  {
    var secs := ms / MILLIS_PER_SEC;
    var rest := ms % MILLIS_PER_SEC;
    assert ms == secs * MILLIS_PER_SEC + rest;
    assert secs * NANOS_PER_SEC == secs * MILLIS_PER_SEC * NANOS_PER_MILLI;
    Duration(secs, rest * NANOS_PER_MILLI)
  }
}
