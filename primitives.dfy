/** Machine-level types shared by the backends: the unsigned 32-bit millisecond
    timeout every backend call takes, an optional value, and the two C time
    structures the POSIX backends fill in. */
module Primitives {

  /** `u32::MAX`, the largest timeout one backend call accepts (about 49.7 days in ms). */
  const U32_MAX: int := 0xFFFF_FFFF

  /** Rust's `u32`. */
  type u32 = x: int | 0 <= x <= U32_MAX

  /** The narrowest range the C standard allows for `long`: a `long` of either
      width (32 or 64 bits) holds every value of this type. */
  type CLong32 = x: int | -0x8000_0000 <= x <= 0x7FFF_FFFF

  datatype Option<+T> = None | Some(value: T)

  /** `struct timespec`: whole seconds plus nanoseconds. */
  datatype Timespec = Timespec(tvSec: int, tvNsec: int)

  /** `struct timeval`: whole seconds plus microseconds. */
  datatype Timeval = Timeval(tvSec: int, tvUsec: int)

  function Max(a: int, b: int): (m: int)
    ensures m >= a && m >= b && (m == a || m == b)
  {
    if a >= b then a else b
  }
}
