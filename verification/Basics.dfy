/** Shared vocabulary: optional values, results and byte strings. */
module Basics {

  datatype Option<+T> = None | Some(value: T) {
    function UnwrapOr(default: T): T {
      match this
      case Some(v) => v
      case None => default
    }
  }

  datatype Result<+T, +E> = Ok(value: T) | Err(error: E)

  /** The service's error classes. */
  datatype Error = BadRequest | Unauthorized | Forbidden | Conflict | Internal | Config

  newtype byte = x: int | 0 <= x < 256

  type Bytes = seq<byte>

  const U64_LIMIT: int := 0x1_0000_0000_0000_0000

  // System time counts seconds in 64 bits around the epoch.
  const MAX_INSTANT: int := 0x7FFF_FFFF_FFFF_FFFF
  const MIN_INSTANT: int := -0x8000_0000_0000_0000

  type Instant = t: int | MIN_INSTANT <= t <= MAX_INSTANT witness 0

  /** A clock reading: at or after the epoch. */
  type Moment = t: Instant | 0 <= t
}
