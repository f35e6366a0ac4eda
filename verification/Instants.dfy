/**
 Instants and durations in nanoseconds, and the RFC 3339 stamps that survive
 between reconciles. Formatting a stamp drops the sub-second part (section 5.6
 of RFC 3339), so every stored deadline or expiry is a floor.
 */
module Instants {

  const SECOND: int := 1_000_000_000
  const MINUTE: int := 60 * SECOND
  const HOUR: int := 60 * MINUTE

  /** The bounds of a 64-bit duration. */
  const MAX_DURATION: int := 0x7FFF_FFFF_FFFF_FFFF
  const MIN_DURATION: int := -0x8000_0000_0000_0000

  /** What an annotation holding a time says: nothing, text that is no time, or an instant. */
  datatype Stamp = Missing | Unparseable | At(instant: int)

  /** The start of the second that t lies in. */
  function Truncate(t: int): int {
    t - t % SECOND
  }

  /** The stamp written for instant t. */
  function Format(t: int): Stamp {
    At(Truncate(t))
  }

  /** The difference of two instants, saturating at the bounds of a duration. */
  function Since(later: int, earlier: int): (d: int)
    ensures MIN_DURATION <= d <= MAX_DURATION
    ensures MIN_DURATION <= later - earlier <= MAX_DURATION ==> d == later - earlier
  {
    var d := later - earlier;
    if d > MAX_DURATION then MAX_DURATION
    else if d < MIN_DURATION then MIN_DURATION
    else d
  }

  /** Half of a lifetime, rounded toward zero. */
  function Half(ttl: int): int {
    if ttl >= 0 then ttl / 2 else -(-ttl / 2)
  }
}
