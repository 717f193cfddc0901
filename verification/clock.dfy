/** Instants and durations. An instant counts nanoseconds from 0001-01-01T00:00:00Z, so
    that Go's zero time is 0; the last instant is the end of the year 9999, the last one a
    four-digit-year timestamp can write. A duration is Go's 64-bit nanosecond count. */
module Clock {
  const SECOND: int := 1_000_000_000
  const DAY_SECONDS: int := 86_400
  const DAYS_TO_YEAR_10000: int := 3_652_059
  const END_OF_TIME: int := DAYS_TO_YEAR_10000 * DAY_SECONDS * SECOND

  const MAX_DURATION: int := 0x7FFF_FFFF_FFFF_FFFF
  const MIN_DURATION: int := -0x8000_0000_0000_0000

  type Time = t: int | 0 <= t < END_OF_TIME
  type Duration = d: int | MIN_DURATION <= d <= MAX_DURATION

  const ZERO_TIME: Time := 0

  /** `t.Sub(u)`: the difference, saturated to the range of a duration. */
  function Sub(t: Time, u: Time): (d: Duration)
  {
    if t - u > MAX_DURATION then MAX_DURATION
    else if t - u < MIN_DURATION then MIN_DURATION
    else t - u
  }

  /** Two's complement wrap-around of Go's int64. */
  function Wrap64(n: int): (d: Duration)
    ensures MIN_DURATION <= n <= MAX_DURATION ==> d == n
  {
    (n + 0x8000_0000_0000_0000) % 0x1_0000_0000_0000_0000 - 0x8000_0000_0000_0000
  }

  function MinTime(a: Time, b: Time): Time { if a <= b then a else b }

  function MaxTime(a: Time, b: Time): Time { if a <= b then b else a }
}
