/** Wall-clock times are integer microseconds; stored timestamps are whole seconds.
    `_format_timestamp` truncates with `timespec="seconds"`, which is a floor. */
module Clock {

  const SECOND: int := 1_000_000
  const DAY_SECONDS: int := 86_400
  const DAY: int := DAY_SECONDS * SECOND

  function Stored(now: int): (seconds: int)
    ensures seconds * SECOND <= now < seconds * SECOND + SECOND
  {
    now / SECOND
  }
}
