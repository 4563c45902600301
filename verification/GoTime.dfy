/** The parts of Go's time package the gateway relies on. Times are nanoseconds since the Unix epoch,
durations are nanoseconds. */
module GoTime {
  import opened GoStrings

  const SECOND: int := 1_000_000_000

  /** Go's zero time.Time, the start of year 1. */
  const ZERO_TIME: int := -62_135_596_800 * SECOND

  /** time.Time.Sub, which saturates. */
  function SubTime(a: int, b: int): int {
    if a - b > INT64_MAX then INT64_MAX else if a - b < INT64_MIN then INT64_MIN else a - b
  }

  /** time.Duration.Round(time.Second) of a wait. */
  function RoundToSecond(d: int): int
    requires d >= 0
  {
    var r := d % SECOND;
    if r + r < SECOND then d - r
    else if d + SECOND - r > INT64_MAX then INT64_MAX
    else d + SECOND - r
  }
}
