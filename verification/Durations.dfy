/** Durations in nanoseconds. */
module Durations {

  const HOUR := 3_600_000_000_000

  const DAY := 24 * HOUR
}
