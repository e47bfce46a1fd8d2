/** Times as nanoseconds since the epoch. */
module Times {

  const SECOND := 1_000_000_000

  /** The time value that stands for no time at all. */
  const ZERO_TIME := -62135596800 * SECOND

  /** The first moment of the year 0 and of the year 10000: times outside are
      written as texts that do not read back. */
  const YEAR_0 := -62167219200 * SECOND
  const YEAR_10000 := 253402300800 * SECOND

  predicate ReadsBack(time: int) {
    YEAR_0 <= time < YEAR_10000
  }

  /** A missing time is replaced by the clock's. */
  function Resolved(time: int, clock: int): int {
    if time == ZERO_TIME then clock else time
  }
}
