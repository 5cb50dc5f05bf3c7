/** Calendar days and instants. */
module Clock {

  /** Dates are day numbers, instants are microseconds since the same epoch. */
  const MICROS_PER_DAY: int := 24 * 60 * 60 * 1_000_000

  function DateOf(instant: int): int
  {
    instant / MICROS_PER_DAY
  }

  /** The last microsecond of a day: `datetime.combine(day, datetime.max.time())`. */
  function EndOfDay(day: int): int
  {
    (day + 1) * MICROS_PER_DAY - 1
  }

  lemma EndOfDayBefore(day: int, instant: int)
    ensures day < DateOf(instant) <==> EndOfDay(day) < instant
    ensures day == DateOf(instant) ==> instant <= EndOfDay(day)
  {
  }
}
