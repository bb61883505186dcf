/** Instants and the recurring UTC week. */
module Clock {
  /** Nanoseconds since Monday 0001-01-01 00:00 UTC, the zero instant of the source's clock. */
  type Time = int

  type Duration = int

  const NS_PER_SECOND: int := 1_000_000_000
  const NS_PER_MINUTE: int := 60 * NS_PER_SECOND
  const MINUTES_PER_DAY: int := 1440
  const MINUTES_PER_WEEK: int := 10080

  function Seconds(n: int): Duration {
    n * NS_PER_SECOND
  }

  // The index of the minute holding t. The divisor is positive, so Euclidean
  // division rounds down, also before the zero instant.
  function MinuteIndex(t: Time): int {
    t / NS_PER_MINUTE
  }

  function MinuteOfDay(t: Time): int {
    MinuteIndex(t) % MINUTES_PER_DAY
  }

  // Sunday is 0; day 0 of the clock was a Monday.
  function Weekday(t: Time): int {
    (1 + MinuteIndex(t) / MINUTES_PER_DAY) % 7
  }

  // Minutes since Sunday 00:00 UTC.
  function MinuteOfWeek(t: Time): int {
    (MINUTES_PER_DAY + MinuteIndex(t)) % MINUTES_PER_WEEK
  }

  // Two dates whose weekday is known: 1970-01-01 was a Thursday, 9999-01-01 will be a Friday.
  lemma KnownWeekdays()
    ensures Weekday(719162 * 86400 * NS_PER_SECOND) == 4 && Weekday(3651694 * 86400 * NS_PER_SECOND) == 5
  {
  }

  lemma WeekdayAndMinute(t: Time)
    ensures 0 <= Weekday(t) < 7 && 0 <= MinuteOfDay(t) < MINUTES_PER_DAY
    ensures MinuteOfWeek(t) == Weekday(t) * MINUTES_PER_DAY + MinuteOfDay(t)
  {
  }
}
