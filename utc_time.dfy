/**
 * Instants and calendar dates in UTC.
 * An instant is a count of seconds since 1970-01-01T00:00Z; a date is a count of days since 1970-01-01.
 * Dafny's `/` and `%` are Euclidean, so for a negative instant they floor, as Java's UTC date derivation does.
 */
module UtcTime {

  type Instant = int
  type Date = int

  const SecondsPerDay: int := 86400
  const SecondsPerHour: int := 3600

  /** The UTC calendar date of an instant. */
  function DayOf(t: Instant): Date
  {
    t / SecondsPerDay
  }

  /** The UTC hour of day of an instant. */
  function HourOf(t: Instant): (h: int)
    ensures 0 <= h < 24
  {
    (t % SecondsPerDay) / SecondsPerHour
  }

  /** The first instant of a date (midnight UTC). */
  function StartOfDay(d: Date): Instant
  {
    d * SecondsPerDay
  }

  /** An instant falls on date `d` exactly when it lies in the half-open interval of that day's seconds. */
  lemma DayOfIsHalfOpenDay(t: Instant, d: Date)
    ensures DayOf(t) == d <==> StartOfDay(d) <= t < StartOfDay(d + 1)
  {
    var q, r := t / SecondsPerDay, t % SecondsPerDay;
    assert t == q * SecondsPerDay + r && 0 <= r < SecondsPerDay;
    assert StartOfDay(d + 1) == StartOfDay(d) + SecondsPerDay;
    if q < d {
      assert q * SecondsPerDay <= (d - 1) * SecondsPerDay;
    } else if q > d {
      assert (d + 1) * SecondsPerDay <= q * SecondsPerDay;
    }
  }

  /** Dates before `d` start before `d` does: the day boundaries are ordered like the dates. */
  lemma StartOfDayMonotone(d: Date, e: Date)
    requires d <= e
    ensures StartOfDay(d) <= StartOfDay(e)
  {
    assert StartOfDay(e) - StartOfDay(d) == (e - d) * SecondsPerDay;
  }

  /** An instant is its date's midnight plus its hour plus the seconds into that hour. */
  lemma InstantDecomposition(t: Instant)
    ensures t == StartOfDay(DayOf(t)) + HourOf(t) * SecondsPerHour + t % SecondsPerHour
  {
    var r := t % SecondsPerDay;
    assert t == DayOf(t) * SecondsPerDay + r;
    assert r == (r / SecondsPerHour) * SecondsPerHour + r % SecondsPerHour;
    assert t % SecondsPerHour == r % SecondsPerHour by {
      assert t - r == DayOf(t) * 24 * SecondsPerHour;
    }
  }
}
