/**
 * The three read queries of the price repository, as functions of the table's rows
 * (and, for the candidate-date query, of the set of dates the weather table holds).
 * Every date is the UTC date of the instant, and every hour its UTC hour.
 */
module PriceQueries {
  import opened UtcTime
  import opened Records
  import opened Seqs

  function At(t: Instant): PriceRecord -> bool
  {
    (r: PriceRecord) => r.recordedAt == t
  }

  function Within(start: Instant, end: Instant): PriceRecord -> bool
  {
    (r: PriceRecord) => start <= r.recordedAt < end
  }

  /** The rows recorded at `t`, `t + 1`, ..., `end - 1`, instant after instant (table order within an instant). */
  function RangeFrom(rows: seq<PriceRecord>, t: Instant, end: Instant): (r: seq<PriceRecord>)
    ensures forall i :: 0 <= i < |r| ==> r[i] in rows && t <= r[i].recordedAt < end
    ensures forall i, j :: 0 <= i < j < |r| ==> r[i].recordedAt <= r[j].recordedAt
    decreases end - t
  {
    if t >= end then [] else Filter(At(t), rows) + RangeFrom(rows, t + 1, end)
  }

  /** `findByRecordedAtBetween`: `start <= recordedAt < end ORDER BY recordedAt`. */
  function FindByRecordedAtBetween(rows: seq<PriceRecord>, start: Instant, end: Instant): seq<PriceRecord>
  {
    RangeFrom(rows, start, end)
  }

  lemma {:induction false} RangeFromMultiset(rows: seq<PriceRecord>, t: Instant, end: Instant)
    ensures multiset(RangeFrom(rows, t, end)) == multiset(Filter(Within(t, end), rows))
    decreases end - t
  {
    if t >= end {
      forall x ensures multiset(Filter(Within(t, end), rows))[x] == 0 {
        FilterCount(Within(t, end), rows, x);
      }
    } else {
      RangeFromMultiset(rows, t + 1, end);
      forall x
        ensures multiset(RangeFrom(rows, t, end))[x] == multiset(Filter(Within(t, end), rows))[x]
      {
        FilterCount(At(t), rows, x);
        FilterCount(Within(t + 1, end), rows, x);
        FilterCount(Within(t, end), rows, x);
      }
    }
  }

  /** The range query returns exactly the rows in `[start, end)`, each as often as the table holds it, ascending. */
  lemma RangeQueryIsExact(rows: seq<PriceRecord>, start: Instant, end: Instant)
    ensures var r := FindByRecordedAtBetween(rows, start, end);
      && multiset(r) == multiset(Filter(Within(start, end), rows))
      && (forall x :: x in r <==> x in rows && start <= x.recordedAt < end)
      && (forall i, j :: 0 <= i < j < |r| ==> r[i].recordedAt <= r[j].recordedAt)
  {
    RangeFromMultiset(rows, start, end);
    var r := FindByRecordedAtBetween(rows, start, end);
    SameMultisetSameMembers(r, Filter(Within(start, end), rows));
  }

  lemma SameMultisetSameMembers(a: seq<PriceRecord>, b: seq<PriceRecord>)
    requires multiset(a) == multiset(b)
    ensures forall x :: x in a <==> x in b
  {
    forall x ensures x in a <==> x in b {
      assert x in a <==> x in multiset(a);
      assert x in b <==> x in multiset(b);
    }
  }

  /** True when some row falls on UTC date `d` at UTC hour `h`. */
  predicate HasRecordAt(rows: seq<PriceRecord>, d: Date, h: int)
  {
    exists r :: r in rows && DayOf(r.recordedAt) == d && HourOf(r.recordedAt) == h
  }

  /** The hours `h, h + 1, ..., 23` at which date `d` has a row. */
  function HoursFrom(rows: seq<PriceRecord>, d: Date, h: int): seq<int>
    requires 0 <= h <= 24
    decreases 24 - h
  {
    if h == 24 then []
    else (if HasRecordAt(rows, d, h) then [h] else []) + HoursFrom(rows, d, h + 1)
  }

  lemma {:induction false} HoursFromSpec(rows: seq<PriceRecord>, d: Date, h: int)
    requires 0 <= h <= 24
    ensures var r := HoursFrom(rows, d, h);
      && (forall i :: 0 <= i < |r| ==> h <= r[i] < 24)
      && (forall i, j :: 0 <= i < j < |r| ==> r[i] < r[j])
      && (forall x :: x in r <==> h <= x < 24 && HasRecordAt(rows, d, x))
    decreases 24 - h
  {
    if h < 24 {
      HoursFromSpec(rows, d, h + 1);
    }
  }

  /** `findRecordedHoursByDate`: `SELECT DISTINCT` UTC hour of the rows on UTC date `d`, `ORDER BY 1`. */
  function FindRecordedHoursByDate(rows: seq<PriceRecord>, d: Date): seq<int>
  {
    HoursFrom(rows, d, 0)
  }

  /** The recorded hours of a date are hours of the day, strictly ascending, and exactly those at which it has a row. */
  lemma RecordedHoursSpec(rows: seq<PriceRecord>, d: Date)
    ensures var r := FindRecordedHoursByDate(rows, d);
      && (forall i :: 0 <= i < |r| ==> 0 <= r[i] < 24)
      && (forall i, j :: 0 <= i < j < |r| ==> r[i] < r[j])
      && (forall x :: x in r <==> exists p :: p in rows && DayOf(p.recordedAt) == d && HourOf(p.recordedAt) == x)
  {
    HoursFromSpec(rows, d, 0);
    var r := FindRecordedHoursByDate(rows, d);
    forall x ensures x in r ==> 0 <= x < 24 {
      if x in r {
        var i :| 0 <= i < |r| && r[i] == x;
      }
    }
    forall x | exists p :: p in rows && DayOf(p.recordedAt) == d && HourOf(p.recordedAt) == x
      ensures x in r
    {
      var p :| p in rows && DayOf(p.recordedAt) == d && HourOf(p.recordedAt) == x;
      assert 0 <= HourOf(p.recordedAt) < 24;
    }
  }

  function RecordDay(): PriceRecord -> Date
  {
    (r: PriceRecord) => DayOf(r.recordedAt)
  }

  function NotIn(dates: set<Date>): Date -> bool
  {
    (d: Date) => d !in dates
  }

  /**
   * `findPricesDateWithoutWeather`: the distinct dates of the rows whose date has no weather row.
   * The query has no ORDER BY; the model lists each date where it first occurs in the table.
   */
  function FindPricesDateWithoutWeather(rows: seq<PriceRecord>, weatherDates: set<Date>): (r: seq<Date>)
    ensures forall d :: d in r <==> d !in weatherDates && exists p :: p in rows && DayOf(p.recordedAt) == d
    ensures forall i, j :: 0 <= i < j < |r| ==> r[i] != r[j]
  {
    var days := Map(RecordDay(), rows);
    assert forall d :: d in days <==> exists p :: p in rows && DayOf(p.recordedAt) == d by {
      forall d | d in days ensures exists p :: p in rows && DayOf(p.recordedAt) == d {
        var i :| 0 <= i < |days| && days[i] == d;
        assert rows[i] in rows;
      }
      forall d | exists p :: p in rows && DayOf(p.recordedAt) == d ensures d in days {
        var p :| p in rows && DayOf(p.recordedAt) == d;
        var i :| 0 <= i < |rows| && rows[i] == p;
        assert days[i] == d;
      }
    }
    Distinct(Filter(NotIn(weatherDates), days))
  }

  /**
   * Once weather rows exist for the dates `saved`, those dates stop being candidates and the other
   * candidates keep their order: the reconciler's idempotence rests on this.
   */
  lemma CandidatesShrinkAsWeatherArrives(rows: seq<PriceRecord>, weatherDates: set<Date>, saved: set<Date>)
    ensures FindPricesDateWithoutWeather(rows, weatherDates + saved)
         == Filter(NotIn(weatherDates + saved), FindPricesDateWithoutWeather(rows, weatherDates))
  {
    var days := Map(RecordDay(), rows);
    FilterFilter(NotIn(weatherDates + saved), NotIn(weatherDates), days);
    DistinctFilter(NotIn(weatherDates + saved), Filter(NotIn(weatherDates), days));
  }
}
