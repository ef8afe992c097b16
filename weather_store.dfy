/** The `weather_data` table: one row per date (`UNIQUE (date)`), written by inserts. */
module WeatherStore {
  import opened UtcTime
  import opened Records
  import opened Seqs

  predicate UniqueDates(rows: seq<WeatherRecord>)
  {
    forall i, j :: 0 <= i < j < |rows| ==> rows[i].date != rows[j].date
  }

  function Dates(rows: seq<WeatherRecord>): set<Date>
  {
    set w | w in rows :: w.date
  }

  function DateWithin(start: Date, end: Date): WeatherRecord -> bool
  {
    (w: WeatherRecord) => start <= w.date <= end
  }

  /** `findByDateBetween`: the rows with `start <= date <= end` (both ends inclusive). */
  function FindByDateBetween(rows: seq<WeatherRecord>, start: Date, end: Date): (r: seq<WeatherRecord>)
    ensures forall w :: w in r <==> w in rows && start <= w.date <= end
  {
    Filter(DateWithin(start, end), rows)
  }

  /** A sub-list of a table with one row per date has one row per date. */
  lemma {:induction false} FilterKeepsUniqueDates(p: WeatherRecord -> bool, rows: seq<WeatherRecord>)
    requires UniqueDates(rows)
    ensures UniqueDates(Filter(p, rows))
  {
    if rows != [] {
      FilterKeepsUniqueDates(p, rows[1..]);
      var tail := Filter(p, rows[1..]);
      assert forall w :: w in tail ==> w in rows[1..];
      assert forall w :: w in rows[1..] ==> w.date != rows[0].date by {
        forall w | w in rows[1..] ensures w.date != rows[0].date {
          var k :| 0 <= k < |rows[1..]| && rows[1..][k] == w;
          assert rows[k + 1] == w;
        }
      }
    }
  }

  class WeatherTable {
    var rows: seq<WeatherRecord>

    ghost predicate Valid()
      reads this
    {
      UniqueDates(rows)
    }

    constructor ()
      ensures Valid() && rows == []
    {
      rows := [];
    }

    /**
     * `save` of a `WeatherData` without id: an INSERT, which the unique constraint on `date`
     * rejects when the date already has a row.
     */
    method Save(w: WeatherRecord) returns (ok: bool)
      requires Valid()
      modifies this
      ensures Valid()
      ensures ok <==> w.date !in Dates(old(rows))
      ensures rows == if ok then old(rows) + [w] else old(rows)
    {
      ok := forall i | 0 <= i < |rows| :: rows[i].date != w.date;
      assert ok <==> w.date !in Dates(rows) by {
        if !ok {
          var i :| 0 <= i < |rows| && rows[i].date == w.date;
          assert rows[i] in rows;
        }
      }
      if ok {
        rows := rows + [w];
      }
    }
  }
}
