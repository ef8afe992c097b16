/**
 * The daily join of the price series and the weather series over a date range: the mean price of each UTC day,
 * the temperature recorded for the date, one row per date of the range that has either, in date order.
 */
module Aggregation {
  import opened Wrappers
  import opened UtcTime
  import opened Records
  import opened Seqs
  import opened Averages
  import opened PriceQueries
  import opened WeatherStore
  import opened DailyAggregates
  import LocalDates

  /**
   * A boxed key of a Java `Map`: a `Long` or a `LocalDate`. `Map.get` finds only a key that `equals` the
   * argument, and a `Long` never equals a `LocalDate`.
   */
  datatype MapKey = LongKey(value: int) | DateKey(date: Date)

  /** What the aggregation can throw. */
  datatype AggregationError =
    | InvalidArgument(message: string)   // IllegalArgumentException raised by the argument checks
    | DuplicateWeatherDate(date: Date)   // IllegalStateException from `toMap` on a repeated key
    | NullDate                           // NullPointerException from dereferencing a null date
    | DatesUntilBeforeStart              // IllegalArgumentException from `datesUntil` when its end precedes its start

  /** `Map.get`: the value under `k`, or null. */
  function Get(m: map<MapKey, real>, k: MapKey): Option<real>
  {
    if k in m then Some(m[k]) else None
  }

  function OnDay(d: Date): PriceRecord -> bool
  {
    (r: PriceRecord) => DayOf(r.recordedAt) == d
  }

  function PriceOfRecord(): PriceRecord -> real
  {
    (r: PriceRecord) => r.price
  }

  /** The prices of the records on UTC date `d`, in list order. */
  function DayPrices(prices: seq<PriceRecord>, d: Date): seq<real>
  {
    Map(PriceOfRecord(), Filter(OnDay(d), prices))
  }

  predicate HasPriceOn(prices: seq<PriceRecord>, d: Date)
  {
    exists r :: r in prices && DayOf(r.recordedAt) == d
  }

  lemma DayPricesOfPricedDays(prices: seq<PriceRecord>)
    ensures forall d :: HasPriceOn(prices, d) <==> DayPrices(prices, d) != []
  {
    forall d ensures HasPriceOn(prices, d) <==> DayPrices(prices, d) != [] {
      if HasPriceOn(prices, d) {
        var r :| r in prices && DayOf(r.recordedAt) == d;
        assert r in Filter(OnDay(d), prices);
      }
    }
  }

  /** `groupingBy(UTC date of recordedAt, averagingDouble(price))`: one entry per priced date, holding that day's mean. */
  function DailyPriceAverages(prices: seq<PriceRecord>): (m: map<MapKey, real>)
    ensures forall k :: k in m <==> k.DateKey? && HasPriceOn(prices, k.date)
    ensures forall k :: k in m ==> Some(m[k]) == Mean(DayPrices(prices, k.date))
  {
    DayPricesOfPricedDays(prices);
    map k | k in (set r | r in prices :: DateKey(DayOf(r.recordedAt))) :: Mean(DayPrices(prices, k.date)).value
  }

  /**
   * `toMap(getDate, getAverageTemperature)`: the records are inserted in list order, and the first record whose
   * date is already a key makes the collector throw.
   */
  function WeatherByDate(ws: seq<WeatherRecord>): (r: Result<map<MapKey, real>, AggregationError>)
    ensures r.Failure? ==> r.error.DuplicateWeatherDate?
    decreases |ws|
  {
    if ws == [] then Success(map[])
    else
      var w := ws[|ws| - 1];
      match WeatherByDate(ws[..|ws| - 1])
      case Failure(e) => Failure(e)
      case Success(m) =>
        if DateKey(w.date) in m then Failure(DuplicateWeatherDate(w.date))
        else Success(m[DateKey(w.date) := w.averageTemperature])
  }

  /**
   * The collector succeeds exactly when no two records share a date, and then maps each record's date, and
   * nothing else, to its temperature; a failure names a date two records share.
   */
  lemma WeatherByDateSpec(ws: seq<WeatherRecord>)
    ensures var r := WeatherByDate(ws);
      && (r.Success? <==> UniqueDates(ws))
      && (r.Success? ==> forall k :: k in r.value <==> k.DateKey? && k.date in Dates(ws))
      && (r.Success? ==> forall w :: w in ws ==> DateKey(w.date) in r.value && r.value[DateKey(w.date)] == w.averageTemperature)
      && (r.Failure? ==> exists i, j :: 0 <= i < j < |ws| && ws[i].date == r.error.date && ws[j].date == r.error.date)
  {
    WeatherByDateOutcome(ws);
    WeatherByDateContents(ws);
  }

  /** When the collector succeeds, its keys are the records' dates and each date holds its record's temperature. */
  lemma {:induction false} WeatherByDateContents(ws: seq<WeatherRecord>)
    ensures var r := WeatherByDate(ws);
      && (r.Success? ==> forall k :: k in r.value <==> k.DateKey? && k.date in Dates(ws))
      && (r.Success? ==> forall w :: w in ws ==> DateKey(w.date) in r.value && r.value[DateKey(w.date)] == w.averageTemperature)
    decreases |ws|
  {
    if ws != [] {
      var front, w := ws[..|ws| - 1], ws[|ws| - 1];
      WeatherByDateContents(front);
      assert ws == front + [w];
      DatesSnoc(front, w);
      assert forall v :: v in ws <==> v in front || v == w;
    }
  }

  /** The collector fails exactly when two records share a date, and then names such a date. */
  lemma {:induction false} WeatherByDateOutcome(ws: seq<WeatherRecord>)
    ensures var r := WeatherByDate(ws);
      && (r.Success? <==> UniqueDates(ws))
      && (r.Failure? ==> exists i, j :: 0 <= i < j < |ws| && ws[i].date == r.error.date && ws[j].date == r.error.date)
    decreases |ws|
  {
    if ws != [] {
      var front, w := ws[..|ws| - 1], ws[|ws| - 1];
      WeatherByDateOutcome(front);
      WeatherByDateContents(front);
      assert ws == front + [w];
      UniqueSnoc(front, w);
      match WeatherByDate(front)
      case Failure(e) =>
        assert forall i :: 0 <= i < |front| ==> front[i] == ws[i];
      case Success(m) =>
        if DateKey(w.date) in m {
          var v :| v in front && v.date == w.date;
          var i :| 0 <= i < |front| && front[i] == v;
          assert ws[i].date == ws[|ws| - 1].date;
        }
    }
  }

  lemma DatesSnoc(front: seq<WeatherRecord>, w: WeatherRecord)
    ensures Dates(front + [w]) == Dates(front) + {w.date}
  {
    assert forall v :: v in front + [w] <==> v in front || v == w;
  }

  /** Appending a record keeps the dates unique exactly when its date is new. */
  lemma UniqueSnoc(front: seq<WeatherRecord>, w: WeatherRecord)
    ensures UniqueDates(front + [w]) <==> UniqueDates(front) && w.date !in Dates(front)
  {
    var ws := front + [w];
    if UniqueDates(ws) {
      assert forall i :: 0 <= i < |front| ==> front[i] == ws[i];
      forall v | v in front ensures v.date != w.date {
        var i :| 0 <= i < |front| && front[i] == v;
        assert ws[i].date != ws[|front|].date;
      }
    }
    if UniqueDates(front) && w.date !in Dates(front) {
      forall i, j | 0 <= i < j < |ws| ensures ws[i].date != ws[j].date {
        assert ws[i] == front[i];
        if j < |front| {
          assert ws[j] == front[j];
        } else {
          assert front[i] in front;
        }
      }
    }
  }

  /** Some row of `rows` is for date `x`. */
  predicate Covers(rows: seq<DailyAggregatedData>, x: Date)
  {
    exists i :: 0 <= i < |rows| && rows[i].date == x
  }

  /**
   * `startDate.datesUntil(endDate.plusDays(1)).map(new DailyAggregatedData(...)).filter(...)`, from date `d`:
   * one row per date up to `end`, unless both of its rounded averages are null.
   */
  function Walk(d: Date, end: Date, priceAverages: map<MapKey, real>, weather: map<MapKey, real>): (r: seq<DailyAggregatedData>)
    ensures forall i :: 0 <= i < |r| ==> d <= r[i].date <= end
    ensures forall i, j :: 0 <= i < j < |r| ==> r[i].date < r[j].date
    ensures forall i :: 0 <= i < |r| ==>
      r[i].averageElectricityPrice == Get(priceAverages, DateKey(r[i].date))
      && r[i].averageTemperature == Get(weather, DateKey(r[i].date))
    ensures forall i :: 0 <= i < |r| ==> r[i].AverageElectricityPrice().Some? || r[i].AverageTemperature().Some?
    decreases end - d
  {
    if d > end then []
    else
      var row := DailyAggregatedData(d, Get(priceAverages, DateKey(d)), Get(weather, DateKey(d)));
      (if row.AverageElectricityPrice().Some? || row.AverageTemperature().Some? then [row] else [])
        + Walk(d + 1, end, priceAverages, weather)
  }

  /** The walk has a row for a date exactly when the date lies in `[d, end]` and one of the two maps has it as a key. */
  lemma {:induction false} WalkCoverage(d: Date, end: Date, priceAverages: map<MapKey, real>, weather: map<MapKey, real>)
    ensures forall x ::
      Covers(Walk(d, end, priceAverages, weather), x) <==> d <= x <= end && (DateKey(x) in priceAverages || DateKey(x) in weather)
    decreases end - d
  {
    if d <= end {
      WalkCoverage(d + 1, end, priceAverages, weather);
      forall x
        ensures Covers(Walk(d, end, priceAverages, weather), x)
          <==> Covers(Walk(d + 1, end, priceAverages, weather), x) || (x == d && (DateKey(d) in priceAverages || DateKey(d) in weather))
      {
        WalkStep(d, end, priceAverages, weather, x);
      }
    }
  }

  /** One step of the walk: date `d` is covered by its own row, when it has one, and every later date by the rest. */
  lemma WalkStep(d: Date, end: Date, priceAverages: map<MapKey, real>, weather: map<MapKey, real>, x: Date)
    requires d <= end
    ensures Covers(Walk(d, end, priceAverages, weather), x)
      <==> Covers(Walk(d + 1, end, priceAverages, weather), x) || (x == d && (DateKey(d) in priceAverages || DateKey(d) in weather))
  {
    var row := DailyAggregatedData(d, Get(priceAverages, DateKey(d)), Get(weather, DateKey(d)));
    var head := if row.AverageElectricityPrice().Some? || row.AverageTemperature().Some? then [row] else [];
    var rest := Walk(d + 1, end, priceAverages, weather);
    assert Walk(d, end, priceAverages, weather) == head + rest;
    CoversConcat(head, rest, x);
    if head != [] {
      assert head[0] == row;
    }
  }

  lemma CoversConcat(a: seq<DailyAggregatedData>, b: seq<DailyAggregatedData>, x: Date)
    ensures Covers(a + b, x) <==> Covers(a, x) || Covers(b, x)
  {
    if Covers(a + b, x) {
      var i :| 0 <= i < |a + b| && (a + b)[i].date == x;
      if i >= |a| {
        assert b[i - |a|] == (a + b)[i];
      }
    }
    if Covers(b, x) {
      var i :| 0 <= i < |b| && b[i].date == x;
      assert (a + b)[|a| + i] == b[i];
    }
    if Covers(a, x) {
      var i :| 0 <= i < |a| && a[i].date == x;
      assert (a + b)[i] == a[i];
    }
  }

  /** The join of the fetched price and weather lists over `[start, end]`, with the prices grouped by UTC date. */
  function Aggregate(start: Date, end: Date, prices: seq<PriceRecord>, weather: seq<WeatherRecord>): Result<seq<DailyAggregatedData>, AggregationError>
  {
    var priceAverages := DailyPriceAverages(prices);
    match WeatherByDate(weather)
    case Failure(e) => Failure(e)
    case Success(weatherByDate) => Success(Walk(start, end, priceAverages, weatherByDate))
  }

  /**
   * The join succeeds exactly when no date has two weather records. It then returns, in strictly ascending date
   * order, one row for each date of `[start, end]` that has a price record or a weather record and for no other,
   * holding the mean of that day's prices and the date's temperature (each null when absent).
   */
  lemma AggregateSpec(start: Date, end: Date, prices: seq<PriceRecord>, weather: seq<WeatherRecord>)
    ensures Aggregate(start, end, prices, weather).Success? <==> UniqueDates(weather)
    ensures Aggregate(start, end, prices, weather).Failure? ==> Aggregate(start, end, prices, weather).error.DuplicateWeatherDate?
    ensures Aggregate(start, end, prices, weather).Success? ==> var rows := Aggregate(start, end, prices, weather).value;
      && (forall i, j :: 0 <= i < j < |rows| ==> rows[i].date < rows[j].date)
      && (forall x :: Covers(rows, x)
            <==> start <= x <= end && (HasPriceOn(prices, x) || x in Dates(weather)))
      && (forall i :: 0 <= i < |rows| ==> rows[i].AverageElectricityPrice().Some? || rows[i].AverageTemperature().Some?)
      && (forall i :: 0 <= i < |rows| ==> rows[i].averageElectricityPrice == Mean(DayPrices(prices, rows[i].date)))
      && (forall i, w :: 0 <= i < |rows| && w in weather && w.date == rows[i].date
            ==> rows[i].averageTemperature == Some(w.averageTemperature))
      && (forall i :: 0 <= i < |rows| && rows[i].date !in Dates(weather) ==> rows[i].averageTemperature.None?)
  {
    DayPricesOfPricedDays(prices);
    WeatherByDateSpec(weather);
    var priceAverages := DailyPriceAverages(prices);
    match WeatherByDate(weather)
    case Failure(e) =>
    case Success(weatherByDate) =>
      WalkCoverage(start, end, priceAverages, weatherByDate);
      var rows := Walk(start, end, priceAverages, weatherByDate);
      assert Aggregate(start, end, prices, weather) == Success(rows);
      forall x ensures Covers(rows, x) <==> start <= x <= end && (HasPriceOn(prices, x) || x in Dates(weather)) {
        assert DateKey(x) in priceAverages <==> HasPriceOn(prices, x);
        assert DateKey(x) in weatherByDate <==> x in Dates(weather);
      }
      forall i | 0 <= i < |rows| ensures rows[i].averageElectricityPrice == Mean(DayPrices(prices, rows[i].date)) {
        assert DateKey(rows[i].date) in priceAverages <==> HasPriceOn(prices, rows[i].date);
      }
      forall i | 0 <= i < |rows| && rows[i].date !in Dates(weather) ensures rows[i].averageTemperature.None? {
        assert DateKey(rows[i].date) !in weatherByDate;
      }
  }

  /** With no price and no weather records the result is empty. */
  lemma AggregateOfNothing(start: Date, end: Date)
    ensures Aggregate(start, end, [], []) == Success([])
  {
    assert DailyPriceAverages([]) == map[];
    WalkOverNothing(start, end);
  }

  lemma {:induction false} WalkOverNothing(d: Date, end: Date)
    ensures Walk(d, end, map[], map[]) == []
    decreases end - d
  {
    if d <= end {
      WalkOverNothing(d + 1, end);
    }
  }

  /** The argument checks: null dates and a reversed range are rejected with the messages the service reports. */
  function CheckRange(start: Option<Date>, end: Option<Date>): Option<AggregationError>
  {
    if start.None? then Some(InvalidArgument("Start date cannot be null"))
    else if end.None? then Some(InvalidArgument("End date cannot be null"))
    else if end.value < start.value then Some(InvalidArgument(EndBeforeStartMessage(start.value, end.value)))
    else None
  }

  function EndBeforeStartMessage(start: Date, end: Date): string
  {
    "End date " + LocalDates.IsoString(end) + " cannot be before start date " + LocalDates.IsoString(start)
  }

  /**
   * `getAggregatedData(startDate, endDate)` over the two tables: check the arguments, fetch the prices recorded
   * from midnight of `startDate` up to midnight after `endDate` and the weather rows of `[startDate, endDate]`,
   * and join them.
   */
  function GetAggregatedData(start: Option<Date>, end: Option<Date>, priceRows: seq<PriceRecord>, weatherRows: seq<WeatherRecord>)
    : Result<seq<DailyAggregatedData>, AggregationError>
  {
    match CheckRange(start, end)
    case Some(e) => Failure(e)
    case None => FetchAndAggregate(start.value, end.value, priceRows, weatherRows)
  }

  /** The two range queries of a checked range, then the join. */
  function FetchAndAggregate(s: Date, e: Date, priceRows: seq<PriceRecord>, weatherRows: seq<WeatherRecord>)
    : Result<seq<DailyAggregatedData>, AggregationError>
  {
    Aggregate(s, e, FindByRecordedAtBetween(priceRows, StartOfDay(s), StartOfDay(e + 1)), FindByDateBetween(weatherRows, s, e))
  }

  /** A null date or a reversed range is an error, and a valid range over a weather table with one row per date never is. */
  lemma GetAggregatedDataChecksArguments(start: Option<Date>, end: Option<Date>, priceRows: seq<PriceRecord>, weatherRows: seq<WeatherRecord>)
    requires UniqueDates(weatherRows)
    ensures start.None? ==> GetAggregatedData(start, end, priceRows, weatherRows) == Failure(InvalidArgument("Start date cannot be null"))
    ensures start.Some? && end.None? ==> GetAggregatedData(start, end, priceRows, weatherRows) == Failure(InvalidArgument("End date cannot be null"))
    ensures GetAggregatedData(start, end, priceRows, weatherRows).Success?
      <==> start.Some? && end.Some? && start.value <= end.value
  {
    if start.Some? && end.Some? && start.value <= end.value {
      FilterKeepsUniqueDates(DateWithin(start.value, end.value), weatherRows);
      AggregateSpec(start.value, end.value,
        FindByRecordedAtBetween(priceRows, StartOfDay(start.value), StartOfDay(end.value + 1)),
        FindByDateBetween(weatherRows, start.value, end.value));
    }
  }

  /** The reversed range of the service's tests, with its message. */
  lemma ReversedRangeMessage(priceRows: seq<PriceRecord>, weatherRows: seq<WeatherRecord>)
    ensures GetAggregatedData(Some(19724), Some(19723), priceRows, weatherRows)
      == Failure(InvalidArgument("End date " + "2024-01-01" + " cannot be before start date " + "2024-01-02"))
  {
    EndBeforeStartExample();
    assert CheckRange(Some(19724), Some(19723)) == Some(InvalidArgument(EndBeforeStartMessage(19724, 19723)));
  }

  lemma EndBeforeStartExample()
    ensures EndBeforeStartMessage(19724, 19723) == "End date " + "2024-01-01" + " cannot be before start date " + "2024-01-02"
  {
    LocalDates.IsoStringOfNewYear2024();
    LocalDates.IsoStringOfJanuary2nd2024();
    assert "2024" + "-" + "01" + "-" + "01" == "2024-01-01";
    assert "2024" + "-" + "01" + "-" + "02" == "2024-01-02";
  }

  /** A record recorded on day `d` of `[start, end]` lies in the half-open instant range the service fetches. */
  lemma DayInsideFetchedRange(start: Date, end: Date, d: Date)
    requires start <= d <= end
    ensures forall r :: OnDay(d)(r) ==> Within(StartOfDay(start), StartOfDay(end + 1))(r)
  {
    StartOfDayMonotone(start, d);
    StartOfDayMonotone(d + 1, end + 1);
    forall r | OnDay(d)(r) ensures Within(StartOfDay(start), StartOfDay(end + 1))(r) {
      DayOfIsHalfOpenDay(r.recordedAt, d);
    }
  }

  /** Fetching the range first does not change the prices of a day inside the range, up to order. */
  lemma FetchedDayPrices(priceRows: seq<PriceRecord>, start: Date, end: Date, d: Date)
    requires start <= d <= end
    ensures Mean(DayPrices(FindByRecordedAtBetween(priceRows, StartOfDay(start), StartOfDay(end + 1)), d)) == Mean(DayPrices(priceRows, d))
    ensures HasPriceOn(FindByRecordedAtBetween(priceRows, StartOfDay(start), StartOfDay(end + 1)), d) <==> HasPriceOn(priceRows, d)
  {
    var lo, hi := StartOfDay(start), StartOfDay(end + 1);
    var fetched := FindByRecordedAtBetween(priceRows, lo, hi);
    RangeQueryIsExact(priceRows, lo, hi);
    DayInsideFetchedRange(start, end, d);
    FilterPermutation(OnDay(d), fetched, Filter(Within(lo, hi), priceRows));
    FilterFilter(OnDay(d), Within(lo, hi), priceRows);
    MapPermutation(PriceOfRecord(), Filter(OnDay(d), fetched), Filter(OnDay(d), priceRows));
    MeanPermutation(DayPrices(fetched, d), DayPrices(priceRows, d));
    DayPricesOfPricedDays(fetched);
    DayPricesOfPricedDays(priceRows);
  }

  /**
   * Over the whole tables: for a valid range, a row's price is the mean of every price record of that UTC day in
   * the price table, its temperature that date's weather row, and a date of the range gets a row exactly when
   * either table has data for it.
   */
  lemma GetAggregatedDataSpec(s: Date, e: Date, priceRows: seq<PriceRecord>, weatherRows: seq<WeatherRecord>)
    requires UniqueDates(weatherRows)
    requires s <= e
    ensures GetAggregatedData(Some(s), Some(e), priceRows, weatherRows).Success?
    ensures var rows := GetAggregatedData(Some(s), Some(e), priceRows, weatherRows).value;
      && (forall i, j :: 0 <= i < j < |rows| ==> rows[i].date < rows[j].date)
      && (forall x :: Covers(rows, x)
            <==> s <= x <= e && (HasPriceOn(priceRows, x) || x in Dates(weatherRows)))
      && (forall i :: 0 <= i < |rows| ==> rows[i].averageElectricityPrice == Mean(DayPrices(priceRows, rows[i].date)))
      && (forall i, w :: 0 <= i < |rows| && w in weatherRows && w.date == rows[i].date
            ==> rows[i].averageTemperature == Some(w.averageTemperature))
  {
    var fetched := FindByRecordedAtBetween(priceRows, StartOfDay(s), StartOfDay(e + 1));
    var fetchedWeather := FindByDateBetween(weatherRows, s, e);
    FilterKeepsUniqueDates(DateWithin(s, e), weatherRows);
    AggregateSpec(s, e, fetched, fetchedWeather);
    var rows := Aggregate(s, e, fetched, fetchedWeather).value;
    assert CheckRange(Some(s), Some(e)) == None;
    assert FetchAndAggregate(s, e, priceRows, weatherRows) == Success(rows);
    forall x ensures Covers(rows, x) <==> s <= x <= e && (HasPriceOn(priceRows, x) || x in Dates(weatherRows)) {
      if s <= x <= e {
        FetchedDayPrices(priceRows, s, e, x);
        FetchedWeatherDates(weatherRows, s, e, x);
      }
    }
    forall i | 0 <= i < |rows| ensures rows[i].averageElectricityPrice == Mean(DayPrices(priceRows, rows[i].date)) {
      FetchedDayPrices(priceRows, s, e, rows[i].date);
    }
    forall i, w | 0 <= i < |rows| && w in weatherRows && w.date == rows[i].date
      ensures rows[i].averageTemperature == Some(w.averageTemperature)
    {
      assert w in fetchedWeather;
    }
  }

  /** A date inside the range has a fetched weather row exactly when the weather table has a row for it. */
  lemma FetchedWeatherDates(weatherRows: seq<WeatherRecord>, s: Date, e: Date, x: Date)
    requires s <= x <= e
    ensures x in Dates(FindByDateBetween(weatherRows, s, e)) <==> x in Dates(weatherRows)
  {
    if x in Dates(weatherRows) {
      var w :| w in weatherRows && w.date == x;
      assert w in FindByDateBetween(weatherRows, s, e);
    }
  }

  // ---- As written: the price map is keyed by the raw timestamp, and the arguments are not checked ----

  /** `groupingBy(getTimestamp, averagingDouble(...))`: one entry per distinct instant, under its `Long` key. */
  function TimestampPriceAverages(prices: seq<PriceRecord>): (m: map<MapKey, real>)
    ensures forall k :: k in m ==> k.LongKey?
  {
    assert forall t :: (exists r :: r in prices && r.recordedAt == t) ==> Filter(At(t), prices) != [] by {
      forall t | exists r :: r in prices && r.recordedAt == t ensures Filter(At(t), prices) != [] {
        var r :| r in prices && r.recordedAt == t;
        assert r in Filter(At(t), prices);
      }
    }
    map k | k in (set r | r in prices :: LongKey(r.recordedAt)) :: Mean(Map(PriceOfRecord(), Filter(At(k.value), prices))).value
  }

  /**
   * `getAggregatedData` as the service is written, given what the two repository calls returned: prices grouped
   * by timestamp but looked up by date, a null date dereferenced, and the range handed to `datesUntil` unchecked.
   */
  function AggregateAsWritten(start: Option<Date>, end: Option<Date>, prices: seq<PriceRecord>, weather: seq<WeatherRecord>)
    : Result<seq<DailyAggregatedData>, AggregationError>
  {
    var priceAverages := TimestampPriceAverages(prices);
    match WeatherByDate(weather)
    case Failure(e) => Failure(e)
    case Success(weatherByDate) =>
      if start.None? || end.None? then Failure(NullDate)
      else if end.value + 1 < start.value then Failure(DatesUntilBeforeStart)
      else Success(Walk(start.value, end.value, priceAverages, weatherByDate))
  }

  /** As written, no row ever carries a price: a date key is never found among the timestamp keys. */
  lemma AsWrittenDropsEveryPrice(start: Option<Date>, end: Option<Date>, prices: seq<PriceRecord>, weather: seq<WeatherRecord>)
    requires AggregateAsWritten(start, end, prices, weather).Success?
    ensures forall row :: row in AggregateAsWritten(start, end, prices, weather).value ==> row.averageElectricityPrice.None?
  {
  }

  /** The sample day of the service's tests: prices 100 and 200 at 00:00 and 12:00 and temperature 20 give one row, with price 150. */
  lemma SampleDay()
    ensures var prices := [PriceRecord(1704067200, "EE", 100.0), PriceRecord(1704110400, "EE", 200.0)];
      Aggregate(19723, 19723, prices, [WeatherRecord(19723, 20.0)]) == Success([DailyAggregatedData(19723, Some(150.0), Some(20.0))])
  {
    var prices := [PriceRecord(1704067200, "EE", 100.0), PriceRecord(1704110400, "EE", 200.0)];
    var weather := [WeatherRecord(19723, 20.0)];
    SampleDayPrice(prices);
    SampleDayWeather(weather);
    var priceAverages := DailyPriceAverages(prices);
    var weatherByDate := WeatherByDate(weather).value;
    assert Walk(19724, 19723, priceAverages, weatherByDate) == [];
    var row := DailyAggregatedData(19723, Some(150.0), Some(20.0));
    assert row.AverageElectricityPrice().Some?;
    assert Walk(19723, 19723, priceAverages, weatherByDate) == [row] + [];
    assert [row] + [] == [row];
    assert Aggregate(19723, 19723, prices, weather) == Success(Walk(19723, 19723, priceAverages, weatherByDate));
  }

  /** Both sample prices fall on 1 January 2024, whose average is therefore 150. */
  lemma SampleDayPrice(prices: seq<PriceRecord>)
    requires prices == [PriceRecord(1704067200, "EE", 100.0), PriceRecord(1704110400, "EE", 200.0)]
    ensures Get(DailyPriceAverages(prices), DateKey(19723)) == Some(150.0)
  {
    assert DayOf(1704067200) == 19723 && DayOf(1704110400) == 19723;
    assert prices[1..][1..] == [];
    assert Filter(OnDay(19723), prices[1..]) == [prices[1]] + Filter(OnDay(19723), prices[1..][1..]);
    assert Filter(OnDay(19723), prices) == [prices[0]] + [prices[1]];
    assert DayPrices(prices, 19723) == [100.0, 200.0];
    assert Mean([100.0, 200.0]) == Some(150.0);
    assert HasPriceOn(prices, 19723) by {
      assert prices[0] in prices;
    }
  }

  /** The one sample weather row maps 1 January 2024 to 20 degrees. */
  lemma SampleDayWeather(weather: seq<WeatherRecord>)
    requires weather == [WeatherRecord(19723, 20.0)]
    ensures WeatherByDate(weather).Success?
    ensures Get(WeatherByDate(weather).value, DateKey(19723)) == Some(20.0)
  {
    WeatherByDateSpec(weather);
    assert weather[0] in weather;
  }

  /** As written, the same sample day yields a row whose price is null. */
  lemma AsWrittenSampleDay()
    ensures var prices := [PriceRecord(1704067200, "EE", 100.0), PriceRecord(1704110400, "EE", 200.0)];
      AggregateAsWritten(Some(19723), Some(19723), prices, [WeatherRecord(19723, 20.0)])
        == Success([DailyAggregatedData(19723, None, Some(20.0))])
  {
    var prices := [PriceRecord(1704067200, "EE", 100.0), PriceRecord(1704110400, "EE", 200.0)];
    var weather := [WeatherRecord(19723, 20.0)];
    var priceAverages := TimestampPriceAverages(prices);
    assert Get(priceAverages, DateKey(19723)) == None;
    WeatherByDateSpec(weather);
    assert weather[0] in weather;
    var weatherByDate := WeatherByDate(weather).value;
    assert Get(weatherByDate, DateKey(19723)) == Some(20.0);
    assert Walk(19724, 19723, priceAverages, weatherByDate) == [];
    var row := DailyAggregatedData(19723, None, Some(20.0));
    assert row.AverageTemperature().Some?;
    assert Walk(19723, 19723, priceAverages, weatherByDate) == [row] + [];
    assert [row] + [] == [row];
    assert AggregateAsWritten(Some(19723), Some(19723), prices, weather) == Success(Walk(19723, 19723, priceAverages, weatherByDate));
  }

  /** As written, the reversed range of the service's tests yields an empty list instead of an error, and a null date a NullPointerException. */
  lemma AsWrittenAcceptsReversedRange()
    ensures AggregateAsWritten(Some(19724), Some(19723), [], []) == Success([])
    ensures AggregateAsWritten(None, Some(19723), [], []) == Failure(NullDate)
    ensures GetAggregatedData(Some(19724), Some(19723), [], []).Failure?
  {
  }
}
