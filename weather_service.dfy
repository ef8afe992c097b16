/**
 * The weather backfill: one pass of `syncWeatherData` over the dates that have prices but no weather row, each
 * date handled by `fetchAndSaveWeatherDataForDate` inside its own try/catch. The repositories are the two table
 * objects; the provider, and the faults of the candidate query, the hour query and the insert, are an environment
 * the pass is given.
 */
module WeatherService {
  import opened Wrappers
  import opened UtcTime
  import opened Records
  import opened Seqs
  import opened PriceQueries
  import opened WeatherStore
  import PriceBulk
  import WeatherApiClient

  /** What one provider call does: return a temperature, return null, or throw. */
  datatype ProviderReply = Temperature(value: real) | NoData | Fails

  /**
   * What a pass depends on besides the two tables: whether the candidate query throws, whether the hour query
   * throws for a date, the provider's reply to each call, and whether the insert of a date's row throws for a
   * reason other than the unique date (a lost connection, say).
   */
  datatype Environment = Environment(
    candidateQueryFails: bool,
    hourQueryFails: Date -> bool,
    provider: (Date, seq<int>) -> ProviderReply,
    saveFails: Date -> bool)

  /** One interaction of the service with a collaborator. */
  datatype Call =
    | CandidateQuery
    | HourQuery(date: Date)
    | ProviderCall(date: Date, hours: seq<int>)
    | Write(record: WeatherRecord)

  /** How the work on one date ended; `Failed` is an exception that was caught and logged. */
  datatype DateOutcome = Saved(date: Date, temperature: real) | NoTemperature(date: Date) | Failed(date: Date)

  datatype StepResult = StepResult(rows: seq<WeatherRecord>, outcome: DateOutcome, calls: seq<Call>)

  datatype PassResult = PassResult(rows: seq<WeatherRecord>, outcomes: seq<DateOutcome>, calls: seq<Call>)

  /**
   * `fetchAndSaveWeatherDataForDate(d)` on a weather table `weather`: look up the recorded hours, ask the
   * provider, and insert a row only when a temperature came back. Any exception (the hour query, the provider,
   * or the insert, rejected by the unique date or failing otherwise) ends the step with the table as it was.
   */
  function Step(hoursOf: Date -> seq<int>, weather: seq<WeatherRecord>, env: Environment, d: Date): StepResult
  {
    if env.hourQueryFails(d) then StepResult(weather, Failed(d), [HourQuery(d)])
    else
      var s := AskAndSave(weather, env, d, hoursOf(d));
      s.(calls := [HourQuery(d)] + s.calls)
  }

  /** The rest of a step once the hours `hours` of date `d` are known: the provider call and the insert. */
  function AskAndSave(weather: seq<WeatherRecord>, env: Environment, d: Date, hours: seq<int>): StepResult
  {
    var asked := [ProviderCall(d, hours)];
    match env.provider(d, hours)
    case Fails => StepResult(weather, Failed(d), asked)
    case NoData => StepResult(weather, NoTemperature(d), asked)
    case Temperature(t) =>
      var w := WeatherRecord(d, t);
      if d in Dates(weather) || env.saveFails(d) then StepResult(weather, Failed(d), asked + [Write(w)])
      else StepResult(weather + [w], Saved(d, t), asked + [Write(w)])
  }

  /** The steps for `ds`, one after the other, each on the table the previous one left. */
  function Pass(hoursOf: Date -> seq<int>, weather: seq<WeatherRecord>, env: Environment, ds: seq<Date>): PassResult
    decreases |ds|
  {
    if ds == [] then PassResult(weather, [], [])
    else
      var p := Pass(hoursOf, weather, env, ds[..|ds| - 1]);
      var s := Step(hoursOf, p.rows, env, ds[|ds| - 1]);
      PassResult(s.rows, p.outcomes + [s.outcome], p.calls + s.calls)
  }

  /** The hour query of the price table, as a function of the date. */
  function RecordedHours(priceRows: seq<PriceRecord>): Date -> seq<int>
  {
    (d: Date) => FindRecordedHoursByDate(priceRows, d)
  }

  /** A pass over one more date is the pass so far followed by that date's step. */
  lemma PassSnoc(hoursOf: Date -> seq<int>, weather: seq<WeatherRecord>, env: Environment, ds: seq<Date>, d: Date)
    ensures var p := Pass(hoursOf, weather, env, ds);
      var s := Step(hoursOf, p.rows, env, d);
      Pass(hoursOf, weather, env, ds + [d]) == PassResult(s.rows, p.outcomes + [s.outcome], p.calls + s.calls)
  {
    assert (ds + [d])[..|ds|] == ds;
  }

  /** `syncWeatherData`: the candidate query, then a pass over its dates; a failing query ends the pass quietly. */
  function Sync(priceRows: seq<PriceRecord>, weather: seq<WeatherRecord>, env: Environment): PassResult
  {
    if env.candidateQueryFails then PassResult(weather, [], [CandidateQuery])
    else
      var p := Pass(RecordedHours(priceRows), weather, env, FindPricesDateWithoutWeather(priceRows, Dates(weather)));
      PassResult(p.rows, p.outcomes, [CandidateQuery] + p.calls)
  }

  /** The rows the `Saved` outcomes stand for, in order. */
  function Written(os: seq<DateOutcome>): seq<WeatherRecord>
    decreases |os|
  {
    if os == [] then []
    else
      var o := os[|os| - 1];
      Written(os[..|os| - 1]) + (if o.Saved? then [WeatherRecord(o.date, o.temperature)] else [])
  }

  /** The dates of the hour lookups among `calls`, in order. */
  function HourQueries(calls: seq<Call>): seq<Date>
    decreases |calls|
  {
    if calls == [] then []
    else
      var c := calls[|calls| - 1];
      HourQueries(calls[..|calls| - 1]) + (if c.HourQuery? then [c.date] else [])
  }

  lemma {:induction false} HourQueriesConcat(a: seq<Call>, b: seq<Call>)
    ensures HourQueries(a + b) == HourQueries(a) + HourQueries(b)
    decreases |b|
  {
    if b == [] {
      assert a + b == a;
    } else {
      var init := b[..|b| - 1];
      assert (a + b)[..|a + b| - 1] == a + init;
      HourQueriesConcat(a, init);
    }
  }

  /** What a step on a date without a weather row ends with: it depends on that date alone. */
  function Expected(hoursOf: Date -> seq<int>, env: Environment, d: Date): DateOutcome
  {
    if env.hourQueryFails(d) then Failed(d)
    else match env.provider(d, hoursOf(d))
      case Fails => Failed(d)
      case NoData => NoTemperature(d)
      case Temperature(t) => if env.saveFails(d) then Failed(d) else Saved(d, t)
  }

  /** The provider gives a temperature for `d`, asked with `d`'s recorded hours, and its insert does not throw. */
  function YieldsValue(hoursOf: Date -> seq<int>, env: Environment): Date -> bool
  {
    (d: Date) => !env.hourQueryFails(d) && env.provider(d, hoursOf(d)).Temperature? && !env.saveFails(d)
  }

  /**
   * One step is about its own date only: it inserts the row it reports as `Saved`, and nothing otherwise, which
   * happens only for a date without a row; on such a date it ends as `Expected` says.
   */
  lemma StepOutcome(hoursOf: Date -> seq<int>, weather: seq<WeatherRecord>, env: Environment, d: Date)
    ensures var s := Step(hoursOf, weather, env, d);
      && s.outcome.date == d
      && s.rows == weather + (if s.outcome.Saved? then [WeatherRecord(d, s.outcome.temperature)] else [])
      && (s.outcome.Saved? ==> d !in Dates(weather))
      && (d !in Dates(weather) ==> s.outcome == Expected(hoursOf, env, d))
  {
    if env.hourQueryFails(d) {
      assert weather + [] == weather;
    } else {
      AskAndSaveEffect(weather, env, d, hoursOf(d));
    }
  }

  lemma StepDate(hoursOf: Date -> seq<int>, weather: seq<WeatherRecord>, env: Environment, d: Date)
    ensures Step(hoursOf, weather, env, d).outcome.date == d
  {
  }

  /** A step looks its date up once, asks the provider with that date's recorded hours and writes the value it got. */
  lemma StepCalls(hoursOf: Date -> seq<int>, weather: seq<WeatherRecord>, env: Environment, d: Date)
    ensures var s := Step(hoursOf, weather, env, d);
      && HourQueries(s.calls) == [d]
      && (forall c :: c in s.calls && c.ProviderCall? ==> c.date == d && c.hours == hoursOf(d))
      && (forall c :: c in s.calls && c.Write? ==>
            c.record.date == d && env.provider(d, hoursOf(d)) == Temperature(c.record.averageTemperature))
  {
    if env.hourQueryFails(d) {
      assert [HourQuery(d)][..0] == [];
    } else {
      var hours := hoursOf(d);
      AskAndSaveEffect(weather, env, d, hours);
      HourQueriesOfBlock(d, AskAndSave(weather, env, d, hours).calls);
    }
  }

  lemma AskAndSaveEffect(weather: seq<WeatherRecord>, env: Environment, d: Date, hours: seq<int>)
    ensures var s := AskAndSave(weather, env, d, hours);
      && s.outcome.date == d
      && s.rows == weather + (if s.outcome.Saved? then [WeatherRecord(d, s.outcome.temperature)] else [])
      && (s.outcome.Saved? <==> d !in Dates(weather) && env.provider(d, hours).Temperature? && !env.saveFails(d))
      && (s.outcome.NoTemperature? <==> env.provider(d, hours).NoData?)
      && (s.outcome.Saved? ==> env.provider(d, hours) == Temperature(s.outcome.temperature))
      && (forall c :: c in s.calls ==> !c.HourQuery?)
      && (forall c :: c in s.calls && c.ProviderCall? ==> c.date == d && c.hours == hours)
      && (forall c :: c in s.calls && c.Write? ==> c.record.date == d && env.provider(d, hours) == Temperature(c.record.averageTemperature))
  {
    assert weather + [] == weather;
  }

  /** The lookups of a block that starts with the lookup of `d` and has no other. */
  lemma {:induction false} HourQueriesOfBlock(d: Date, rest: seq<Call>)
    requires forall c :: c in rest ==> !c.HourQuery?
    ensures HourQueries([HourQuery(d)] + rest) == [d]
    decreases |rest|
  {
    if rest == [] {
      assert [HourQuery(d)] + rest == [HourQuery(d)];
      assert [HourQuery(d)][..0] == [];
    } else {
      var init := rest[..|rest| - 1];
      assert forall c :: c in init ==> c in rest;
      assert ([HourQuery(d)] + rest)[..|rest|] == [HourQuery(d)] + init;
      HourQueriesOfBlock(d, init);
    }
  }

  /** A pass has one outcome per date of `ds`, in the order of `ds`. */
  lemma {:induction false} PassOutcomes(hoursOf: Date -> seq<int>, weather: seq<WeatherRecord>, env: Environment, ds: seq<Date>)
    ensures var p := Pass(hoursOf, weather, env, ds);
      && |p.outcomes| == |ds|
      && (forall i :: 0 <= i < |ds| ==> p.outcomes[i].date == ds[i])
    decreases |ds|
  {
    if ds != [] {
      var init, d := ds[..|ds| - 1], ds[|ds| - 1];
      PassOutcomes(hoursOf, weather, env, init);
      var p := Pass(hoursOf, weather, env, init);
      StepDate(hoursOf, p.rows, env, d);
      var os := p.outcomes + [Step(hoursOf, p.rows, env, d).outcome];
      assert Pass(hoursOf, weather, env, ds).outcomes == os;
      forall i | 0 <= i < |ds| ensures os[i].date == ds[i] {
        if i < |init| {
          assert os[i] == p.outcomes[i];
        } else {
          assert os[i] == Step(hoursOf, p.rows, env, d).outcome;
        }
      }
    }
  }

  /** A pass handles the dates one at a time: the hour lookups it makes are the dates of `ds`, in order. */
  lemma {:induction false} PassLookups(hoursOf: Date -> seq<int>, weather: seq<WeatherRecord>, env: Environment, ds: seq<Date>)
    ensures HourQueries(Pass(hoursOf, weather, env, ds).calls) == ds
    decreases |ds|
  {
    if ds != [] {
      var init, d := ds[..|ds| - 1], ds[|ds| - 1];
      PassLookups(hoursOf, weather, env, init);
      var p := Pass(hoursOf, weather, env, init);
      StepCalls(hoursOf, p.rows, env, d);
      HourQueriesConcat(p.calls, Step(hoursOf, p.rows, env, d).calls);
      assert ds == init + [d];
    }
  }

  /** The table only grows, by exactly the rows of the `Saved` outcomes, in order. */
  lemma {:induction false} PassRows(hoursOf: Date -> seq<int>, weather: seq<WeatherRecord>, env: Environment, ds: seq<Date>)
    ensures var p := Pass(hoursOf, weather, env, ds);
      p.rows == weather + Written(p.outcomes)
    decreases |ds|
  {
    if ds == [] {
      assert weather + [] == weather;
    } else {
      var init, d := ds[..|ds| - 1], ds[|ds| - 1];
      PassRows(hoursOf, weather, env, init);
      var p := Pass(hoursOf, weather, env, init);
      StepOutcome(hoursOf, p.rows, env, d);
      var s := Step(hoursOf, p.rows, env, d);
      var os := p.outcomes + [s.outcome];
      assert os[..|os| - 1] == p.outcomes;
      if s.outcome.Saved? {
        var w := WeatherRecord(d, s.outcome.temperature);
        assert Written(os) == Written(p.outcomes) + [w];
        assert (weather + Written(p.outcomes)) + [w] == weather + (Written(p.outcomes) + [w]);
      } else {
        assert Written(os) == Written(p.outcomes) + [];
      }
    }
  }

  /** A pass keeps one row per date: the unique constraint holds throughout. */
  lemma {:induction false} PassKeepsUniqueDates(hoursOf: Date -> seq<int>, weather: seq<WeatherRecord>, env: Environment, ds: seq<Date>)
    requires UniqueDates(weather)
    ensures UniqueDates(Pass(hoursOf, weather, env, ds).rows)
    decreases |ds|
  {
    if ds != [] {
      var init, d := ds[..|ds| - 1], ds[|ds| - 1];
      PassKeepsUniqueDates(hoursOf, weather, env, init);
      var p := Pass(hoursOf, weather, env, init);
      StepOutcome(hoursOf, p.rows, env, d);
      if Step(hoursOf, p.rows, env, d).outcome.Saved? {
        forall i | 0 <= i < |p.rows| ensures p.rows[i].date != d {
          assert p.rows[i] in p.rows;
        }
      }
    }
  }

  /** Every provider call gets the recorded hours of its date unchanged, and every write carries the provider's value. */
  lemma {:induction false} PassCalls(hoursOf: Date -> seq<int>, weather: seq<WeatherRecord>, env: Environment, ds: seq<Date>)
    ensures var calls := Pass(hoursOf, weather, env, ds).calls;
      && (forall c :: c in calls && c.ProviderCall? ==> c.date in ds && c.hours == hoursOf(c.date))
      && (forall c :: c in calls && c.Write? ==>
            c.record.date in ds && env.provider(c.record.date, hoursOf(c.record.date))
              == Temperature(c.record.averageTemperature))
    decreases |ds|
  {
    if ds != [] {
      var init, d := ds[..|ds| - 1], ds[|ds| - 1];
      PassCalls(hoursOf, weather, env, init);
      var p := Pass(hoursOf, weather, env, init);
      StepCalls(hoursOf, p.rows, env, d);
      assert forall x :: x in init ==> x in ds;
      assert d in ds;
    }
  }

  /** Distinct dates none of which has a weather row in `weather`. */
  predicate FreshDates(weather: seq<WeatherRecord>, ds: seq<Date>)
  {
    && (forall i, j :: 0 <= i < j < |ds| ==> ds[i] != ds[j])
    && (forall i :: 0 <= i < |ds| ==> ds[i] !in Dates(weather))
  }

  /** A pass adds rows only for the dates it handles. */
  lemma {:induction false} PassRowsFromDates(hoursOf: Date -> seq<int>, weather: seq<WeatherRecord>, env: Environment, ds: seq<Date>)
    ensures forall w :: w in Pass(hoursOf, weather, env, ds).rows ==> w in weather || w.date in ds
    decreases |ds|
  {
    if ds != [] {
      var init, d := ds[..|ds| - 1], ds[|ds| - 1];
      PassRowsFromDates(hoursOf, weather, env, init);
      StepOutcome(hoursOf, Pass(hoursOf, weather, env, init).rows, env, d);
      assert forall x :: x in init ==> x in ds;
    }
  }

  /** On fresh dates, the last date still has no row when its turn comes. */
  lemma LastDateStillFresh(hoursOf: Date -> seq<int>, weather: seq<WeatherRecord>, env: Environment, ds: seq<Date>)
    requires ds != [] && FreshDates(weather, ds)
    ensures FreshDates(weather, ds[..|ds| - 1])
    ensures ds[|ds| - 1] !in Dates(Pass(hoursOf, weather, env, ds[..|ds| - 1]).rows)
  {
    var init, d := ds[..|ds| - 1], ds[|ds| - 1];
    assert forall i :: 0 <= i < |init| ==> init[i] == ds[i];
    PassRowsFromDates(hoursOf, weather, env, init);
    var p := Pass(hoursOf, weather, env, init);
    forall w | w in p.rows ensures w.date != d {
      if w in weather {
        assert w.date in Dates(weather);
      } else {
        var k :| 0 <= k < |init| && init[k] == w.date;
      }
    }
  }

  /**
   * On distinct dates that have no weather row yet, the insert is never rejected and each date's outcome depends
   * only on that date: a failure on one date changes no other.
   */
  lemma {:induction false} PassOnFreshDates(hoursOf: Date -> seq<int>, weather: seq<WeatherRecord>, env: Environment, ds: seq<Date>)
    requires FreshDates(weather, ds)
    ensures var p := Pass(hoursOf, weather, env, ds);
      && |p.outcomes| == |ds|
      && (forall i :: 0 <= i < |ds| ==> p.outcomes[i] == Expected(hoursOf, env, ds[i]))
    decreases |ds|
  {
    if ds != [] {
      var init, d := ds[..|ds| - 1], ds[|ds| - 1];
      LastDateStillFresh(hoursOf, weather, env, ds);
      PassOnFreshDates(hoursOf, weather, env, init);
      var p := Pass(hoursOf, weather, env, init);
      StepOutcome(hoursOf, p.rows, env, d);
      var os := p.outcomes + [Step(hoursOf, p.rows, env, d).outcome];
      forall i | 0 <= i < |ds| ensures os[i] == Expected(hoursOf, env, ds[i]) {
        if i < |init| {
          assert ds[i] == init[i];
        }
      }
    }
  }

  /** On fresh dates, the table gains one row per date for which the provider gave a temperature. */
  lemma {:induction false} PassWriteCount(hoursOf: Date -> seq<int>, weather: seq<WeatherRecord>, env: Environment, ds: seq<Date>)
    requires FreshDates(weather, ds)
    ensures |Pass(hoursOf, weather, env, ds).rows| == |weather| + |Filter(YieldsValue(hoursOf, env), ds)|
    decreases |ds|
  {
    if ds != [] {
      var init, d := ds[..|ds| - 1], ds[|ds| - 1];
      LastDateStillFresh(hoursOf, weather, env, ds);
      PassWriteCount(hoursOf, weather, env, init);
      var p := Pass(hoursOf, weather, env, init);
      StepOutcome(hoursOf, p.rows, env, d);
      assert ds == init + [d];
      FilterConcat(YieldsValue(hoursOf, env), init, [d]);
      assert [d][1..] == [];
    }
  }

  /** Every written row comes from a `Saved` outcome. */
  lemma {:induction false} WrittenFromSaved(os: seq<DateOutcome>, w: WeatherRecord)
    requires w in Written(os)
    ensures exists i :: 0 <= i < |os| && os[i] == Saved(w.date, w.averageTemperature)
    decreases |os|
  {
    var init, o := os[..|os| - 1], os[|os| - 1];
    if o.Saved? && w == WeatherRecord(o.date, o.temperature) {
      assert os[|os| - 1] == Saved(w.date, w.averageTemperature);
    } else {
      assert w in Written(init);
      WrittenFromSaved(init, w);
      var i :| 0 <= i < |init| && init[i] == Saved(w.date, w.averageTemperature);
      assert os[i] == init[i];
    }
  }

  /** Every `Saved` outcome has its row among the written ones. */
  lemma {:induction false} WrittenHasSaved(os: seq<DateOutcome>, o: DateOutcome)
    requires o in os && o.Saved?
    ensures WeatherRecord(o.date, o.temperature) in Written(os)
    decreases |os|
  {
    var init := os[..|os| - 1];
    if os[|os| - 1] != o {
      assert os == init + [os[|os| - 1]];
      WrittenHasSaved(init, o);
    }
  }

  /**
   * A sync keeps one row per date; its candidates are distinct and new, so each outcome is the date's own
   * expected outcome and the table gains exactly the dates the provider answered with a temperature.
   */
  lemma SyncEffect(priceRows: seq<PriceRecord>, weather: seq<WeatherRecord>, env: Environment)
    requires UniqueDates(weather)
    ensures var r := Sync(priceRows, weather, env);
      && UniqueDates(r.rows)
      && (env.candidateQueryFails ==> r.rows == weather && r.outcomes == [] && r.calls == [CandidateQuery])
      && (!env.candidateQueryFails ==>
            var ds := FindPricesDateWithoutWeather(priceRows, Dates(weather));
            && HourQueries(r.calls) == ds
            && |r.outcomes| == |ds|
            && (forall i :: 0 <= i < |ds| ==> r.outcomes[i] == Expected(RecordedHours(priceRows), env, ds[i]))
            && r.rows == weather + Written(r.outcomes)
            && |r.rows| == |weather| + |Filter(YieldsValue(RecordedHours(priceRows), env), ds)|)
  {
    if !env.candidateQueryFails {
      var ds := FindPricesDateWithoutWeather(priceRows, Dates(weather));
      var p := Pass(RecordedHours(priceRows), weather, env, ds);
      PassOutcomes(RecordedHours(priceRows), weather, env, ds);
      PassLookups(RecordedHours(priceRows), weather, env, ds);
      PassRows(RecordedHours(priceRows), weather, env, ds);
      PassKeepsUniqueDates(RecordedHours(priceRows), weather, env, ds);
      PassOnFreshDates(RecordedHours(priceRows), weather, env, ds);
      PassWriteCount(RecordedHours(priceRows), weather, env, ds);
      HourQueriesConcat([CandidateQuery], p.calls);
      assert [CandidateQuery][..0] == [];
    }
  }

  /** With no candidate dates a sync makes the candidate query and nothing else. */
  lemma NoCandidatesNoCalls(priceRows: seq<PriceRecord>, weather: seq<WeatherRecord>, env: Environment)
    requires FindPricesDateWithoutWeather(priceRows, Dates(weather)) == []
    ensures Sync(priceRows, weather, env) == PassResult(weather, [], [CandidateQuery])
  {
    assert [CandidateQuery] + [] == [CandidateQuery];
  }

  /**
   * A sync after a sync in which every candidate got a temperature finds nothing to do: the saved dates are no
   * longer candidates and no other date became one.
   */
  lemma SecondSyncIsQuiet(priceRows: seq<PriceRecord>, weather: seq<WeatherRecord>, env: Environment, env2: Environment)
    requires UniqueDates(weather)
    requires !env.candidateQueryFails
    requires forall o :: o in Sync(priceRows, weather, env).outcomes ==> o.Saved?
    ensures FindPricesDateWithoutWeather(priceRows, Dates(Sync(priceRows, weather, env).rows)) == []
    ensures Sync(priceRows, Sync(priceRows, weather, env).rows, env2).rows == Sync(priceRows, weather, env).rows
  {
    var ds := FindPricesDateWithoutWeather(priceRows, Dates(weather));
    var r := Sync(priceRows, weather, env);
    SyncEffect(priceRows, weather, env);
    AllSavedCoversDates(RecordedHours(priceRows), weather, env, ds);
    var again := FindPricesDateWithoutWeather(priceRows, Dates(r.rows));
    NoMemberMeansEmpty(again);
    NoCandidatesNoCalls(priceRows, r.rows, env2);
  }

  /** When every date of a pass is saved, the rows afterwards cover those dates and every date covered before. */
  lemma AllSavedCoversDates(hoursOf: Date -> seq<int>, weather: seq<WeatherRecord>, env: Environment, ds: seq<Date>)
    requires forall o :: o in Pass(hoursOf, weather, env, ds).outcomes ==> o.Saved?
    ensures forall x :: x in ds ==> x in Dates(Pass(hoursOf, weather, env, ds).rows)
    ensures forall x :: x in Dates(weather) ==> x in Dates(Pass(hoursOf, weather, env, ds).rows)
  {
    var p := Pass(hoursOf, weather, env, ds);
    PassOutcomes(hoursOf, weather, env, ds);
    PassRows(hoursOf, weather, env, ds);
    forall x | x in ds ensures x in Dates(p.rows) {
      var i :| 0 <= i < |ds| && ds[i] == x;
      assert p.outcomes[i] in p.outcomes;
      WrittenHasSaved(p.outcomes, p.outcomes[i]);
      assert WeatherRecord(x, p.outcomes[i].temperature) in p.rows;
    }
    forall x | x in Dates(weather) ensures x in Dates(p.rows) {
      var w :| w in weather && w.date == x;
      assert w in p.rows;
    }
  }

  /** The real client catches every exception, so as a provider it never throws. */
  function ClientProvider(http: Date -> WeatherApiClient.HttpOutcome): (Date, seq<int>) -> ProviderReply
  {
    (d: Date, hours: seq<int>) =>
      match WeatherApiClient.FetchDailyAverageTemperature(Some(d), Some(hours), http(d))
      case Some(t) => Temperature(t)
      case None => NoData
  }

  /**
   * With the real client as provider, a date fails only when a repository call throws: its hour query, or the
   * insert of the temperature the client returned.
   */
  lemma ClientFailuresComeFromTheRepositories(hoursOf: Date -> seq<int>, env: Environment, http: Date -> WeatherApiClient.HttpOutcome, d: Date)
    requires env.provider == ClientProvider(http)
    ensures Expected(hoursOf, env, d).Failed? <==>
      env.hourQueryFails(d) || (env.provider(d, hoursOf(d)).Temperature? && env.saveFails(d))
  {
  }

  /** The service object: the two repositories it is wired with. */
  class WeatherSync {
    const prices: PriceBulk.PriceTable
    const store: WeatherTable

    constructor (prices: PriceBulk.PriceTable, store: WeatherTable)
      ensures this.prices == prices && this.store == store
    {
      this.prices := prices;
      this.store := store;
    }

    /** `syncWeatherData`: the candidate query, then the dates it returned; it never throws, whatever the environment does. */
    method SyncWeatherData(env: Environment) returns (outcomes: seq<DateOutcome>, calls: seq<Call>)
      requires store.Valid()
      modifies store
      ensures store.Valid()
      ensures PassResult(store.rows, outcomes, calls) == Sync(prices.rows, old(store.rows), env)
    {
      if env.candidateQueryFails {
        return [], [CandidateQuery];
      }
      var candidates := FindPricesDateWithoutWeather(prices.rows, Dates(store.rows));
      var stepCalls;
      outcomes, stepCalls := FetchAndSaveAll(env, candidates);
      calls := [CandidateQuery] + stepCalls;
    }

    /** The `forEach` over the candidate dates: one step per date, in list order. */
    method FetchAndSaveAll(env: Environment, candidates: seq<Date>) returns (outcomes: seq<DateOutcome>, calls: seq<Call>)
      requires store.Valid()
      modifies store
      ensures store.Valid()
      ensures PassResult(store.rows, outcomes, calls) == Pass(RecordedHours(prices.rows), old(store.rows), env, candidates)
    {
      outcomes, calls := [], [];
      var i := 0;
      while i < |candidates|
        invariant 0 <= i <= |candidates|
        invariant store.Valid()
        invariant PassResult(store.rows, outcomes, calls) == Pass(RecordedHours(prices.rows), old(store.rows), env, candidates[..i])
      {
        var outcome, stepCalls := FetchAndSaveWeatherDataForDate(env, candidates[i]);
        assert candidates[..i + 1] == candidates[..i] + [candidates[i]];
        PassSnoc(RecordedHours(prices.rows), old(store.rows), env, candidates[..i], candidates[i]);
        outcomes, calls := outcomes + [outcome], calls + stepCalls;
        i := i + 1;
      }
      assert candidates[..|candidates|] == candidates;
    }

    /** `fetchAndSaveWeatherDataForDate(d)`: one step, with its exceptions caught. */
    method FetchAndSaveWeatherDataForDate(env: Environment, d: Date) returns (outcome: DateOutcome, calls: seq<Call>)
      requires store.Valid()
      modifies store
      ensures store.Valid()
      ensures StepResult(store.rows, outcome, calls) == Step(RecordedHours(prices.rows), old(store.rows), env, d)
    {
      if env.hourQueryFails(d) {
        return Failed(d), [HourQuery(d)];
      }
      var hours := FindRecordedHoursByDate(prices.rows, d);
      assert hours == RecordedHours(prices.rows)(d);
      calls := [HourQuery(d), ProviderCall(d, hours)];
      match env.provider(d, hours)
      case Fails =>
        outcome := Failed(d);
      case NoData =>
        outcome := NoTemperature(d);
      case Temperature(t) =>
        var w := WeatherRecord(d, t);
        calls := calls + [Write(w)];
        if env.saveFails(d) {
          outcome := Failed(d);
        } else {
          var ok := store.Save(w);
          outcome := if ok then Saved(d, t) else Failed(d);
        }
    }
  }
}
