/**
 * The provider side of the weather backfill: the daily average temperature of a date over the hours that have
 * prices, computed from the provider's hourly series. The HTTP exchange itself is a parameter.
 */
module WeatherApiClient {
  import opened Wrappers
  import opened UtcTime
  import opened Averages

  /** The `hourly` block of the provider's reply: the `temperature_2m` series, whose entries may be null. */
  datatype HourlyData = HourlyData(temperature2m: Option<seq<Option<real>>>)

  datatype WeatherApiResponse = WeatherApiResponse(hourly: Option<HourlyData>)

  /** What the HTTP GET did: it returned a body (possibly null), or it threw. */
  datatype HttpOutcome = Body(response: Option<WeatherApiResponse>) | Raised

  /** The temperature series when the reply has a non-null, non-empty one. */
  function Series(http: HttpOutcome): (r: Option<seq<Option<real>>>)
    ensures r.Some? ==> r.value != []
  {
    if http.Body? && http.response.Some? && http.response.value.hourly.Some?
      && http.response.value.hourly.value.temperature2m.Some?
      && http.response.value.hourly.value.temperature2m.value != []
    then http.response.value.hourly.value.temperature2m
    else None
  }

  /** Hour index `h` is inside the series and the series has the temperature `x` there. */
  predicate Gives(temps: seq<Option<real>>, h: int, x: real)
  {
    0 <= h < |temps| && temps[h] == Some(x)
  }

  /**
   * The filter/map chain over the hour list: hours outside the series are dropped, the rest are looked up,
   * and null temperatures are dropped. Order and repetitions of the hour list are kept.
   */
  function RetainedTemperatures(hours: seq<int>, temps: seq<Option<real>>): (r: seq<real>)
    ensures |r| <= |hours|
    ensures forall x :: x in r <==> exists h :: h in hours && Gives(temps, h, x)
    decreases |hours|
  {
    if hours == [] then []
    else
      var h := hours[0];
      var rest := RetainedTemperatures(hours[1..], temps);
      assert forall k :: k in hours <==> k == h || k in hours[1..];
      if 0 <= h < |temps| && temps[h].Some? then
        assert Gives(temps, h, temps[h].value);
        [temps[h].value] + rest
      else
        assert forall x :: !Gives(temps, h, x);
        rest
  }

  /**
   * `fetchDailyAverageTemperature(date, availableHourIndices)`: a null date, a failed call, a reply without a
   * usable series, a null hour list or an empty selection give null; otherwise the mean of the selection.
   */
  function FetchDailyAverageTemperature(date: Option<Date>, hours: Option<seq<int>>, http: HttpOutcome): (r: Option<real>)
    ensures r.Some? <==>
      date.Some? && Series(http).Some? && hours.Some? && RetainedTemperatures(hours.value, Series(http).value) != []
    ensures r.Some? ==> r == Mean(RetainedTemperatures(hours.value, Series(http).value))
  {
    if date.None? || http.Raised? then None
    else match Series(http)
      case None => None
      case Some(temps) =>
        if hours.None? then None
        else
          var selected := RetainedTemperatures(hours.value, temps);
          if selected == [] then None else Mean(selected)
  }

  /** Selecting from two hour lists one after the other is selecting from their concatenation. */
  lemma {:induction false} RetainedConcat(a: seq<int>, b: seq<int>, temps: seq<Option<real>>)
    ensures RetainedTemperatures(a + b, temps) == RetainedTemperatures(a, temps) + RetainedTemperatures(b, temps)
    decreases |a|
  {
    if a == [] {
      assert a + b == b;
    } else {
      assert (a + b)[0] == a[0] && (a + b)[1..] == a[1..] + b;
      RetainedConcat(a[1..], b, temps);
    }
  }

  /** A repeated hour index contributes its temperature once per occurrence. */
  lemma RepeatedHourCountsTwice(h: int, temps: seq<Option<real>>, x: real)
    requires Gives(temps, h, x)
    ensures RetainedTemperatures([h, h], temps) == [x, x]
  {
    assert [h, h][1..] == [h];
    assert [h][1..] == [];
  }

  /** Hours that are all outside the series select nothing, so the result is null. */
  lemma OutOfRangeHoursGiveNull(date: Option<Date>, hours: seq<int>, http: HttpOutcome)
    requires Series(http).Some?
    requires forall i :: 0 <= i < |hours| ==> hours[i] < 0 || hours[i] >= |Series(http).value|
    ensures FetchDailyAverageTemperature(date, Some(hours), http) == None
  {
    NothingRetained(hours, Series(http).value);
  }

  lemma {:induction false} NothingRetained(hours: seq<int>, temps: seq<Option<real>>)
    requires forall i :: 0 <= i < |hours| ==> hours[i] < 0 || hours[i] >= |temps|
    ensures RetainedTemperatures(hours, temps) == []
    decreases |hours|
  {
    if hours != [] {
      NothingRetained(hours[1..], temps);
    }
  }

  /** The empty hour list selects nothing, whatever the provider says. */
  lemma EmptyHoursGiveNull(date: Option<Date>, http: HttpOutcome)
    ensures FetchDailyAverageTemperature(date, Some([]), http) == None
  {
  }

  /** A present result lies between the coldest and the warmest selected temperature. */
  lemma ResultWithinSelectedRange(date: Option<Date>, hours: seq<int>, http: HttpOutcome, lo: real, hi: real)
    requires Series(http).Some?
    requires forall h, x :: h in hours && Gives(Series(http).value, h, x) ==> lo <= x <= hi
    requires FetchDailyAverageTemperature(date, Some(hours), http).Some?
    ensures lo <= FetchDailyAverageTemperature(date, Some(hours), http).value <= hi
  {
    var selected := RetainedTemperatures(hours, Series(http).value);
    forall i | 0 <= i < |selected| ensures lo <= selected[i] <= hi {
      assert selected[i] in selected;
    }
    MeanWithinBounds(selected, lo, hi);
  }

  /** The hourly series 20.0, 21.0, ..., 43.0 over hours 0 to 11 averages 25.5. */
  lemma TwelveHourExample(date: Date)
    ensures var temps := seq(24, i => Some(20.0 + i as real));
      FetchDailyAverageTemperature(Some(date), Some(seq(12, i => i)), Body(Some(WeatherApiResponse(Some(HourlyData(Some(temps))))))) == Some(25.5)
  {
    var temps := seq(24, i => Some(20.0 + i as real));
    var hours := seq(12, i => i);
    var selected := seq(12, i => 20.0 + i as real);
    RetainedPrefix(12, temps);
    assert RetainedTemperatures(hours, temps) == selected;
    SumOfRun(12);
  }

  /** Selecting hours `0 .. n-1` of a series without nulls gives its first `n` values. */
  lemma {:induction false} RetainedPrefix(n: nat, temps: seq<Option<real>>)
    requires n <= |temps|
    requires forall i :: 0 <= i < |temps| ==> temps[i].Some?
    ensures RetainedTemperatures(seq(n, i => i), temps) == seq(n, i requires 0 <= i < n && n <= |temps| => temps[i].value)
    decreases n
  {
    if n > 0 {
      var hs := seq(n, i => i);
      assert hs == seq(n - 1, i => i) + [n - 1];
      RetainedConcat(seq(n - 1, i => i), [n - 1], temps);
      RetainedPrefix(n - 1, temps);
      assert [n - 1][1..] == [];
    }
  }

  /** The sum of `20.0, 21.0, ..., 20.0 + (n - 1)`. */
  lemma {:induction false} SumOfRun(n: nat)
    ensures Sum(seq(n, i => 20.0 + i as real)) * 2.0 == (n * (n + 39)) as real
    decreases n
  {
    if n > 0 {
      var xs := seq(n, i => 20.0 + i as real);
      assert xs == seq(n - 1, i => 20.0 + i as real) + [20.0 + (n - 1) as real];
      SumConcat(seq(n - 1, i => 20.0 + i as real), [20.0 + (n - 1) as real]);
      SumOfRun(n - 1);
    }
  }
}
