# Electricity price aggregator: a verified model of its core

The aggregator keeps hourly Estonian electricity prices and daily average temperatures in two tables. This project
models and proves properties of its core:

- **Daily aggregation** (`Aggregation`, `DailyAggregates`): the join of a date range's prices and temperatures.
  The prices are averaged per UTC day. A date's row needs a price or a temperature. Getters round half-up to one
  decimal.
- **Weather backfill** (`WeatherService`, `WeatherApiClient`, `WeatherStore`): each minute, the service finds the
  dates that have prices but no weather row. For each such date it asks the weather provider for the mean
  temperature over the hours that have prices, and inserts a row when one comes back.
- **Price storage and queries** (`PriceBulk`, `PriceQueries`): the bulk upsert keyed by `(recorded_at, country)`,
  which a null instant or price rejects as a whole, the half-open instant range query, the candidate-date query and the recorded-hours query.
- **Domain values** (`ElectricityPrices`, `WeatherEntity`): the mutable `ElectricityPriceEstonia` and `WeatherData`
  beans with their `equals`/`hashCode`, and the factory that picks the record class for a country code.
- **CSV number cells** (`DoubleConverter`): commas as decimal separators, blank cells as null.

Instants are epoch seconds and dates are epoch days, both in UTC. Prices and temperatures are exact reals.
Collaborators the core calls but does not contain are parameters: the HTTP reply, the provider, whether the
candidate query, a date's hour query or a date's weather insert throws, and `Double.parseDouble`.

The join of the service as written groups prices by raw timestamp and looks them up by date, so no price is
ever found. It also does not check its arguments, although its tests expect argument errors. The model keeps that
code as written (`AggregateAsWritten`) beside the tested behaviour (`GetAggregatedData`), which the rest of the
model uses (see Findings).

Shared modules: `Wrappers` (Option, Result, the `Other` argument of `equals`), `Seqs` (stream filter, map,
distinct), `Averages` (means), `UtcTime`, `LocalDates` (`LocalDate` fields and ISO text), `JavaObjects` (`int`
wrap-around, `Objects.hash`, `Long.hashCode`) and `Records` (table rows).

## Model

| member | source | states |
|---|---|---|
| Aggregation.DailyPriceAverages | src/main/java/com/mathias/electricitypriceaggregator/application/service/AggregationService.java:43-47 | one entry per UTC date that has a price record, and no other key; each entry is the mean of that day's prices (the corrected grouping key) |
| Aggregation.DayPricesOfPricedDays | src/main/java/com/mathias/electricitypriceaggregator/application/service/AggregationService.java:43-47 | a date has a group exactly when its list of prices is non-empty, so every group has a mean |
| Aggregation.WeatherByDate | src/main/java/com/mathias/electricitypriceaggregator/application/service/AggregationService.java:50-54 | the `toMap` collector can only fail with a duplicate-key error |
| Aggregation.WeatherByDateSpec | src/main/java/com/mathias/electricitypriceaggregator/application/service/AggregationService.java:50-54 | the collector succeeds exactly when no two weather rows share a date; it then maps every row's date, and nothing else, to that row's temperature; a failure names a date that two rows share |
| Aggregation.WeatherByDateContents | src/main/java/com/mathias/electricitypriceaggregator/application/service/AggregationService.java:50-54 | on success the keys are exactly the rows' dates and each key holds its row's temperature |
| Aggregation.WeatherByDateOutcome | src/main/java/com/mathias/electricitypriceaggregator/application/service/AggregationService.java:50-54 | success if and only if the dates are unique; a failure exhibits two positions with the reported date |
| Aggregation.Walk | src/main/java/com/mathias/electricitypriceaggregator/application/service/AggregationService.java:57-65 | the rows lie in `[d, end]` in strictly ascending date order, carry the looked-up price and temperature of their date, and each has at least one non-null rounded average (the `filter` of line 64) |
| Aggregation.WalkCoverage | src/main/java/com/mathias/electricitypriceaggregator/application/service/AggregationService.java:57-65 | a date has a row exactly when it lies in the range and one of the two maps has it |
| Aggregation.AggregateSpec | src/main/java/com/mathias/electricitypriceaggregator/application/service/AggregationService.java:35-66 | the join fails exactly when a date has two weather rows; otherwise rows are strictly ascending, a date of `[start, end]` has a row iff it has a price or a weather row, each row holds the mean of its day's prices and its date's temperature, null when absent |
| Aggregation.AggregateOfNothing | src/test/java/com/mathias/electricitypriceaggregator/application/service/AggregationServiceTest.java:37-50 | no price and no weather rows give an empty list |
| Aggregation.GetAggregatedDataChecksArguments | src/test/java/com/mathias/electricitypriceaggregator/application/service/AggregationServiceTest.java:148-173 | a null start or end date is rejected with its message; with one weather row per date the call succeeds exactly when both dates are present and the end is not before the start |
| Aggregation.ReversedRangeMessage | src/test/java/com/mathias/electricitypriceaggregator/application/service/AggregationServiceTest.java:166-173 | start 2024-01-02 and end 2024-01-01 fail with "End date 2024-01-01 cannot be before start date 2024-01-02" |
| Aggregation.EndBeforeStartExample | src/test/java/com/mathias/electricitypriceaggregator/application/service/AggregationServiceTest.java:172 | the reversed-range message prints both dates in ISO form |
| Aggregation.DayInsideFetchedRange | src/main/java/com/mathias/electricitypriceaggregator/application/service/AggregationService.java:37 | every record of a UTC day inside `[start, end]` lies in the fetched instant range `[midnight of start, midnight after end)` |
| Aggregation.FetchedDayPrices | src/main/java/com/mathias/electricitypriceaggregator/application/service/AggregationService.java:37 | fetching the range first changes neither whether a day of the range has prices nor the mean of its prices |
| Aggregation.GetAggregatedDataSpec | src/main/java/com/mathias/electricitypriceaggregator/application/service/AggregationService.java:35-66 | over the whole tables, for a valid range: success, ascending rows, a date gets a row iff either table has data for it, the price is the mean of all that day's price rows and the temperature is that date's weather row |
| Aggregation.FetchedWeatherDates | src/main/java/com/mathias/electricitypriceaggregator/application/service/AggregationService.java:40 | a date of the range has a fetched weather row exactly when the table has one |
| Aggregation.TimestampPriceAverages | src/main/java/com/mathias/electricitypriceaggregator/application/service/AggregationService.java:43-47 | as written, every key of the price map is a `Long` timestamp |
| Aggregation.AsWrittenDropsEveryPrice | src/main/java/com/mathias/electricitypriceaggregator/application/service/AggregationService.java:60-61 | as written, every row that comes back has a null price: a date key never finds a timestamp key |
| Aggregation.SampleDay | src/test/java/com/mathias/electricitypriceaggregator/application/service/AggregationServiceTest.java:53-81 | prices 100 and 200 at 00:00 and 12:00 UTC on 2024-01-01 and temperature 20 give the single row (2024-01-01, 150, 20) |
| Aggregation.AsWrittenSampleDay | src/main/java/com/mathias/electricitypriceaggregator/application/service/AggregationService.java:43-64 | as written, the same input gives the single row (2024-01-01, null, 20) |
| Aggregation.AsWrittenAcceptsReversedRange | src/main/java/com/mathias/electricitypriceaggregator/application/service/AggregationService.java:57 | as written, a range whose end is one day before its start returns an empty list and a null start date throws a null-pointer error, where the tested behaviour is an argument error |
| DailyAggregates.HalfUpTenths | src/main/java/com/mathias/electricitypriceaggregator/domain/valueobject/DailyAggregatedData.java:63-65 | the number of tenths is within half a tenth of the value, ties going away from zero |
| DailyAggregates.RoundHalfUp | src/main/java/com/mathias/electricitypriceaggregator/domain/valueobject/DailyAggregatedData.java:63-65 | the result has one decimal, lies within 0.05 of the value and keeps its sign |
| DailyAggregates.Round | src/main/java/com/mathias/electricitypriceaggregator/domain/valueobject/DailyAggregatedData.java:59-66 | null stays null; a value becomes a one-decimal value within 0.05 of it |
| DailyAggregates.RoundIsNearestTenth | src/main/java/com/mathias/electricitypriceaggregator/domain/valueobject/DailyAggregatedData.java:63-65 | no tenth is closer to the value than its rounding |
| DailyAggregates.RoundTieAwayFromZero | src/main/java/com/mathias/electricitypriceaggregator/domain/valueobject/DailyAggregatedData.java:64 | a value exactly halfway between two tenths goes to the one farther from zero (`HALF_UP`) |
| DailyAggregates.RoundTieExamples | src/main/java/com/mathias/electricitypriceaggregator/domain/valueobject/DailyAggregatedData.java:64 | 0.25 rounds to 0.3 and -0.25 to -0.3 |
| DailyAggregates.RoundKeepsTenths | src/main/java/com/mathias/electricitypriceaggregator/domain/valueobject/DailyAggregatedData.java:59-66 | a value with at most one decimal is unchanged |
| DailyAggregates.RoundIdempotent | src/main/java/com/mathias/electricitypriceaggregator/domain/valueobject/DailyAggregatedData.java:59-66 | rounding twice is rounding once |
| DailyAggregates.RoundSymmetric | src/main/java/com/mathias/electricitypriceaggregator/domain/valueobject/DailyAggregatedData.java:63-65 | rounding commutes with negation |
| DailyAggregates.DailyAggregatedData.HashCode | src/main/java/com/mathias/electricitypriceaggregator/domain/valueobject/DailyAggregatedData.java:46-48 | the hash is a Java `int` |
| DailyAggregates.EqualsIsRawFieldEquality | src/main/java/com/mathias/electricitypriceaggregator/domain/valueobject/DailyAggregatedData.java:36-43 | equal exactly when the other object is of the class and all three raw fields agree |
| DailyAggregates.EqualsAgreesWithHashCode | src/main/java/com/mathias/electricitypriceaggregator/domain/valueobject/DailyAggregatedData.java:36-48 | equal values have equal hash codes, whatever the field types' hashes |
| DailyAggregates.GettersDoNotDetermineEquality | src/main/java/com/mathias/electricitypriceaggregator/domain/valueobject/DailyAggregatedData.java:27-43 | two values whose getters return the same rounded numbers can still be unequal, since `equals` compares the raw fields |
| PriceQueries.RangeFrom | src/main/java/com/mathias/electricitypriceaggregator/infrastructure/persistence/repository/JpaElectricityPriceRepository.java:20-21 | every row returned is a table row inside the range, in ascending instant order |
| PriceQueries.RangeFromMultiset | src/main/java/com/mathias/electricitypriceaggregator/infrastructure/persistence/repository/JpaElectricityPriceRepository.java:20-21 | the rows returned are, as a multiset, exactly the table rows with `start <= recordedAt < end` |
| PriceQueries.RangeQueryIsExact | src/main/java/com/mathias/electricitypriceaggregator/infrastructure/persistence/repository/JpaElectricityPriceRepository.java:20-21 | the range query returns each row of the half-open range as often as the table holds it, nothing else, ascending by instant |
| PriceQueries.HoursFromSpec | src/main/java/com/mathias/electricitypriceaggregator/infrastructure/persistence/repository/JpaElectricityPriceRepository.java:32-38 | the hours from `h` on are in `[h, 24)`, strictly ascending, and exactly those at which the date has a row |
| PriceQueries.RecordedHoursSpec | src/main/java/com/mathias/electricitypriceaggregator/infrastructure/persistence/repository/JpaElectricityPriceRepository.java:32-38 | the recorded hours of a date are UTC hours of the day, strictly ascending (distinct and ordered), and exactly those at which some row of that UTC date was recorded |
| PriceQueries.FindPricesDateWithoutWeather | src/main/java/com/mathias/electricitypriceaggregator/infrastructure/persistence/repository/JpaElectricityPriceRepository.java:23-30 | a date is returned iff some price row falls on it and it has no weather row; no date is returned twice |
| PriceQueries.CandidatesShrinkAsWeatherArrives | src/main/java/com/mathias/electricitypriceaggregator/infrastructure/persistence/repository/JpaElectricityPriceRepository.java:23-30 | once weather rows exist for more dates, those dates drop out of the candidates and the others keep their order |
| PriceBulk.IndexOfKey | src/main/java/com/mathias/electricitypriceaggregator/infrastructure/persistence/repository/ElectricityPriceBulkRepository.java:30 | the position found holds the key and is its first occurrence; none means no row has the key |
| PriceBulk.IndexOfUniqueKey | src/main/java/com/mathias/electricitypriceaggregator/infrastructure/persistence/repository/ElectricityPriceBulkRepository.java:30 | with unique keys, row `i` is found at position `i` |
| PriceBulk.UpsertEffect | src/main/java/com/mathias/electricitypriceaggregator/infrastructure/persistence/repository/ElectricityPriceBulkRepository.java:27-32 | one statement keeps keys unique and in place, stores the incoming price under its key, and changes no other key's price |
| PriceBulk.UpsertAllEffect | src/main/java/com/mathias/electricitypriceaggregator/infrastructure/persistence/repository/ElectricityPriceBulkRepository.java:25-40 | after the batch keys stay unique and in place, each batch key holds the price of its last record in the batch, and every other key keeps its price |
| PriceBulk.LastPriceOfMember | src/main/java/com/mathias/electricitypriceaggregator/infrastructure/persistence/repository/ElectricityPriceBulkRepository.java:34-39 | every key of the batch has a last price |
| PriceBulk.Overwrite | src/main/java/com/mathias/electricitypriceaggregator/infrastructure/persistence/repository/ElectricityPriceBulkRepository.java:31 | overwriting prices keeps the number of rows |
| PriceBulk.OverwriteKeepsKeys | src/main/java/com/mathias/electricitypriceaggregator/infrastructure/persistence/repository/ElectricityPriceBulkRepository.java:31 | overwriting prices keeps every row's key, hence the unique constraint |
| PriceBulk.OverwriteSnoc | src/main/java/com/mathias/electricitypriceaggregator/infrastructure/persistence/repository/ElectricityPriceBulkRepository.java:31 | one more record for an existing key changes only that row's price |
| PriceBulk.UpsertExistingKeys | src/main/java/com/mathias/electricitypriceaggregator/infrastructure/persistence/repository/ElectricityPriceBulkRepository.java:30-31 | when every key of the batch already has a row, the batch only overwrites prices in place |
| PriceBulk.UpsertAllIdempotent | src/main/java/com/mathias/electricitypriceaggregator/infrastructure/persistence/repository/ElectricityPriceBulkRepository.java:25-40 | applying the same batch twice leaves the table as applying it once |
| PriceBulk.BoundRecordsExact | src/main/java/com/mathias/electricitypriceaggregator/infrastructure/persistence/repository/ElectricityPriceBulkRepository.java:34-39 | a batch binds exactly when every entry has its instant and its price, and then to those entries' records, in order |
| PriceBulk.BoundRecordsOfEntries | src/main/java/com/mathias/electricitypriceaggregator/infrastructure/persistence/repository/ElectricityPriceBulkRepository.java:34-39 | entries made from records always bind, and give back the same records |
| PriceBulk.PriceTable.UpsertAll | src/main/java/com/mathias/electricitypriceaggregator/infrastructure/persistence/repository/ElectricityPriceBulkRepository.java:24-40 | an entry with a null instant or price makes the whole batch fail and leaves the table as it was; otherwise the table becomes exactly what the statements give, one after the other; keys stay unique |
| PriceBulk.PriceTable.InsertOnConflictUpdate | src/main/java/com/mathias/electricitypriceaggregator/infrastructure/persistence/repository/ElectricityPriceBulkRepository.java:27-32 | one statement: the table becomes the upsert of the record, keys stay unique |
| WeatherStore.FindByDateBetween | src/main/java/com/mathias/electricitypriceaggregator/infrastructure/persistence/repository/JpaWeatherDataRepository.java:16 | the rows with `start <= date <= end`, both ends inclusive, and no other |
| WeatherStore.FilterKeepsUniqueDates | src/main/java/com/mathias/electricitypriceaggregator/infrastructure/persistence/repository/JpaWeatherDataRepository.java:16 | a sub-list of a table with one row per date has one row per date |
| WeatherStore.WeatherTable.Save | src/main/java/com/mathias/electricitypriceaggregator/application/service/WeatherService.java:56-57 | the insert succeeds exactly when the date has no row; it then appends the row, else the table is unchanged |
| WeatherApiClient.Series | src/main/java/com/mathias/electricitypriceaggregator/infrastructure/external/WeatherApiClient.java:47-49 | a usable reply has a non-empty temperature series |
| WeatherApiClient.RetainedTemperatures | src/main/java/com/mathias/electricitypriceaggregator/infrastructure/external/WeatherApiClient.java:53-57 | at most one temperature per entry of the hour list; a temperature is kept iff some listed hour lies inside the series and has it (non-null) |
| WeatherApiClient.FetchDailyAverageTemperature | src/main/java/com/mathias/electricitypriceaggregator/infrastructure/external/WeatherApiClient.java:39-72 | a value comes back exactly when the date is present, the reply has a non-empty series, the hour list is present and selects at least one temperature; the value is then the mean of the selection |
| WeatherApiClient.RetainedConcat | src/main/java/com/mathias/electricitypriceaggregator/infrastructure/external/WeatherApiClient.java:53-57 | selecting from two hour lists in turn is selecting from their concatenation (order kept) |
| WeatherApiClient.RepeatedHourCountsTwice | src/main/java/com/mathias/electricitypriceaggregator/infrastructure/external/WeatherApiClient.java:53-57 | a repeated hour index contributes its temperature once per occurrence |
| WeatherApiClient.OutOfRangeHoursGiveNull | src/test/java/com/mathias/electricitypriceaggregator/infrastructure/external/WeatherApiClientIntegrationTest.java:88-116 | hour indices all outside the series give null |
| WeatherApiClient.EmptyHoursGiveNull | src/main/java/com/mathias/electricitypriceaggregator/infrastructure/external/WeatherApiClient.java:58-60 | an empty hour list gives null whatever the reply |
| WeatherApiClient.ResultWithinSelectedRange | src/main/java/com/mathias/electricitypriceaggregator/infrastructure/external/WeatherApiClient.java:61-64 | a value lies between the coldest and the warmest selected temperature |
| WeatherApiClient.TwelveHourExample | src/test/java/com/mathias/electricitypriceaggregator/infrastructure/external/WeatherApiClientIntegrationTest.java:35-57 | the series 20.0, 21.0, ... over hours 0 to 11 averages 25.5 |
| WeatherApiClient.RetainedPrefix | src/main/java/com/mathias/electricitypriceaggregator/infrastructure/external/WeatherApiClient.java:53-57 | selecting hours `0..n-1` of a series without nulls gives its first `n` values |
| WeatherApiClient.SumOfRun | src/test/java/com/mathias/electricitypriceaggregator/infrastructure/external/WeatherApiClientIntegrationTest.java:35-57 | the closed form of the sum 20.0 + 21.0 + ... used by the example |
| WeatherService.PassSnoc | src/main/java/com/mathias/electricitypriceaggregator/application/service/WeatherService.java:44-45 | a pass over one more date is the pass so far followed by that date's step on the table it left |
| WeatherService.StepOutcome | src/main/java/com/mathias/electricitypriceaggregator/application/service/WeatherService.java:51-63 | one step reports its own date, inserts exactly the row it reports as saved (only for a date without a row), and on a date without a row ends as the date alone determines |
| WeatherService.StepDate | src/main/java/com/mathias/electricitypriceaggregator/application/service/WeatherService.java:51-63 | the outcome of a step is for its own date |
| WeatherService.StepCalls | src/main/java/com/mathias/electricitypriceaggregator/application/service/WeatherService.java:53-57 | a step looks its date's hours up once, asks the provider with exactly those hours, and writes the value the provider gave |
| WeatherService.AskAndSaveEffect | src/main/java/com/mathias/electricitypriceaggregator/application/service/WeatherService.java:54-62 | a row is saved exactly when the date has none, the provider returned a temperature and the insert does not throw for another reason; a null reply gives no row; the provider is asked with the given hours |
| WeatherService.PassOutcomes | src/main/java/com/mathias/electricitypriceaggregator/application/service/WeatherService.java:44-45 | one outcome per candidate date, in the order of the candidates |
| WeatherService.PassLookups | src/main/java/com/mathias/electricitypriceaggregator/application/service/WeatherService.java:44-45 | the hour lookups of a pass are the candidate dates, in order |
| WeatherService.PassRows | src/main/java/com/mathias/electricitypriceaggregator/application/service/WeatherService.java:44-45 | the table only grows, by exactly the rows of the saved outcomes, in order |
| WeatherService.PassKeepsUniqueDates | src/main/java/com/mathias/electricitypriceaggregator/application/service/WeatherService.java:56-57 | a pass keeps one weather row per date |
| WeatherService.PassCalls | src/main/java/com/mathias/electricitypriceaggregator/application/service/WeatherService.java:53-57 | every provider call carries its date's recorded hours, and every write carries the provider's value for its date |
| WeatherService.PassRowsFromDates | src/main/java/com/mathias/electricitypriceaggregator/application/service/WeatherService.java:44-45 | a pass adds rows only for the dates it handles |
| WeatherService.LastDateStillFresh | src/main/java/com/mathias/electricitypriceaggregator/application/service/WeatherService.java:44-45 | on distinct dates without weather rows, the last date still has no row when its turn comes |
| WeatherService.PassOnFreshDates | src/main/java/com/mathias/electricitypriceaggregator/application/service/WeatherService.java:51-63 | on distinct dates without weather rows each outcome depends on its own date only, with each fault confined to its date (see Left out on transactions) |
| WeatherService.PassWriteCount | src/main/java/com/mathias/electricitypriceaggregator/application/service/WeatherService.java:55-57 | on such dates the table gains one row per date for which the provider returned a temperature and the insert did not throw |
| WeatherService.WrittenFromSaved | src/main/java/com/mathias/electricitypriceaggregator/application/service/WeatherService.java:56-57 | every written row comes from a saved outcome |
| WeatherService.WrittenHasSaved | src/main/java/com/mathias/electricitypriceaggregator/application/service/WeatherService.java:56-57 | every saved outcome has its row written |
| WeatherService.SyncEffect | src/main/java/com/mathias/electricitypriceaggregator/application/service/WeatherService.java:39-49 | a failing candidate query ends the sync with no change; otherwise each candidate is looked up once in order, ends as its own date determines (each fault confined to its date, see Left out on transactions), the table gains exactly the saved rows (one per answered date) and keeps one row per date |
| WeatherService.NoCandidatesNoCalls | src/test/java/com/mathias/electricitypriceaggregator/application/service/WeatherServiceTest.java:35-42 | with no candidate dates the sync makes the candidate query and nothing else |
| WeatherService.SecondSyncIsQuiet | src/main/java/com/mathias/electricitypriceaggregator/application/service/WeatherService.java:39-49 | after a sync in which every candidate was saved there are no candidates left, and a second sync changes nothing |
| WeatherService.AllSavedCoversDates | src/main/java/com/mathias/electricitypriceaggregator/application/service/WeatherService.java:44-45 | when every date of a pass is saved, the table afterwards has a row for each of them and for every date it had before |
| WeatherService.ClientFailuresComeFromTheRepositories | src/main/java/com/mathias/electricitypriceaggregator/application/service/WeatherService.java:51-63 | with the real client as provider, a date fails exactly when a repository call throws: its hour query, or the insert of the temperature the client returned, since the client catches everything |
| WeatherService.WeatherSync.constructor | src/main/java/com/mathias/electricitypriceaggregator/application/service/WeatherService.java:27-33 | the service holds the repositories it is given |
| WeatherService.WeatherSync.SyncWeatherData | src/main/java/com/mathias/electricitypriceaggregator/application/service/WeatherService.java:39-49 | the method leaves the weather table, the outcomes and the calls that the sync specification gives, and keeps one row per date |
| WeatherService.WeatherSync.FetchAndSaveAll | src/main/java/com/mathias/electricitypriceaggregator/application/service/WeatherService.java:44-45 | the loop over the candidates leaves the table, outcomes and calls of a pass over them |
| WeatherService.WeatherSync.FetchAndSaveWeatherDataForDate | src/main/java/com/mathias/electricitypriceaggregator/application/service/WeatherService.java:51-63 | one step on the live tables: table, outcome and calls as the step specification gives |
| WeatherEntity.WeatherData.constructor | src/main/java/com/mathias/electricitypriceaggregator/domain/model/WeatherData.java:19-20 | every field is null |
| WeatherEntity.WeatherData.Of | src/main/java/com/mathias/electricitypriceaggregator/domain/model/WeatherData.java:22-25 | date and temperature as given, id null |
| WeatherEntity.WeatherData.SetId | src/main/java/com/mathias/electricitypriceaggregator/domain/model/WeatherData.java:31-33 | the id changes, the other fields do not |
| WeatherEntity.WeatherData.SetDate | src/main/java/com/mathias/electricitypriceaggregator/domain/model/WeatherData.java:39-41 | the date changes, the other fields do not |
| WeatherEntity.WeatherData.SetAverageTemperature | src/main/java/com/mathias/electricitypriceaggregator/domain/model/WeatherData.java:47-49 | the temperature changes, the other fields do not |
| WeatherEntity.WeatherData.HashCode | src/main/java/com/mathias/electricitypriceaggregator/domain/model/WeatherData.java:59-62 | the hash is a Java `int` |
| WeatherEntity.EqualsIffSameDate | src/main/java/com/mathias/electricitypriceaggregator/domain/model/WeatherData.java:51-57 | equal exactly when the other object is a `WeatherData` with the same (possibly null) date; id and temperature do not matter |
| WeatherEntity.EqualsIsEquivalence | src/main/java/com/mathias/electricitypriceaggregator/domain/model/WeatherData.java:51-57 | `equals` is reflexive, symmetric and transitive |
| WeatherEntity.EqualValuesHashAlike | src/main/java/com/mathias/electricitypriceaggregator/domain/model/WeatherData.java:51-62 | equal values have equal hash codes |
| WeatherEntity.HashCodeValues | src/main/java/com/mathias/electricitypriceaggregator/domain/model/WeatherData.java:59-62 | a null date hashes to 31, a date to 31 plus its hash, wrapped to an `int` |
| ElectricityPrices.InstantHash | src/main/java/com/mathias/electricitypriceaggregator/domain/model/ElectricityPriceEstonia.java:43 | the instant hash is a Java `int`, equal to the epoch second when that is a non-negative `int` |
| ElectricityPrices.ElectricityPriceEstonia.constructor | src/main/java/com/mathias/electricitypriceaggregator/domain/ElectricityPriceFactory.java:11 | a new record has a null instant and a null price |
| ElectricityPrices.ElectricityPriceEstonia.SetPrice | src/main/java/com/mathias/electricitypriceaggregator/domain/model/ElectricityPriceEstonia.java:23-25 | the price changes, the instant does not |
| ElectricityPrices.ElectricityPriceEstonia.SetRecordedAt | src/main/java/com/mathias/electricitypriceaggregator/domain/model/ElectricityPriceEstonia.java:37 | the instant changes, the price does not |
| ElectricityPrices.ElectricityPriceEstonia.HashCode | src/main/java/com/mathias/electricitypriceaggregator/domain/model/ElectricityPriceEstonia.java:41-44 | the hash is a Java `int` |
| ElectricityPrices.EqualsIffSameInstant | src/main/java/com/mathias/electricitypriceaggregator/domain/model/ElectricityPriceEstonia.java:32-39 | equal exactly when the other object is an Estonian record with the same instant; null and other classes never are |
| ElectricityPrices.EqualsIgnoresPrice | src/main/java/com/mathias/electricitypriceaggregator/domain/model/ElectricityPriceEstonia.java:32-39 | records that differ only in price are equal |
| ElectricityPrices.EqualsIsEquivalence | src/main/java/com/mathias/electricitypriceaggregator/domain/model/ElectricityPriceEstonia.java:32-39 | `equals` is reflexive, symmetric and transitive |
| ElectricityPrices.EqualRecordsHashAlike | src/main/java/com/mathias/electricitypriceaggregator/domain/model/ElectricityPriceEstonia.java:32-44 | equal records have equal hash codes |
| ElectricityPrices.HashCodeValues | src/main/java/com/mathias/electricitypriceaggregator/domain/model/ElectricityPriceEstonia.java:41-44 | no instant hashes to 31; an instant `t` in `[0, 2^31 - 31)` to `31 + t` |
| ElectricityPrices.Dispatch | src/main/java/com/mathias/electricitypriceaggregator/domain/ElectricityPriceFactory.java:8-15 | success exactly for the code "EE", whose record class it picks; any other non-null code fails with "Unsupported country code: " and the code |
| ElectricityPrices.LowerCaseCodeRejected | src/main/java/com/mathias/electricitypriceaggregator/domain/ElectricityPriceFactory.java:12-13 | "ee" is unsupported: the match is exact |
| ElectricityPrices.NullCodeThrowsNullPointer | src/main/java/com/mathias/electricitypriceaggregator/domain/ElectricityPriceFactory.java:9 | a null code throws a null-pointer error, not the unsupported-code error |
| ElectricityPrices.Create | src/main/java/com/mathias/electricitypriceaggregator/domain/ElectricityPriceFactory.java:8-15 | a supported code gives a new, empty record whose country is the code; otherwise the dispatch error |
| DoubleConverter.Normalize | src/main/java/com/mathias/electricitypriceaggregator/infrastructure/csv/DoubleConverter.java:15 | replacing commas keeps the length |
| DoubleConverter.NormalizeAt | src/main/java/com/mathias/electricitypriceaggregator/infrastructure/csv/DoubleConverter.java:15 | position by position a comma becomes a dot and any other character stays; no comma is left |
| DoubleConverter.Convert | src/main/java/com/mathias/electricitypriceaggregator/infrastructure/csv/DoubleConverter.java:10-20 | null exactly for a null or blank cell; an error exactly when a non-blank cell does not parse after commas become dots, with message "Invalid number format: " and the original text; otherwise the parsed value |
| DoubleConverter.PlainValueRejectsTwoDots | src/main/java/com/mathias/electricitypriceaggregator/infrastructure/csv/DoubleConverter.java:16 | the reference decimal syntax never accepts two decimal points |
| DoubleConverter.ReferenceParserIsJavaLike | src/main/java/com/mathias/electricitypriceaggregator/infrastructure/csv/DoubleConverter.java:16 | the reference decimal reader meets the hypothesis made of the parser |
| DoubleConverter.NormalizeKeepsBlankness | src/main/java/com/mathias/electricitypriceaggregator/infrastructure/csv/DoubleConverter.java:11-15 | a cell is blank after normalising exactly when it was before |
| DoubleConverter.CommaAndDotAgree | src/main/java/com/mathias/electricitypriceaggregator/infrastructure/csv/DoubleConverter.java:15-16 | cells that differ only in comma or dot as separator convert alike |
| DoubleConverter.MultipleSeparatorsRejected | src/main/java/com/mathias/electricitypriceaggregator/infrastructure/csv/DoubleConverter.java:15-18 | a cell with two separators, commas or dots, is rejected with its own text in the message |
| DoubleConverter.LeadingMinusKept | src/main/java/com/mathias/electricitypriceaggregator/infrastructure/csv/DoubleConverter.java:15-16 | `-x` converts to minus the value of `x`, with either separator |
| DoubleConverter.ReadsPlainDecimal | src/main/java/com/mathias/electricitypriceaggregator/infrastructure/csv/DoubleConverter.java:10-16 | a cell that normalises to a plain decimal converts to that decimal |
| DoubleConverter.NormalizeSamples | src/test/java/com/mathias/electricitypriceaggregator/infrastructure/csv/DoubleConverterTest.java:11-29 | "123,45" and "-123,45" normalise to their dotted forms, and dotted forms are unchanged |
| DoubleConverter.CommaExample | src/test/java/com/mathias/electricitypriceaggregator/infrastructure/csv/DoubleConverterTest.java:11-23 | "123,45" and "123.45" both convert to 123.45 |
| DoubleConverter.NegativeExample | src/test/java/com/mathias/electricitypriceaggregator/infrastructure/csv/DoubleConverterTest.java:25-29 | "-123,45" and "-123.45" both convert to -123.45 |
| DoubleConverter.TwoSeparatorExamples | src/test/java/com/mathias/electricitypriceaggregator/infrastructure/csv/DoubleConverterTest.java:46-61 | "12,34,56" and "12.34,56" are rejected with their text in the message |
| DoubleConverter.BlankExamples | src/test/java/com/mathias/electricitypriceaggregator/infrastructure/csv/DoubleConverterTest.java:31-44 | null, empty and whitespace-only cells convert to null |
| Averages.Mean | src/main/java/com/mathias/electricitypriceaggregator/application/service/AggregationService.java:46 | the mean is absent exactly for an empty list, and times the count it is the sum |
| Averages.SumPermutation | src/main/java/com/mathias/electricitypriceaggregator/application/service/AggregationService.java:46 | the sum does not depend on the order of the values |
| Averages.MeanWithinBounds | src/main/java/com/mathias/electricitypriceaggregator/infrastructure/external/WeatherApiClient.java:61-64 | a mean lies between any lower and upper bound of its values |
| Averages.MeanPermutation | src/main/java/com/mathias/electricitypriceaggregator/application/service/AggregationService.java:46 | the mean does not depend on the order of the values |
| Seqs.Filter | src/main/java/com/mathias/electricitypriceaggregator/infrastructure/external/WeatherApiClient.java:53-57 | `stream.filter` keeps exactly the elements satisfying the predicate |
| Seqs.Distinct | src/main/java/com/mathias/electricitypriceaggregator/infrastructure/persistence/repository/JpaElectricityPriceRepository.java:24 | `DISTINCT` keeps every element once and no element twice |
| Seqs.DistinctFilter | src/main/java/com/mathias/electricitypriceaggregator/infrastructure/persistence/repository/JpaElectricityPriceRepository.java:24-28 | filtering after `DISTINCT` is `DISTINCT` after filtering |
| UtcTime.HourOf | src/main/java/com/mathias/electricitypriceaggregator/infrastructure/persistence/repository/JpaElectricityPriceRepository.java:33 | the UTC hour of an instant is in `[0, 24)` |
| UtcTime.DayOfIsHalfOpenDay | src/main/java/com/mathias/electricitypriceaggregator/infrastructure/persistence/repository/JpaElectricityPriceRepository.java:35 | an instant falls on a UTC date exactly when it lies between that midnight and the next |
| UtcTime.InstantDecomposition | src/main/java/com/mathias/electricitypriceaggregator/infrastructure/persistence/repository/JpaElectricityPriceRepository.java:33-35 | an instant is its date's midnight plus its hour plus the seconds into the hour |
| JavaObjects.ToInt32 | src/main/java/com/mathias/electricitypriceaggregator/domain/model/WeatherData.java:61 | narrowing to `int` wraps modulo 2^32 and keeps values already in range |
| JavaObjects.Hash | src/main/java/com/mathias/electricitypriceaggregator/domain/model/WeatherData.java:61 | `Objects.hash` gives an `int`, 1 for no elements |
| JavaObjects.LongHash | src/main/java/com/mathias/electricitypriceaggregator/domain/model/ElectricityPriceEstonia.java:43 | `Long.hashCode` gives an `int`, equal to the value for a non-negative `int` |
| JavaObjects.HashOfOne | src/main/java/com/mathias/electricitypriceaggregator/domain/model/WeatherData.java:61 | a one-element hash is 31 plus the element's hash, wrapped |
| LocalDates.CivilFromDays | src/main/java/com/mathias/electricitypriceaggregator/infrastructure/external/WeatherApiClient.java:41 | month in 1..12 and day in 1..31 |
| LocalDates.IsoStringOfNewYear2024 | src/test/java/com/mathias/electricitypriceaggregator/application/service/AggregationServiceTest.java:172 | day 19723 is 2024-01-01 and prints as "2024-01-01" |
| LocalDates.IsoStringOfJanuary2nd2024 | src/test/java/com/mathias/electricitypriceaggregator/application/service/AggregationServiceTest.java:172 | day 19724 is 2024-01-02 and prints as "2024-01-02" |

## Left out

- CSV ingestion (OpenCSV bean binding, file upload, `ElectricityPriceService`): only the number-cell converter is modelled.
- The web controllers and DTOs: they only forward to the services.
- The URL building and `RestTemplate` call of the weather client: the HTTP outcome (a body, possibly null, or an exception) is a parameter.
- Logging, the `@Scheduled` trigger and the parallelism the backfill plans: a sync is one sequential pass, and each date's failure is caught as in the source.
- WeatherService.PassOnFreshDates: the class-level transaction of the service (WeatherService.java:20) is not modelled, and each fault of the hour query or of the insert is confined to its own date. In the source one sync is one transaction: a database fault caught for one date can mark it for rollback and, on PostgreSQL, makes every later statement of it fail, so later dates fail too and the earlier inserts of the sync are discarded. The per-date independence this lemma states holds in the source only for faults outside the database, the provider's replies.
- WeatherService.SyncEffect: "ends as its own date determines" holds under the same per-date fault semantics as the line above, and so does the claim that the table gains exactly the saved rows.
- The service's `findPricesDateWithoutWeather` and `findRecordedHoursByDate` calls (WeatherService.java:41, 53) are bound directly to the JPA queries of those names (JpaElectricityPriceRepository.java:23-38). The domain `ElectricityPriceRepository` declares neither, and its implementation does not provide them. The candidate query returns `java.sql.Date` values, taken here as the dates they name.
- Mappers, JPA entities and the repository delegators: the tables are modelled directly as rows.
- `ElectricityPrice.java`, the base class as it stands, still has `timestamp`/`npsEstonia` and no `recordedAt`. The model gives the Estonian record the inherited `recordedAt` getter and setter its subclass and the repositories use.
- The aggregation reads the price table through the half-open instant range of midnight before the start date to midnight after the end date. The domain repository's `findByDateBetween` delegates to a JPA query the JPA interface does not declare, so the model uses the declared `findByRecordedAtBetween`.
- IEEE 754 double arithmetic: values are exact reals, so the sums behind `averagingDouble`/`average` do not round.
- Time zones: dates and hours are UTC, as the native queries state. The JPQL `FUNCTION('date', ...)` is taken to be UTC as well.
- `findPricesDateWithoutWeather` has no `ORDER BY`: the model lists each date where it first occurs in the table.
- The weather `save` is modelled as an insert that the unique date constraint or a database fault can reject, not as a merge.
- Sub-second instants: the price table holds whole seconds, so `Instant.hashCode` is `Long.hashCode` of the epoch second.
- The hashes of `LocalDate` and `Double` are parameters of the `hashCode` functions.
- `Double.parseDouble`'s grammar (exponents, hexadecimal, `NaN`, `Infinity`, `d`/`f` suffixes, trimming) is a parameter. The parser is assumed to agree with a reference reader of plain decimals and to reject two decimal points.
- `toString` of the value classes: it is text for logs only.
- ElectricityPrices.ElectricityPriceEstonia.HashCode: states only that the result is an `int`; `HashCodeValues` gives its values for the null and small non-negative instants.

## Findings

| source | as written | input that shows it | evidently intended | confidence | as-written member | corrected member |
|---|---|---|---|---|---|---|
| src/main/java/com/mathias/electricitypriceaggregator/application/service/AggregationService.java:43-47 | prices are grouped under their raw `Long` timestamp, then looked up with a `LocalDate` at line 61, which never matches | prices 100 and 200 at 2024-01-01T00:00Z and 12:00Z, temperature 20 on 2024-01-01, range 2024-01-01..2024-01-01: the row has a null price | group by UTC date, so the row has price 150 | not executed | Aggregation.AsWrittenSampleDay | Aggregation.SampleDay |
| src/main/java/com/mathias/electricitypriceaggregator/application/service/AggregationService.java:35 | the dates are not checked: a null start throws a null-pointer error and an end one day before the start returns an empty list | start 2024-01-02, end 2024-01-01 | an argument error: "End date 2024-01-01 cannot be before start date 2024-01-02" (and "Start date cannot be null" / "End date cannot be null") | not executed | Aggregation.AsWrittenAcceptsReversedRange | Aggregation.GetAggregatedDataChecksArguments |
