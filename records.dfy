/** The rows of the two stores: the `electricity_price` and `weather_data` tables. */
module Records {
  import opened UtcTime

  /** The uniqueness key of the price table: `UNIQUE (recorded_at, country)`. */
  datatype PriceKey = PriceKey(recordedAt: Instant, country: string)

  /** One row of `electricity_price`; every column is NOT NULL, so the price is always present. */
  datatype PriceRecord = PriceRecord(recordedAt: Instant, country: string, price: real)
  {
    function Key(): PriceKey
    {
      PriceKey(recordedAt, country)
    }
  }

  /** One row of `weather_data`; the date is `UNIQUE` and the temperature NOT NULL. */
  datatype WeatherRecord = WeatherRecord(date: Date, averageTemperature: real)
}
