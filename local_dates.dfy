/** What the model needs of `java.time.LocalDate`: the proleptic Gregorian calendar fields of a date and its ISO text. */
module LocalDates {
  import opened UtcTime

  datatype CivilDate = CivilDate(year: int, month: int, day: int)

  /** Year, month and day of the date `d` days after 1970-01-01 (proleptic Gregorian calendar, 400-year eras). */
  function CivilFromDays(d: Date): (c: CivilDate)
    ensures 1 <= c.month <= 12 && 1 <= c.day <= 31
  {
    var z := d + 719468;
    var era := z / 146097;
    var doe := z % 146097;
    var yoe := (doe - doe / 1460 + doe / 36524 - doe / 146096) / 365;
    var doy := doe - (365 * yoe + yoe / 4 - yoe / 100);
    var mp := (5 * doy + 2) / 153;
    var day := doy - (153 * mp + 2) / 5 + 1;
    var month := if mp < 10 then mp + 3 else mp - 9;
    var year := yoe + era * 400 + (if month <= 2 then 1 else 0);
    CivilDate(year, month, day)
  }

  function DigitChar(n: int): char
    requires 0 <= n < 10
  {
    "0123456789"[n]
  }

  /** The decimal digits of `n`, without leading zeros (`"0"` for zero). */
  function Decimal(n: nat): (s: string)
    ensures |s| >= 1
    decreases n
  {
    if n < 10 then [DigitChar(n)] else Decimal(n / 10) + [DigitChar(n % 10)]
  }

  /** `n` in at least `width` digits, padded with leading zeros. */
  function Padded(n: nat, width: nat): (s: string)
    ensures |s| >= width
  {
    var digits := Decimal(n);
    if |digits| >= width then digits else seq(width - |digits|, _ => '0') + digits
  }

  /**
   * `LocalDate.toString`: `uuuu-MM-dd`. A year of fewer than four digits is zero-padded (with a leading `-`
   * when negative); a year above 9999 gets a leading `+`.
   */
  function IsoString(d: Date): string
  {
    var c := CivilFromDays(d);
    var absYear := if c.year < 0 then -c.year else c.year;
    var year :=
      if absYear < 1000 then (if c.year < 0 then "-" else "") + Padded(absYear, 4)
      else (if c.year > 9999 then "+" else if c.year < 0 then "-" else "") + Decimal(absYear);
    year + "-" + Padded(c.month, 2) + "-" + Padded(c.day, 2)
  }

  /** 1 January 2024 is day 19723 and prints as `2024-01-01`. */
  lemma IsoStringOfNewYear2024()
    ensures CivilFromDays(19723) == CivilDate(2024, 1, 1)
    ensures IsoString(19723) == "2024" + "-" + "01" + "-" + "01"
  {
    CivilOfNewYear2024();
    YearText2024();
    PaddedDigit(1);
  }

  /** 2 January 2024 is day 19724 and prints as `2024-01-02`. */
  lemma IsoStringOfJanuary2nd2024()
    ensures CivilFromDays(19724) == CivilDate(2024, 1, 2)
    ensures IsoString(19724) == "2024" + "-" + "01" + "-" + "02"
  {
    CivilOfJanuary2nd2024();
    YearText2024();
    PaddedDigit(1);
    PaddedDigit(2);
  }

  /** Day 19723 worked through the era arithmetic: era 5, day 8706 of the era, year 23 of the era, day 306 of the March-based year. */
  lemma CivilOfNewYear2024()
    ensures CivilFromDays(19723) == CivilDate(2024, 1, 1)
  {
    assert 739191 / 146097 == 5 && 739191 % 146097 == 8706;
    assert 8706 / 1460 == 5 && 8706 / 36524 == 0 && 8706 / 146096 == 0;
    assert 8701 / 365 == 23 && 23 / 4 == 5 && 23 / 100 == 0;
    assert 1532 / 153 == 10 && 1532 / 5 == 306;
  }

  /** Day 19724: one day further into the same March-based year. */
  lemma CivilOfJanuary2nd2024()
    ensures CivilFromDays(19724) == CivilDate(2024, 1, 2)
  {
    assert 739192 / 146097 == 5 && 739192 % 146097 == 8707;
    assert 8707 / 1460 == 5 && 8707 / 36524 == 0 && 8707 / 146096 == 0;
    assert 8702 / 365 == 23 && 23 / 4 == 5 && 23 / 100 == 0;
    assert 1537 / 153 == 10 && 1532 / 5 == 306;
  }

  lemma YearText2024()
    ensures Decimal(2024) == "2024"
  {
    assert Decimal(2) == "2";
    assert Decimal(20) == "20";
    assert Decimal(202) == "202";
  }

  /** A one-digit number in two places gets one leading zero. */
  lemma PaddedDigit(n: nat)
    requires n < 10
    ensures Padded(n, 2) == ['0', DigitChar(n)]
  {
  }
}
