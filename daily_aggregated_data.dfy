/**
 * The value object one aggregated day is returned as: raw averages in its fields, averages rounded to one
 * decimal by its getters, and `equals`/`hashCode` over the raw fields.
 */
module DailyAggregates {
  import opened Wrappers
  import opened UtcTime
  import JavaObjects

  function Abs(x: real): real
  {
    if x < 0.0 then -x else x
  }

  /** `x` has at most one decimal digit after the point. */
  predicate IsTenth(x: real)
  {
    (x * 10.0).Floor as real == x * 10.0
  }

  lemma FloorBounds(y: real)
    ensures y.Floor as real <= y < y.Floor as real + 1.0
  {
  }

  /**
   * `x` in tenths, as `BigDecimal.setScale(1, RoundingMode.HALF_UP)` computes it on an exact decimal:
   * the nearest whole number of tenths, a tie going away from zero.
   */
  function HalfUpTenths(x: real): (n: int)
    ensures x * 10.0 - 0.5 <= n as real <= x * 10.0 + 0.5
    ensures x >= 0.0 ==> n as real > x * 10.0 - 0.5
    ensures x < 0.0 ==> n as real < x * 10.0 + 0.5
  {
    if x >= 0.0 then
      FloorBounds(x * 10.0 + 0.5);
      (x * 10.0 + 0.5).Floor
    else
      FloorBounds(-x * 10.0 + 0.5);
      -((-x * 10.0 + 0.5).Floor)
  }

  /** The rounding of `x` to one decimal, half-up. */
  function RoundHalfUp(x: real): (r: real)
    ensures IsTenth(r)
    ensures Abs(r - x) <= 0.05
    ensures (x >= 0.0 ==> r >= 0.0) && (x <= 0.0 ==> r <= 0.0)
  {
    var n := HalfUpTenths(x);
    assert (n as real / 10.0) * 10.0 == n as real;
    n as real / 10.0
  }

  /** `round`: null stays null, any other value is rounded half-up to one decimal. */
  function Round(v: Option<real>): (r: Option<real>)
    ensures r.Some? <==> v.Some?
    ensures r.Some? ==> IsTenth(r.value) && Abs(r.value - v.value) <= 0.05
  {
    match v
    case None => None
    case Some(x) => Some(RoundHalfUp(x))
  }

  /** No tenth is closer to `x` than its rounding. */
  lemma RoundIsNearestTenth(x: real, k: int)
    ensures Abs(RoundHalfUp(x) - x) <= Abs(k as real / 10.0 - x)
  {
    var n := HalfUpTenths(x);
    assert Abs(RoundHalfUp(x) - x) * 10.0 == Abs(n as real - x * 10.0);
    assert Abs(k as real / 10.0 - x) * 10.0 == Abs(k as real - x * 10.0);
    if k != n {
      assert Abs(k as real - n as real) >= 1.0;
    }
  }

  /** A value exactly halfway between two tenths rounds to the one farther from zero. */
  lemma RoundTieAwayFromZero(k: int)
    ensures RoundHalfUp((2 * k + 1) as real / 20.0) == (if k >= 0 then k + 1 else k) as real / 10.0
  {
    var x := (2 * k + 1) as real / 20.0;
    assert x * 10.0 == k as real + 0.5;
    var n := HalfUpTenths(x);
    assert k as real <= n as real <= k as real + 1.0;
    assert n == if k >= 0 then k + 1 else k;
  }

  lemma RoundTieExamples()
    ensures RoundHalfUp(0.25) == 0.3 && RoundHalfUp(-0.25) == -0.3
  {
    RoundTieAwayFromZero(2);
    RoundTieAwayFromZero(-3);
  }

  /** A value of at most one decimal is its own rounding. */
  lemma RoundKeepsTenths(x: real)
    requires IsTenth(x)
    ensures RoundHalfUp(x) == x
  {
    var m := (x * 10.0).Floor;
    assert HalfUpTenths(x) == m;
  }

  /** Rounding twice is rounding once. */
  lemma RoundIdempotent(v: Option<real>)
    ensures Round(Round(v)) == Round(v)
  {
    if v.Some? {
      RoundKeepsTenths(RoundHalfUp(v.value));
    }
  }

  /** Half-up rounding is symmetric about zero. */
  lemma RoundSymmetric(x: real)
    ensures RoundHalfUp(-x) == -RoundHalfUp(x)
  {
    if x == 0.0 {
      assert HalfUpTenths(x) == 0;
    }
  }

  datatype DailyAggregatedData = DailyAggregatedData(date: Date, averageElectricityPrice: Option<real>, averageTemperature: Option<real>)
  {
    /** `getAverageElectricityPrice`: the raw average, rounded. */
    function AverageElectricityPrice(): Option<real>
    {
      Round(averageElectricityPrice)
    }

    /** `getAverageTemperature`: the raw average, rounded. */
    function AverageTemperature(): Option<real>
    {
      Round(averageTemperature)
    }

    /** `equals`: same class and the same raw (unrounded) fields. */
    function Equals(o: Other<DailyAggregatedData>): bool
    {
      match o
      case SameClass(that) =>
        that.date == date
        && that.averageElectricityPrice == averageElectricityPrice
        && that.averageTemperature == averageTemperature
      case _ => false
    }

    /** `hashCode`: `Objects.hash(date, averageElectricityPrice, averageTemperature)`, given the field types' hashes. */
    function HashCode(dateHash: Date -> int, doubleHash: real -> int): (h: int)
      ensures JavaObjects.IsInt32(h)
    {
      JavaObjects.Hash([
        dateHash(date),
        JavaObjects.NullableHash(averageElectricityPrice, doubleHash),
        JavaObjects.NullableHash(averageTemperature, doubleHash)])
    }
  }

  /** Two values are equal exactly when all three raw fields agree, and never equal null or another class. */
  lemma EqualsIsRawFieldEquality(a: DailyAggregatedData, o: Other<DailyAggregatedData>)
    ensures a.Equals(o) <==> o.SameClass? && o.obj == a
  {
  }

  /** Equal values hash alike, whatever the hashes of the field types. */
  lemma EqualsAgreesWithHashCode(a: DailyAggregatedData, b: DailyAggregatedData, dateHash: Date -> int, doubleHash: real -> int)
    requires a.Equals(SameClass(b))
    ensures a.HashCode(dateHash, doubleHash) == b.HashCode(dateHash, doubleHash)
  {
  }

  /** The getters round but `equals` does not: two values can read identically and still be unequal. */
  lemma GettersDoNotDetermineEquality()
    ensures var a, b := DailyAggregatedData(0, Some(1.0), None), DailyAggregatedData(0, Some(1.04), None);
      && a.AverageElectricityPrice() == b.AverageElectricityPrice()
      && a.AverageTemperature() == b.AverageTemperature()
      && !a.Equals(SameClass(b))
  {
    assert HalfUpTenths(1.04) == 10;
    assert HalfUpTenths(1.0) == 10;
  }
}
