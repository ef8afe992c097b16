/**
 * The domain weather entity: a mutable bean whose identity, for `equals` and `hashCode`, is its date alone.
 */
module WeatherEntity {
  import opened Wrappers
  import opened UtcTime
  import opened JavaObjects

  class WeatherData {
    var id: Option<int>
    var date: Option<Date>
    var averageTemperature: Option<real>

    /** The no-argument constructor: every field null. */
    constructor ()
      ensures id == None && date == None && averageTemperature == None
    {
      id := None;
      date := None;
      averageTemperature := None;
    }

    /** `WeatherData(date, averageTemperature)`: the two values given, the id still unset. */
    constructor Of(date: Option<Date>, averageTemperature: Option<real>)
      ensures this.date == date && this.averageTemperature == averageTemperature
      ensures id == None
    {
      id := None;
      this.date := date;
      this.averageTemperature := averageTemperature;
    }

    method SetId(id: Option<int>)
      modifies this
      ensures this.id == id
      ensures date == old(date) && averageTemperature == old(averageTemperature)
    {
      this.id := id;
    }

    method SetDate(date: Option<Date>)
      modifies this
      ensures this.date == date
      ensures id == old(id) && averageTemperature == old(averageTemperature)
    {
      this.date := date;
    }

    method SetAverageTemperature(averageTemperature: Option<real>)
      modifies this
      ensures this.averageTemperature == averageTemperature
      ensures id == old(id) && date == old(date)
    {
      this.averageTemperature := averageTemperature;
    }

    /** `equals`: the same object, or another `WeatherData` with the same (possibly null) date. */
    predicate Equals(o: Other<WeatherData>)
      reads this, if o.SameClass? then {o.obj} else {}
    {
      match o
      case SameClass(that) => that == this || date == that.date
      case _ => false
    }

    /** `hashCode`: `Objects.hash(date)`, given `LocalDate.hashCode`. */
    function HashCode(dateHash: Date -> int): (h: int)
      reads this
      ensures IsInt32(h)
    {
      Hash([NullableHash(date, dateHash)])
    }
  }

  /** Two values are equal exactly when the other is a `WeatherData` with the same date; id and temperature do not matter. */
  lemma EqualsIffSameDate(a: WeatherData, o: Other<WeatherData>)
    ensures a.Equals(o) <==> o.SameClass? && o.obj.date == a.date
  {
  }

  /** `equals` is an equivalence on `WeatherData` values. */
  lemma EqualsIsEquivalence(a: WeatherData, b: WeatherData, c: WeatherData)
    ensures a.Equals(SameClass(a))
    ensures a.Equals(SameClass(b)) ==> b.Equals(SameClass(a))
    ensures a.Equals(SameClass(b)) && b.Equals(SameClass(c)) ==> a.Equals(SameClass(c))
  {
  }

  /** Equal values hash alike, whatever `LocalDate.hashCode` is. */
  lemma EqualValuesHashAlike(a: WeatherData, b: WeatherData, dateHash: Date -> int)
    requires a.Equals(SameClass(b))
    ensures a.HashCode(dateHash) == b.HashCode(dateHash)
  {
  }

  /** A value without a date hashes to 31, and one with a date to 31 plus the date's hash, wrapped to an `int`. */
  lemma HashCodeValues(a: WeatherData, dateHash: Date -> int)
    ensures a.date.None? ==> a.HashCode(dateHash) == 31
    ensures a.date.Some? ==> a.HashCode(dateHash) == ToInt32(31 + dateHash(a.date.value))
  {
    HashOfOne(NullableHash(a.date, dateHash));
  }
}
