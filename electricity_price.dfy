/**
 * The domain price record of the Estonian market and the factory that picks the record class for a country code.
 * Equality is by `(recordedAt, country)`, the hash by `recordedAt` alone; the price is mutable and takes no part in either.
 */
module ElectricityPrices {
  import opened Wrappers
  import opened UtcTime
  import opened JavaObjects

  /** The country code of every Estonian record. */
  const Estonia: string := "EE"

  /** `Instant.hashCode` of a whole-second instant: `Long.hashCode` of its epoch seconds, the nanosecond part being 0. */
  function InstantHash(t: Instant): (h: int)
    requires IsInt64(t)
    ensures IsInt32(h)
    ensures 0 <= t <= MaxInt ==> h == t
  {
    LongHash(t)
  }

  class ElectricityPriceEstonia {
    var recordedAt: Option<Instant>
    var price: Option<real>

    /** What `new ElectricityPriceEstonia()` leaves: both fields null. */
    constructor ()
      ensures recordedAt == None && price == None
    {
      recordedAt := None;
      price := None;
    }

    /** `getCountry`: the class constant. */
    function GetCountry(): string
    {
      Estonia
    }

    function GetPrice(): Option<real>
      reads this
    {
      price
    }

    function GetRecordedAt(): Option<Instant>
      reads this
    {
      recordedAt
    }

    /** `setPrice`: the price becomes `p`, the instant stays. */
    method SetPrice(p: Option<real>)
      modifies this
      ensures price == p && recordedAt == old(recordedAt)
    {
      price := p;
    }

    /** The inherited setter of the instant: the instant becomes `t`, the price stays. */
    method SetRecordedAt(t: Option<Instant>)
      modifies this
      ensures recordedAt == t && price == old(price)
    {
      recordedAt := t;
    }

    /** `equals`: the same object, or another Estonian record with the same instant and country. */
    predicate Equals(o: Other<ElectricityPriceEstonia>)
      reads this, if o.SameClass? then {o.obj} else {}
    {
      match o
      case SameClass(that) => that == this || (recordedAt == that.recordedAt && GetCountry() == that.GetCountry())
      case _ => false
    }

    /** `hashCode`: `Objects.hash(getRecordedAt())`. */
    function HashCode(): (h: int)
      reads this
      requires recordedAt.None? || IsInt64(recordedAt.value)
      ensures IsInt32(h)
    {
      Hash([match recordedAt case None => 0 case Some(t) => InstantHash(t)])
    }
  }

  /** Two records are equal exactly when the other is an Estonian record with the same instant; null and other classes never are. */
  lemma EqualsIffSameInstant(a: ElectricityPriceEstonia, o: Other<ElectricityPriceEstonia>)
    ensures a.Equals(o) <==> o.SameClass? && o.obj.recordedAt == a.recordedAt
  {
  }

  /** The price takes no part in equality: records differing only in price are equal. */
  lemma EqualsIgnoresPrice(a: ElectricityPriceEstonia, b: ElectricityPriceEstonia)
    requires a.recordedAt == b.recordedAt && a.price != b.price
    ensures a.Equals(SameClass(b)) && b.Equals(SameClass(a))
  {
  }

  /** `equals` is an equivalence on Estonian records. */
  lemma EqualsIsEquivalence(a: ElectricityPriceEstonia, b: ElectricityPriceEstonia, c: ElectricityPriceEstonia)
    ensures a.Equals(SameClass(a))
    ensures a.Equals(SameClass(b)) ==> b.Equals(SameClass(a))
    ensures a.Equals(SameClass(b)) && b.Equals(SameClass(c)) ==> a.Equals(SameClass(c))
  {
  }

  /** Equal records have equal hash codes. */
  lemma EqualRecordsHashAlike(a: ElectricityPriceEstonia, b: ElectricityPriceEstonia)
    requires a.recordedAt.None? || IsInt64(a.recordedAt.value)
    requires a.Equals(SameClass(b))
    ensures b.recordedAt.None? || IsInt64(b.recordedAt.value)
    ensures a.HashCode() == b.HashCode()
  {
  }

  /** The hash of a record without an instant is 31; with an instant `t` in `[0, 2^31 - 31)` it is `31 + t`. */
  lemma HashCodeValues(a: ElectricityPriceEstonia)
    ensures a.recordedAt.None? ==> a.HashCode() == 31
    ensures a.recordedAt.Some? && 0 <= a.recordedAt.value < MaxInt - 30 ==> a.HashCode() == 31 + a.recordedAt.value
  {
    match a.recordedAt
    case None => HashOfOne(0);
    case Some(t) => HashOfOne(if IsInt64(t) then InstantHash(t) else 0);
  }

  /** What `ElectricityPriceFactory.create` throws: a `NullPointerException` from `switch` on null, or an `IllegalArgumentException`. */
  datatype FactoryError = NullCountry | IllegalArgument(message: string)

  function UnsupportedCountryMessage(country: string): string
  {
    "Unsupported country code: " + country
  }

  /**
   * The `switch` of `create`: the country code of the record class it instantiates, or what it throws.
   * The match is exact, so any other spelling of a supported code is unsupported.
   */
  function Dispatch(country: Option<string>): (r: Result<string, FactoryError>)
    ensures r.Success? <==> country == Some(Estonia)
    ensures r.Success? ==> r.value == country.value
    ensures r.Failure? && country.Some? ==> r.error == IllegalArgument(UnsupportedCountryMessage(country.value))
  {
    match country
    case None => Failure(NullCountry)
    case Some(c) =>
      if c == Estonia then Success(Estonia)
      else Failure(IllegalArgument(UnsupportedCountryMessage(c)))
  }

  /** Lower-case `ee` is not `EE`: the factory rejects it, naming it in the message. */
  lemma LowerCaseCodeRejected()
    ensures Dispatch(Some("ee")) == Failure(IllegalArgument("Unsupported country code: " + "ee"))
  {
  }

  /** A null code is not an unsupported code: `switch` on null throws before the default branch. */
  lemma NullCodeThrowsNullPointer()
    ensures Dispatch(None) == Failure(NullCountry)
  {
  }

  /** `ElectricityPriceFactory.create(country)`: a new, empty record of the class for the code, whose country is that code. */
  method Create(country: Option<string>) returns (r: Result<ElectricityPriceEstonia, FactoryError>)
    ensures r.Success? <==> Dispatch(country).Success?
    ensures r.Success? ==> fresh(r.value) && r.value.GetCountry() == country.value
    ensures r.Success? ==> r.value.recordedAt.None? && r.value.price.None?
    ensures r.Failure? ==> r.error == Dispatch(country).error
  {
    match Dispatch(country)
    case Success(_) =>
      var p := new ElectricityPriceEstonia();
      r := Success(p);
    case Failure(e) =>
      r := Failure(e);
  }
}
