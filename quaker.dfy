/**
 * The earthquake record `Quaker`: four values fixed by the constructor and
 * read back by getters. Java's `double` magnitude is modelled as an exact
 * `real`, its `long` timestamp as the 64-bit range below.
 */
module QuakerRecord {

  /** Java's `long`. */
  newtype int64 = x: int | -0x8000_0000_0000_0000 <= x < 0x8000_0000_0000_0000

  /**
   * One earthquake. A datatype value cannot be changed after it is built,
   * which is exactly the guarantee of the Java class: its private fields are
   * assigned only in the constructor and it has no setters.
   */
  datatype Quaker = Quaker(
    magnitude: real,
    location: string,
    timeInMilliseconds: int64,
    url: string)
  {
    /** `getmMagnitude` */
    function GetMagnitude(): real { magnitude }

    /** `getmLocation` */
    function GetLocation(): string { location }

    /** `getmTimeInMilliSeconds` */
    function GetTimeInMilliseconds(): int64 { timeInMilliseconds }

    /** `getUrl` */
    function GetUrl(): string { url }
  }

  /** Every getter returns exactly the value handed to the constructor. */
  lemma GettersReturnConstructorArguments(magnitude: real, location: string, time: int64, url: string)
    ensures Quaker(magnitude, location, time, url).GetMagnitude() == magnitude
    ensures Quaker(magnitude, location, time, url).GetLocation() == location
    ensures Quaker(magnitude, location, time, url).GetTimeInMilliseconds() == time
    ensures Quaker(magnitude, location, time, url).GetUrl() == url
  {
  }

  /**
   * The four getters determine the record: rebuilding a record from what its
   * getters return gives the same record, so two records whose getters agree
   * are equal, whenever they are read.
   */
  lemma RecordDeterminedByGetters(q: Quaker, q': Quaker)
    ensures Quaker(q.GetMagnitude(), q.GetLocation(), q.GetTimeInMilliseconds(), q.GetUrl()) == q
    ensures q.GetMagnitude() == q'.GetMagnitude() && q.GetLocation() == q'.GetLocation()
         && q.GetTimeInMilliseconds() == q'.GetTimeInMilliseconds() && q.GetUrl() == q'.GetUrl()
         ==> q == q'
  {
  }
}
