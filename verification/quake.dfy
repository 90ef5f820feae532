/** The `Earthquake` value record. */
module Quake {
  import opened Json

  /**
   * One seismic event. The Java class has four private fields assigned once in
   * its constructor and read back by `getMagnitude`, `getLocation`,
   * `getTimeInMilliseconds` and `getUrl`; a datatype is immutable in the same
   * way, and its destructors are those getters.
   */
  datatype Earthquake = Earthquake(
    magnitude: real,
    location: string,
    timeInMilliseconds: Long,
    url: string)

  /** Each getter returns exactly the value given to the constructor. */
  lemma GettersReturnConstructorArguments(magnitude: real, location: string, time: Long, url: string)
    ensures Earthquake(magnitude, location, time, url).magnitude == magnitude
    ensures Earthquake(magnitude, location, time, url).location == location
    ensures Earthquake(magnitude, location, time, url).timeInMilliseconds == time
    ensures Earthquake(magnitude, location, time, url).url == url
  {
  }

  /** Two records are the same exactly when all four getters agree. */
  lemma RecordDeterminedByGetters(a: Earthquake, b: Earthquake)
    requires a.magnitude == b.magnitude && a.location == b.location
    requires a.timeInMilliseconds == b.timeInMilliseconds && a.url == b.url
    ensures a == b
  {
  }
}
