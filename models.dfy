/**
 * The persisted Booking record of models.py, with the clock value the
 * store and the reference generator read, and the store-wide facts that
 * the record's column constraints promise (unique primary key, unique
 * reference).
 */
module Models {

  /** Times of day are minutes since midnight; `%H:%M` parsing leaves seconds at zero. */
  const MinutesPerDay: int := 1440
  const MinutesPerHour: int := 60

  type Minute = m: int | 0 <= m < 1440

  /** A calendar date as produced by parsing `%Y-%m-%d`. */
  datatype Date = Date(year: int, month: int, day: int)

  /** A UTC clock reading, as `datetime.utcnow()` returns it. */
  datatype Timestamp = Timestamp(year: int, month: int, day: int,
                                 hour: int, minute: int, second: int, microsecond: int)

  /** The ranges a `datetime` value always lies in. */
  predicate ValidTimestamp(t: Timestamp)
  {
    && 1 <= t.year <= 9999 && 1 <= t.month <= 12 && 1 <= t.day <= 31
    && 0 <= t.hour < 24 && 0 <= t.minute < 60
    && 0 <= t.second < 60 && 0 <= t.microsecond < 1000000
  }

  /** The only two status values the application ever writes. */
  datatype Status = Pending | Confirmed

  /**
   * One row of the bookings table. Every column the table declares
   * non-nullable is a plain (never absent) field here; `status` has no
   * NOT NULL constraint but every insert and update writes one of the two
   * values, so it is never absent either.
   */
  datatype Booking = Booking(
    id: nat,
    name: string,
    phone: string,
    date: Date,
    startTime: Minute,
    endTime: Minute,
    hours: int,
    price: int,
    reference: string,
    status: Status,
    createdAt: Timestamp)

  /** The references present in the table. */
  function References(bs: seq<Booking>): (refs: set<string>)
    ensures forall i :: 0 <= i < |bs| ==> bs[i].reference in refs
    ensures forall r :: r in refs ==> exists i :: 0 <= i < |bs| && bs[i].reference == r
  {
    set i | 0 <= i < |bs| :: bs[i].reference
  }

  /** The `unique=True` constraint on the reference column. */
  ghost predicate UniqueReferences(bs: seq<Booking>)
  {
    forall i, j :: 0 <= i < |bs| && 0 <= j < |bs| && bs[i].reference == bs[j].reference ==> i == j
  }

  /**
   * The integer primary key as SQLite assigns it to a table that is never
   * deleted from: one more than the largest key so far, so row k holds k + 1.
   */
  ghost predicate IdsAssigned(bs: seq<Booking>)
  {
    forall i :: 0 <= i < |bs| ==> bs[i].id == i + 1
  }
}
