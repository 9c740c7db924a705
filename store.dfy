/**
 * The bookings table and the three operations of app.py that use it:
 * `book` (with `is_time_conflict` and `generate_reference`), the admin
 * listing and `confirm_booking`. The table is a sequence of rows that the
 * operations read and replace; `MIN_HOURS` and `PRICE_PER_HOUR` come from
 * configuration and are fixed when the store is created.
 */
module BookingStore {
  import opened Wrappers
  import opened Models
  import opened Reference
  import opened Conflict
  import opened Listing
  import opened Lifecycle

  class Store {
    const minHours: int
    const pricePerHour: int
    var bookings: seq<Booking>

    /** The table invariant kept by every operation. */
    ghost predicate Valid()
      reads this
    {
      TableInvariant(bookings, minHours, pricePerHour)
    }

    constructor (minHours: int, pricePerHour: int)
      ensures Valid()
      ensures this.minHours == minHours && this.pricePerHour == pricePerHour
      ensures bookings == []
    {
      this.minHours := minHours;
      this.pricePerHour := pricePerHour;
      bookings := [];
    }

    /** `is_time_conflict` (app.py:23-32): read-only, stops at the first overlapping booking on `date`. */
    method IsTimeConflict(date: Date, start: Minute, end: Minute) returns (conflict: bool)
      ensures conflict <==> exists i :: 0 <= i < |bookings| && bookings[i].date == date
                                        && start < bookings[i].endTime && end > bookings[i].startTime
    {
      var i := 0;
      while i < |bookings|
        invariant 0 <= i <= |bookings|
        invariant !SlotConflicts(bookings[..i], date, start, end)
      {
        var b := bookings[i];
        if b.date == date && start < b.endTime && end > b.startTime {
          return true;
        }
        assert bookings[..i + 1] == bookings[..i] + [b];
        i := i + 1;
      }
      assert bookings[..i] == bookings;
      return false;
    }

    /**
     * `generate_reference` (app.py:16-21): try each draw in turn and return
     * the first candidate no stored row has. None means every draw collided.
     */
    method GenerateReference(draws: seq<Draw>) returns (reference: Option<string>)
      requires forall k :: 0 <= k < |draws| ==> ValidDraw(draws[k])
      ensures reference == FirstFresh(References(bookings), draws)
      ensures reference.Some? ==> reference.value !in References(bookings) && IsReferenceShape(reference.value)
    {
      var refs := References(bookings);
      var i := 0;
      while i < |draws|
        invariant 0 <= i <= |draws|
        invariant FirstFresh(refs, draws[i..]) == FirstFresh(refs, draws)
      {
        var candidate := Candidate(draws[i]);
        if candidate !in refs {
          return Some(candidate);
        }
        assert draws[i..][1..] == draws[i + 1..];
        i := i + 1;
      }
      return None;
    }

    /** `book` (app.py:36-96) on a parsed request, with the clock readings and random draws supplied. */
    method Book(req: BookingRequest, draws: seq<Draw>, createdAt: Timestamp) returns (res: Result<Booking, BookError>)
      requires Valid()
      requires forall k :: 0 <= k < |draws| ==> ValidDraw(draws[k])
      modifies this
      ensures Valid()
      ensures res == BookOutcome(old(bookings), minHours, pricePerHour, req, draws, createdAt)
      ensures res.Ok? ==> bookings == old(bookings) + [res.value]
      ensures res.Err? ==> bookings == old(bookings)
    {
      var checked := Validate(req, minHours);
      if checked.Err? {
        return Err(checked.error);
      }
      var v := checked.value;
      var end := EndTime(v.startTime, v.hours);
      var conflict := IsTimeConflict(v.date, v.startTime, end);
      if conflict {
        return Err(SlotTaken);
      }
      var reference := GenerateReference(draws);
      if reference.None? {
        return Err(NoFreshReference);
      }
      var b := NewBooking(|bookings| + 1, v, pricePerHour, reference.value, createdAt);
      BookKeepsTableInvariant(bookings, minHours, pricePerHour, req, draws, createdAt);
      bookings := bookings + [b];
      return Ok(b);
    }

    /** The admin listing (app.py:105): every row, ordered by date then start time. */
    function ViewBookings(): (listing: seq<Booking>)
      reads this
      ensures SortedByKey(listing)
      ensures multiset(listing) == multiset(bookings)
    {
      SortByKey(bookings)
    }

    /**
     * `confirm_booking` (app.py:126-131): find the row with `reference`; if
     * there is one, set its status to Confirmed.
     */
    method ConfirmBooking(reference: string) returns (found: bool)
      requires Valid()
      modifies this
      ensures Valid()
      ensures found <==> reference in References(old(bookings))
      ensures bookings == WithConfirmed(old(bookings), reference)
    {
      found := reference in References(bookings);
      if !found {
        ConfirmUnknownIsNoop(bookings, reference);
        return;
      }
      var k :| 0 <= k < |bookings| && bookings[k].reference == reference;
      ConfirmFoundRow(bookings, reference, k);
      ConfirmKeepsTableInvariant(bookings, reference, minHours, pricePerHour);
      bookings := bookings[k := bookings[k].(status := Confirmed)];
    }
  }
}
