/**
 * The overlap test of `is_time_conflict` (app.py:23-32) and the invariant
 * it exists to keep: no two bookings on one date whose time ranges
 * satisfy it. Times are the stored times of day, so a booking whose end
 * wrapped past midnight has `endTime <= startTime`; nothing here assumes
 * otherwise.
 */
module Conflict {
  import opened Models

  /** The comparison at app.py:30: the new range starts before the old ends and ends after it starts. */
  predicate Overlaps(newStart: int, newEnd: int, oldStart: int, oldEnd: int)
  {
    newStart < oldEnd && newEnd > oldStart
  }

  /** Some stored booking on `date` overlaps the range `[start, end)`. */
  predicate SlotConflicts(bs: seq<Booking>, date: Date, start: int, end: int)
  {
    exists i :: 0 <= i < |bs| && bs[i].date == date && Overlaps(start, end, bs[i].startTime, bs[i].endTime)
  }

  /** The store invariant: no two bookings on one date overlap. */
  ghost predicate NoDoubleBooking(bs: seq<Booking>)
  {
    forall i, j :: 0 <= i < |bs| && 0 <= j < |bs| && i != j && bs[i].date == bs[j].date ==>
      !Overlaps(bs[i].startTime, bs[i].endTime, bs[j].startTime, bs[j].endTime)
  }

  /** The test does not depend on which range is the new one. */
  lemma OverlapsSymmetric(s1: int, e1: int, s2: int, e2: int)
    ensures Overlaps(s1, e1, s2, e2) <==> Overlaps(s2, e2, s1, e1)
  {
  }

  /** Ranges are half-open: one that ends when the other starts does not overlap it. */
  lemma AbuttingRangesDoNotOverlap(s1: int, e1: int, s2: int, e2: int)
    requires e1 == s2 || e2 == s1
    ensures !Overlaps(s1, e1, s2, e2)
  {
  }

  /** Bookings on other dates never block a slot. */
  lemma OtherDatesNeverConflict(bs: seq<Booking>, date: Date, start: int, end: int)
    requires forall i :: 0 <= i < |bs| ==> bs[i].date != date
    ensures !SlotConflicts(bs, date, start, end)
  {
  }

  /**
   * Appending a booking the check let through keeps the invariant; this is
   * why checking the new slot against the stored ones is enough.
   */
  lemma {:induction false} AppendKeepsNoDoubleBooking(bs: seq<Booking>, b: Booking)
    requires NoDoubleBooking(bs)
    requires !SlotConflicts(bs, b.date, b.startTime, b.endTime)
    ensures NoDoubleBooking(bs + [b])
  {
    var bs' := bs + [b];
    forall i, j | 0 <= i < |bs'| && 0 <= j < |bs'| && i != j && bs'[i].date == bs'[j].date
      ensures !Overlaps(bs'[i].startTime, bs'[i].endTime, bs'[j].startTime, bs'[j].endTime)
    {
      if j == |bs| {
        assert bs'[i] == bs[i];
        OverlapsSymmetric(bs[i].startTime, bs[i].endTime, b.startTime, b.endTime);
      } else if i == |bs| {
        assert bs'[j] == bs[j];
      } else {
        assert bs'[i] == bs[i] && bs'[j] == bs[j];
      }
    }
  }

  /**
   * A booking whose end wrapped to midnight or later blocks almost nothing:
   * 22:00 for two hours is stored as [22:00, 00:00), and 22:30 for one hour
   * on the same date is then not reported as a conflict.
   */
  lemma MidnightWrapLetsOverlapThrough(date: Date, b: Booking)
    requires b.date == date && b.startTime == 22 * 60 && b.endTime == 0
    ensures !SlotConflicts([b], date, 22 * 60 + 30, 23 * 60 + 30)
  {
  }
}
