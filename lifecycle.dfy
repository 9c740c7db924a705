/**
 * The pure parts of `book` and `confirm_booking`: reading the request
 * (app.py:38-54), the end time and the price (app.py:56-63), the record a
 * successful booking inserts (app.py:67-77), and the effect of a
 * confirmation on the table (app.py:126-131).
 */
module Lifecycle {
  import opened Wrappers
  import opened Models
  import opened Conflict
  import opened Reference

  /** A field of the JSON body: missing, present but unparseable, or parsed. */
  datatype Field<+T> = Absent | Malformed | Given(value: T)

  /**
   * The request body after parsing. `date` and `startTime` carry the result
   * of `strptime`; `hours` carries the result of `int(...)`.
   */
  datatype BookingRequest = BookingRequest(
    name: Option<string>,
    phone: Option<string>,
    date: Field<Date>,
    startTime: Field<Minute>,
    hours: Field<int>)

  /** The outcomes of `book` other than success. */
  datatype BookError =
    | MissingFields        // KeyError, 400
    | HoursNotInteger      // int() raises ValueError, which nothing catches
    | BelowMinimum         // hours < MIN_HOURS, 400
    | InvalidFormat        // strptime raises ValueError, 400
    | SlotTaken            // is_time_conflict, 400
    | NoFreshReference     // every supplied draw collided; the source would keep drawing

  /** The request fields once every check at app.py:38-54 has passed. */
  datatype ValidRequest = ValidRequest(name: string, phone: string, date: Date, startTime: Minute, hours: int)

  /** Hours when the body has no `hours` key (`data.get('hours', 1)`). */
  const DefaultHours: int := 1

  /** No `KeyError` at app.py:39-42: the four required keys are in the body. */
  predicate KeysPresent(req: BookingRequest)
  {
    req.name.Some? && req.phone.Some? && !req.date.Absent? && !req.startTime.Absent?
  }

  /** The hours app.py:43 reads when `int()` succeeds: the given value, or 1 when the key is absent. */
  function RequestedHours(req: BookingRequest): int
    requires !req.hours.Malformed?
  {
    if req.hours.Given? then req.hours.value else DefaultHours
  }

  /** The checks of app.py:38-54, in the order the source makes them. */
  function Validate(req: BookingRequest, minHours: int): (r: Result<ValidRequest, BookError>)
    ensures r.Ok? <==>
      && req.name.Some? && req.phone.Some? && req.date.Given? && req.startTime.Given?
      && (req.hours.Absent? || req.hours.Given?)
      && (if req.hours.Given? then req.hours.value else DefaultHours) >= minHours
    ensures KeysPresent(req) && req.hours.Malformed? ==> r == Err(HoursNotInteger)
    ensures KeysPresent(req) && !req.hours.Malformed? && RequestedHours(req) < minHours ==>
              r == Err(BelowMinimum)
    ensures (KeysPresent(req) && !req.hours.Malformed? && RequestedHours(req) >= minHours
             && (req.date.Malformed? || req.startTime.Malformed?)) ==> r == Err(InvalidFormat)
    ensures r.Ok? ==> r.value.name == req.name.value && r.value.phone == req.phone.value
                      && r.value.date == req.date.value && r.value.startTime == req.startTime.value
                      && r.value.hours >= minHours
    ensures r.Ok? && req.hours.Absent? ==> r.value.hours == DefaultHours
    ensures r.Ok? && req.hours.Given? ==> r.value.hours == req.hours.value
    ensures req.name.None? || req.phone.None? || req.date.Absent? || req.startTime.Absent? ==>
              r == Err(MissingFields)
  {
    if req.name.None? || req.phone.None? || req.date.Absent? || req.startTime.Absent? then
      Err(MissingFields)
    else if req.hours.Malformed? then
      Err(HoursNotInteger)
    else
      var hours := if req.hours.Given? then req.hours.value else DefaultHours;
      if hours < minHours then Err(BelowMinimum)
      else if req.date.Malformed? || req.startTime.Malformed? then Err(InvalidFormat)
      else Ok(ValidRequest(req.name.value, req.phone.value, req.date.value, req.startTime.value, hours))
  }

  /**
   * A duration below the minimum is refused before the date and time are
   * even looked at, whatever else the body holds.
   */
  lemma BelowMinimumIsRefused(req: BookingRequest, minHours: int)
    requires req.name.Some? && req.phone.Some? && !req.date.Absent? && !req.startTime.Absent?
    requires req.hours.Given? && req.hours.value < minHours
    ensures Validate(req, minHours) == Err(BelowMinimum)
  {
  }

  /** The time of day `hours` after `start` (app.py:56-58): the day is dropped, so it wraps. */
  function EndTime(start: Minute, hours: int): (e: Minute)
    ensures (start + MinutesPerHour * hours - e) % MinutesPerDay == 0
    ensures 0 <= start + MinutesPerHour * hours < MinutesPerDay ==> e == start + MinutesPerHour * hours
  {
    (start + MinutesPerHour * hours) % MinutesPerDay
  }

  /** A booking that runs past midnight is stored with an end no later than its start. */
  lemma EndTimeWrapsPastMidnight(start: Minute, hours: int)
    requires 0 <= hours <= 24 && start + MinutesPerHour * hours >= MinutesPerDay
    ensures EndTime(start, hours) == start + MinutesPerHour * hours - MinutesPerDay
    ensures EndTime(start, hours) <= start
  {
  }

  /** The record app.py:67-77 builds: a derived end time, price and `Pending` status. */
  function NewBooking(id: nat, v: ValidRequest, pricePerHour: int, reference: string, createdAt: Timestamp): Booking
  {
    Booking(id, v.name, v.phone, v.date, v.startTime, EndTime(v.startTime, v.hours),
            v.hours, pricePerHour * v.hours, reference, Pending, createdAt)
  }

  /**
   * What `book` answers (app.py:38-79) for a table `bs`: the first refusal
   * among validation, conflict and reference generation, or the new row.
   */
  function BookOutcome(bs: seq<Booking>, minHours: int, pricePerHour: int, req: BookingRequest,
                       draws: seq<Draw>, createdAt: Timestamp): Result<Booking, BookError>
    requires forall k :: 0 <= k < |draws| ==> ValidDraw(draws[k])
  {
    match Validate(req, minHours)
    case Err(e) => Err(e)
    case Ok(v) =>
      if SlotConflicts(bs, v.date, v.startTime, EndTime(v.startTime, v.hours)) then Err(SlotTaken)
      else
        match FirstFresh(References(bs), draws)
        case None => Err(NoFreshReference)
        case Some(reference) => Ok(NewBooking(|bs| + 1, v, pricePerHour, reference, createdAt))
  }

  /**
   * The row a successful booking inserts: the next key, the request's
   * fields, an end time `hours` later modulo a day, the hourly price times
   * the hours, a reference not yet stored, and status Pending.
   */
  lemma BookedRow(bs: seq<Booking>, minHours: int, pricePerHour: int, req: BookingRequest,
                  draws: seq<Draw>, createdAt: Timestamp)
    requires forall k :: 0 <= k < |draws| ==> ValidDraw(draws[k])
    requires BookOutcome(bs, minHours, pricePerHour, req, draws, createdAt).Ok?
    ensures var b := BookOutcome(bs, minHours, pricePerHour, req, draws, createdAt).value;
      && b.id == |bs| + 1
      && req.name == Some(b.name) && req.phone == Some(b.phone) && req.date == Given(b.date)
      && req.startTime == Given(b.startTime)
      && b.hours == (if req.hours.Given? then req.hours.value else DefaultHours) && b.hours >= minHours
      && b.endTime == (b.startTime + MinutesPerHour * b.hours) % MinutesPerDay
      && b.price == pricePerHour * b.hours
      && b.status == Pending && b.createdAt == createdAt
      && b.reference !in References(bs) && IsReferenceShape(b.reference)
      && !SlotConflicts(bs, b.date, b.startTime, b.endTime)
  {
    var v := Validate(req, minHours).value;
    var reference := FirstFresh(References(bs), draws).value;
    assert BookOutcome(bs, minHours, pricePerHour, req, draws, createdAt)
        == Ok(NewBooking(|bs| + 1, v, pricePerHour, reference, createdAt));
  }

  /** Every refusal happens for the reason the source gives, checked in the source's order. */
  lemma BookRefusals(bs: seq<Booking>, minHours: int, pricePerHour: int, req: BookingRequest,
                     draws: seq<Draw>, createdAt: Timestamp)
    requires forall k :: 0 <= k < |draws| ==> ValidDraw(draws[k])
    ensures var r := BookOutcome(bs, minHours, pricePerHour, req, draws, createdAt);
      && (Validate(req, minHours).Err? ==> r == Err(Validate(req, minHours).error))
      && (r == Err(SlotTaken) <==>
            Validate(req, minHours).Ok? &&
            var v := Validate(req, minHours).value;
            SlotConflicts(bs, v.date, v.startTime, EndTime(v.startTime, v.hours)))
      && (r == Err(NoFreshReference) ==>
            forall k :: 0 <= k < |draws| ==> Candidate(draws[k]) in References(bs))
  {
  }

  /** The table after `booking.status = "Confirmed"` on the row whose reference is `reference`. */
  function WithConfirmed(bs: seq<Booking>, reference: string): (r: seq<Booking>)
    ensures |r| == |bs|
    ensures forall i :: 0 <= i < |bs| && bs[i].reference == reference ==> r[i] == bs[i].(status := Confirmed)
    ensures forall i :: 0 <= i < |bs| && bs[i].reference != reference ==> r[i] == bs[i]
  {
    if bs == [] then []
    else
      var head := if bs[0].reference == reference then bs[0].(status := Confirmed) else bs[0];
      var r := [head] + WithConfirmed(bs[1..], reference);
      assert forall i :: 1 <= i < |bs| ==> bs[i] == bs[1..][i - 1] && r[i] == WithConfirmed(bs[1..], reference)[i - 1];
      r
  }

  /** Confirming an unknown reference changes nothing (app.py:126-128). */
  lemma ConfirmUnknownIsNoop(bs: seq<Booking>, reference: string)
    requires reference !in References(bs)
    ensures WithConfirmed(bs, reference) == bs
  {
  }

  /** Confirming twice leaves the table as confirming once. */
  lemma ConfirmIdempotent(bs: seq<Booking>, reference: string)
    ensures WithConfirmed(WithConfirmed(bs, reference), reference) == WithConfirmed(bs, reference)
  {
  }

  /**
   * A confirmation changes no field but `status`, and a status only moves
   * from Pending to Confirmed.
   */
  lemma ConfirmOnlyAdvancesStatus(bs: seq<Booking>, reference: string, i: int)
    requires 0 <= i < |bs|
    ensures WithConfirmed(bs, reference)[i] == bs[i].(status := WithConfirmed(bs, reference)[i].status)
    ensures bs[i].status == Confirmed ==> WithConfirmed(bs, reference)[i].status == Confirmed
  {
  }

  /** Confirming the row the lookup found is the same as confirming by reference, references being unique. */
  lemma ConfirmFoundRow(bs: seq<Booking>, reference: string, k: int)
    requires UniqueReferences(bs)
    requires 0 <= k < |bs| && bs[k].reference == reference
    ensures bs[k := bs[k].(status := Confirmed)] == WithConfirmed(bs, reference)
  {
  }

  /** What every row written by `book` satisfies, given MIN_HOURS and PRICE_PER_HOUR. */
  ghost predicate WellFormed(b: Booking, minHours: int, pricePerHour: int)
  {
    && b.hours >= minHours
    && b.endTime == EndTime(b.startTime, b.hours)
    && b.price == pricePerHour * b.hours
    && IsReferenceShape(b.reference)
  }

  /** The table invariant: keys assigned in order, unique references, no double booking, well-formed rows. */
  ghost predicate TableInvariant(bs: seq<Booking>, minHours: int, pricePerHour: int)
  {
    && IdsAssigned(bs)
    && UniqueReferences(bs)
    && NoDoubleBooking(bs)
    && forall i :: 0 <= i < |bs| ==> WellFormed(bs[i], minHours, pricePerHour)
  }

  /**
   * Inserting a well-formed row with the next key, a fresh reference and a
   * slot the conflict check let through keeps the table invariant.
   */
  lemma {:induction false} InsertKeepsTableInvariant(bs: seq<Booking>, b: Booking, minHours: int, pricePerHour: int)
    requires TableInvariant(bs, minHours, pricePerHour)
    requires WellFormed(b, minHours, pricePerHour) && b.id == |bs| + 1
    requires b.reference !in References(bs)
    requires !SlotConflicts(bs, b.date, b.startTime, b.endTime)
    ensures TableInvariant(bs + [b], minHours, pricePerHour)
  {
    var bs' := bs + [b];
    AppendKeepsNoDoubleBooking(bs, b);
    forall i | 0 <= i < |bs'| ensures bs'[i].id == i + 1 && WellFormed(bs'[i], minHours, pricePerHour) {
      if i < |bs| { assert bs'[i] == bs[i]; }
    }
    forall i, j | 0 <= i < |bs'| && 0 <= j < |bs'| && bs'[i].reference == bs'[j].reference ensures i == j {
      if i < |bs| && j < |bs| {
        assert bs'[i] == bs[i] && bs'[j] == bs[j];
      }
    }
  }

  /** The date and the two attempts of the walk-through below. */
  const ScenarioDay: Date := Date(2025, 6, 1)

  function ScenarioRequest(name: string, start: Minute, hours: Field<int>): BookingRequest
  {
    BookingRequest(Some(name), Some("0800"), Given(ScenarioDay), Given(start), hours)
  }

  /** With MIN_HOURS at most one, 10:00 for two hours on an empty table is accepted and ends at 12:00. */
  lemma ScenarioFirstBookingAccepted(minHours: int, pricePerHour: int, now: Timestamp)
    requires minHours <= 1 && ValidTimestamp(now)
    ensures var r := BookOutcome([], minHours, pricePerHour, ScenarioRequest("Ada", 10 * 60, Given(2)),
                                 [Draw(now, "AAAA")], now);
            r.Ok? && r.value.date == ScenarioDay && r.value.startTime == 10 * 60 && r.value.endTime == 12 * 60
            && r.value.price == 2 * pricePerHour && r.value.reference == Candidate(Draw(now, "AAAA"))
  {
    var d := Draw(now, "AAAA");
    assert ValidDraw(d);
    assert FirstFresh(References([]), [d]) == Some(Candidate(d));
  }

  /** Then 11:00 for one hour overlaps 10:00-12:00 and is refused. */
  lemma ScenarioOverlapRefused(minHours: int, pricePerHour: int, now: Timestamp, first: Booking)
    requires minHours <= 1 && ValidTimestamp(now)
    requires first.date == ScenarioDay && first.startTime == 10 * 60 && first.endTime == 12 * 60
    ensures BookOutcome([first], minHours, pricePerHour, ScenarioRequest("Bo", 11 * 60, Given(1)),
                        [Draw(now, "AAAB")], now) == Err(SlotTaken)
  {
    assert ValidDraw(Draw(now, "AAAB"));
    assert [first][0] == first;
    assert SlotConflicts([first], ScenarioDay, 11 * 60, 12 * 60);
  }

  /** Then 12:00 with no `hours` (one hour) only touches 10:00-12:00 and is accepted. */
  lemma ScenarioAbuttingAccepted(minHours: int, pricePerHour: int, now: Timestamp, first: Booking)
    requires minHours <= 1 && ValidTimestamp(now)
    requires first.date == ScenarioDay && first.startTime == 10 * 60 && first.endTime == 12 * 60
    requires first.reference == Candidate(Draw(now, "AAAA"))
    ensures var r := BookOutcome([first], minHours, pricePerHour, ScenarioRequest("Cy", 12 * 60, Absent),
                                 [Draw(now, "AAAB")], now);
            r.Ok? && r.value.hours == 1 && r.value.startTime == 12 * 60 && r.value.endTime == 13 * 60
  {
    var d1, d2 := Draw(now, "AAAA"), Draw(now, "AAAB");
    assert ValidDraw(d1) && ValidDraw(d2);
    assert Candidate(d2) !in References([first]) by {
      if Candidate(d2) == Candidate(d1) {
        CandidateInjective(d2, d1);
      }
    }
    assert FirstFresh(References([first]), [d2]) == Some(Candidate(d2));
  }

  /** A successful booking keeps the table invariant, so any run of bookings does. */
  lemma BookKeepsTableInvariant(bs: seq<Booking>, minHours: int, pricePerHour: int, req: BookingRequest,
                                draws: seq<Draw>, createdAt: Timestamp)
    requires forall k :: 0 <= k < |draws| ==> ValidDraw(draws[k])
    requires TableInvariant(bs, minHours, pricePerHour)
    requires BookOutcome(bs, minHours, pricePerHour, req, draws, createdAt).Ok?
    ensures TableInvariant(bs + [BookOutcome(bs, minHours, pricePerHour, req, draws, createdAt).value],
                           minHours, pricePerHour)
  {
    var b := BookOutcome(bs, minHours, pricePerHour, req, draws, createdAt).value;
    BookedRow(bs, minHours, pricePerHour, req, draws, createdAt);
    InsertKeepsTableInvariant(bs, b, minHours, pricePerHour);
  }

  /** A confirmation keeps the table invariant: slots, references, keys and amounts are untouched. */
  lemma ConfirmKeepsTableInvariant(bs: seq<Booking>, reference: string, minHours: int, pricePerHour: int)
    requires TableInvariant(bs, minHours, pricePerHour)
    ensures TableInvariant(WithConfirmed(bs, reference), minHours, pricePerHour)
  {
  }
}
