# Football pitch booking core, modelled in Dafny

This project models the booking core of a small Flask service that takes
reservations for a single football pitch. The bookings table holds one row
per reservation. Three operations use it:

- `book` reads a request and validates it. It computes the end time and the
  price, refuses a slot that overlaps a booking on the same date, and draws a
  reference `FP-<yyyymmdd>-<hhmm>-<XXXX>` that no stored row has yet. It then
  inserts a `Pending` row.
- `confirm_booking` looks a row up by reference and sets its status to
  `Confirmed`.
- The admin listing returns every row ordered by date, then start time.

Files and modules:

- `wrappers.dfy` (`Wrappers`): `Option` and `Result`.
- `models.dfy` (`Models`): the `Booking` record of `models.py` and the
  clock reading. It also has the table-wide facts the columns promise: the
  reference is unique, and the primary key is assigned by the store.
- `reference.dfy` (`Reference`): the reference format, its decimal padding
  and the fact that padding can be read back. Two attempts yield the same
  reference only when they read the same clock minute and drew the same
  characters. `FirstFresh` is what the retry loop returns.
- `conflict.dfy` (`Conflict`): the overlap test and the store invariant that
  no two bookings on one date overlap.
- `listing.dfy` (`Listing`): the listing order, as a sorted permutation.
- `lifecycle.dfy` (`Lifecycle`): request validation, the end time, and
  `BookOutcome`, which is what `book` answers for a given table. It also holds
  the effect of a confirmation, the table invariant, the lemmas that every
  operation keeps that invariant, and a three-request walk-through.
- `store.dfy` (`BookingStore`): class `Store`. Its `bookings` field is the
  table. `IsTimeConflict` and `GenerateReference` are the source's loops.
  `Book` and `ConfirmBooking` replace the table. `ViewBookings` is the
  listing.

Modelling choices:

- A time of day is a count of minutes since midnight, from 0 to 1439. The end
  time is `(start + 60*hours) mod 1440`, because app.py:58 keeps only the time
  of day. A booking of at most 24 hours that runs past midnight is therefore
  stored with `endTime <= startTime`; a longer one may end after its start.
  Nothing in the model assumes `start < end`.
- Dafny's `%` never returns a negative result. This matches Python's
  `datetime` arithmetic for negative hours, which the configuration may allow.
- `MIN_HOURS` and `PRICE_PER_HOUR` are the constants `minHours` and
  `pricePerHour` of a `Store`.
- The clock and `random.choices` are inputs. Each attempt of the retry loop
  is a `Draw` made of a clock reading and four characters.
- `created_at` is a parameter of `Book`.
- The primary key is row index + 1. SQLite assigns keys this way to a table
  that is never deleted from.

Where the code differs from what its API suggests, the model follows the code:

- Empty names and phones are accepted.
- There is no field aliasing (`fullName`, `startTime`, `duration`).
- No digits are extracted from strings such as "2 hours".
- A non-integer `hours` makes `int()` raise an exception that nothing catches
  (`HoursNotInteger`), not a format error.
- The duration minimum is checked before the date and time formats.
- End times wrap past midnight.
- Confirming an already confirmed booking succeeds again and leaves the table
  unchanged.

The overlap test compares wrapped times of day. So a booking that ends at or
after midnight blocks almost nothing. Take 22:00 for two hours: it is stored
as [22:00, 00:00). Booking 22:30 for one hour on the same date then passes the
check (`Conflict.MidnightWrapLetsOverlapThrough`). The pairwise invariant "no
two same-date rows satisfy the overlap test" still holds, and it is proved.

The generated reference is 21 characters long, and `models.py:13` declares
the column as 20 characters. SQLite does not enforce that length, so the model
states the 21-character shape and no length bound on the column.

## Model

| member | source | states |
|---|---|---|
| `Models.Booking` | models.py:4-15 | the record: every column declared non-nullable is a field that is always present; `status` is one of Pending and Confirmed |
| `Models.UniqueReferences` | models.py:13 | no two rows carry the same reference |
| `Models.IdsAssigned` | models.py:5 | the primary key of row k is k + 1, assigned by the store |
| `Conflict.Overlaps` | app.py:30 | the new range starts before the stored one ends and ends after it starts |
| `Conflict.SlotConflicts` | app.py:23-32 | some stored booking on the date overlaps the range |
| `Conflict.NoDoubleBooking` | app.py:60-61 | no two distinct rows on one date overlap |
| `Lifecycle.TableInvariant` | models.py:5-13 | keys assigned in order, unique references, no double booking, and every row has hours at least MIN_HOURS, the derived end time and price, and the reference shape |
| `Lifecycle.NewBooking` | app.py:67-77 | the row built from the validated request: next key, wrapped end time, hourly price times hours, the drawn reference, status Pending |
| `Lifecycle.BookOutcome` | app.py:38-79 | the answer of `book` for a table: the validation error, else "slot taken" on conflict, else "no fresh reference" when the attempts run out, else the new row |
| `Conflict.OverlapsSymmetric` | app.py:30 | swapping the new and the stored range gives the same overlap answer, so checking the new booking against each stored one covers both directions |
| `Conflict.AbuttingRangesDoNotOverlap` | app.py:30 | ranges are half-open: a range that ends exactly when the other starts does not overlap it |
| `Conflict.OtherDatesNeverConflict` | app.py:24 | bookings on other dates never make a slot conflict |
| `Conflict.AppendKeepsNoDoubleBooking` | app.py:60-61 | appending a booking whose slot passed the conflict check keeps "no two same-date bookings overlap" |
| `Conflict.MidnightWrapLetsOverlapThrough` | app.py:56-61 | a stored booking 22:00-00:00 (wrapped end) does not block 22:30-23:30 on the same date |
| `BookingStore.Store.IsTimeConflict` | app.py:23-32 | returns true exactly when some stored booking on that date has `start < its end` and `end > its start`; reads the table and changes nothing |
| `Models.References` | app.py:20 | a string is a stored reference exactly when some row carries it |
| `Reference.PadDigits` | app.py:19 | zero-padded decimal text of a number has exactly the requested width and only digits |
| `Reference.DigitsRoundTrip` | app.py:19 | reading back the padded text gives the original number |
| `Reference.Stamp` | app.py:19 | `%Y%m%d-%H%M` is 13 characters: year, month and day digits, a dash at position 8, then hour and minute digits |
| `Reference.Candidate` | app.py:18-19 | every candidate is 21 characters: `FP-`, 8 digits, `-`, 4 digits, `-`, 4 characters from A-Z0-9 |
| `Reference.CandidateFields` | app.py:18-19 | each clock field and the random code sit at fixed positions of the candidate |
| `Reference.CandidateInjective` | app.py:18-19 | two attempts give the same candidate only if they read the same clock minute and drew the same four characters |
| `Reference.FirstFresh` | app.py:16-21 | the loop's result is not a stored reference and has the reference shape; it is absent exactly when every attempt collides |
| `Reference.AllCollideSplit` | app.py:17-21 | all attempts collide exactly when the first one does and all later ones do |
| `Reference.Attempts` | app.py:17-21 | the number of colliding attempts before a fresh one is at most the number of attempts |
| `Reference.FirstFreshIsEarliestFreshDraw` | app.py:16-21 | the result is the candidate of the first fresh attempt; every earlier attempt collided |
| `BookingStore.Store.GenerateReference` | app.py:16-21 | the retry loop returns `FirstFresh` of the stored references: a fresh reference of the right shape, or none when the attempts run out |
| `Lifecycle.Validate` | app.py:38-54 | accepts exactly when name, phone, date and start time are present, the date and time parse, `hours` is an integer or absent, and the hours (1 when absent) are at least MIN_HOURS; a missing key gives missing fields; with the keys present, a non-integer `hours` gives the uncaught `int()` error, hours (given or the default 1) below MIN_HOURS give below-minimum, and otherwise an unparseable date or time gives invalid format |
| `Lifecycle.BelowMinimumIsRefused` | app.py:47-48 | an integer duration below MIN_HOURS is refused as below the minimum, even when the date or time is malformed |
| `Lifecycle.EndTime` | app.py:56-58 | the end time is `start + 60*hours` modulo a day; it equals `start + 60*hours` when that stays within the day |
| `Lifecycle.EndTimeWrapsPastMidnight` | app.py:56-58 | a booking of at most 24 hours that runs past midnight is stored with an end time no later than its start |
| `Lifecycle.BookedRow` | app.py:63-77 | a created row has the next key and the request's fields; hours default to 1 and are at least MIN_HOURS; it has the wrapped end time, price = PRICE_PER_HOUR * hours, a reference not yet stored, status Pending, and a slot that does not conflict |
| `Lifecycle.BookRefusals` | app.py:38-65 | a validation error is returned as is; "slot taken" is returned exactly when the validated slot conflicts; "no fresh reference" only when every attempt collided |
| `Lifecycle.InsertKeepsTableInvariant` | app.py:60-79 | inserting a well-formed row with the next key, a fresh reference and a non-conflicting slot keeps the table invariant (keys, unique references, no double booking, derived end time and price) |
| `Lifecycle.BookKeepsTableInvariant` | app.py:36-79 | every successful booking keeps the table invariant, so any run of bookings does |
| `Lifecycle.ScenarioFirstBookingAccepted` | app.py:43-79 | 10:00 for two hours on an empty table is accepted, ends at 12:00 and costs twice the hourly price |
| `Lifecycle.ScenarioOverlapRefused` | app.py:60-61 | after that, 11:00 for one hour on the same date is refused as taken |
| `Lifecycle.ScenarioAbuttingAccepted` | app.py:43-79 | 12:00 with no `hours` is accepted for one hour, 12:00-13:00, next to 10:00-12:00 |
| `BookingStore.Store.Book` | app.py:36-96 | the answer is `BookOutcome` of the old table; on success exactly that row is appended and no earlier row changes; on any error the table is unchanged; the table invariant is kept |
| `Lifecycle.WithConfirmed` | app.py:126-131 | same length; the row with the reference has status Confirmed and all other fields unchanged; every other row is unchanged |
| `Lifecycle.ConfirmUnknownIsNoop` | app.py:126-128 | confirming a reference that is not stored leaves the table unchanged |
| `Lifecycle.ConfirmIdempotent` | app.py:126-131 | confirming twice gives the same table as confirming once |
| `Lifecycle.ConfirmOnlyAdvancesStatus` | app.py:130 | a confirmation changes no field other than status, and a Confirmed status stays Confirmed |
| `Lifecycle.ConfirmFoundRow` | app.py:126-130 | because references are unique, updating the one row the lookup finds is the same as confirming by reference |
| `Lifecycle.ConfirmKeepsTableInvariant` | app.py:130-131 | a confirmation keeps the table invariant |
| `BookingStore.Store.ConfirmBooking` | app.py:126-131 | reports found exactly when the reference is stored; the new table is `WithConfirmed` of the old one; the invariant is kept |
| `Listing.Insert` | app.py:105 | inserting into an ordered listing keeps it ordered by (date, start time) and adds exactly that row |
| `Listing.SortByKey` | app.py:105 | the listing is ordered by (date, start time) and is a permutation of the table |
| `Listing.ListedIfStored` | app.py:105-117 | every stored booking appears in the listing with all its fields |
| `BookingStore.Store.ViewBookings` | app.py:105-118 | the admin listing is the stored rows, as a permutation, ordered by date then start time |

## Left out

- HTTP handling is not modelled: routing, `request.get_json`, `jsonify`, status codes, `/ping` and `app.run`. Outcomes are `Result` values, and confirmation is a `found` flag.
- The `X-ADMIN-PASSWORD` checks of app.py:101-103 and app.py:122-124 are not modelled. They are a fixed-secret equality test.
- The database is not modelled: SQLAlchemy sessions, `commit`, `init_db` and `database.py`. The table is a sequence of rows held by the `Store`.
- `strptime` and `strftime` are not modelled. The request carries an already parsed date and minute, or a marker that parsing failed. The responses' text formatting is not modelled either.
- A JSON `null` (or otherwise unusable) `name` or `phone` is not modelled. The source raises no `KeyError` for it; the request goes through every check and fails at `commit` (app.py:79) on the NOT NULL columns of models.py:6-7 with an uncaught `IntegrityError`. The model has only "absent", answered with `MissingFields`.
- A date or time that is not a string makes `strptime` raise `TypeError`, which nothing catches. The model only has "absent", "malformed" and "parsed". It also does not model a body that is not a JSON object.
- `int()` coercion of `hours` is not modelled. The request carries the integer `int()` would return, such as 2 for `2.7` or `"2"`. Values `int()` rejects are `Malformed`, answered with `HoursNotInteger`.
- An `OverflowError` from a huge `hours` or a date at the edge of the `datetime` range is not modelled.
- `random.choices` and `datetime.utcnow()` are not modelled; they are supplied as `Draw` values. The source loops forever while every attempt collides. The model stops when the supplied attempts run out and answers `NoFreshReference`.
- `%Y` is modelled as zero-padded to four digits. The C library pads years below 1000 differently; such a clock reading is not realistic.
- `created_at` is not read from the clock; `Book` takes it as a parameter.
- Concurrent requests are not modelled. The model is single-threaded, so it has no race between the conflict check and the insert, nor between the reference check and the insert.
- The payment-details literals of app.py:90-94 are not modelled. They are constant display data.
- The values of `ADMIN_PASSWORD`, `PRICE_PER_HOUR` and `MIN_HOURS` are not modelled. `config.py` is not part of this model, so the last two are parameters of the store.
- Column length limits (`String(100)`, `String(20)`) are not modelled. SQLite does not enforce them.
- The order of rows with equal date and start time is not modelled. The database leaves it unspecified; the model lists the later-stored of such rows first.
- The admin listing returns whole rows; the response's field selection and formatting are not modelled.
