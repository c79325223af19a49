# Popcorn Palace booking core in Dafny

Popcorn Palace is a movie-theater booking service. This project models its two
services that hold the business rules:

- **Showtimes** (`src/showtimes/showtimes.service.ts`). Creating a showtime checks
  that the movie exists, that the start is before the end, and that no showtime
  in the same theater overlaps the half-open window `[start, end)`. An update
  merges the supplied fields over the stored row. It checks times and overlap
  only when a start or end time is supplied, and it excludes the row itself.
  Any failure inside create or update becomes one BadRequest ("Failed to
  create/update showtime"). A missing seat count defaults to 100. The seat
  counter can be decremented, guarded by the seats left.
- **Bookings** (`src/bookings/bookings.service.ts`). Creating a booking checks
  three things in order, and the first that fails decides the error:
  - every seat number is within `[1, total_seats]`; otherwise `InvalidSeats`
    lists the offending seats;
  - no seat is held by an existing booking of the showtime; otherwise
    `SeatsConflict` lists them;
  - enough seats are left; otherwise `NotEnoughSeats`.

  If all pass, the booking is stored with the amount computed from the
  showtime's price. Its `seat_number` label is the comma-join of the seats. The
  showtime's counter goes down by the number of seats. Bookings can be looked up
  by id and by showtime.

The project has four files:

- `wrappers.dfy`: `Option` and `Result`.
- `seat_label.dfy`: module `SeatLabel`. It holds the comma-joined seat label and
  a parser that reads it back.
- `showtimes.dfy`: module `Showtimes`. It holds pure functions for each rule and
  the class `ShowtimesService`, whose methods update a `map` of showtimes in
  place and are proved equal to those functions.
- `bookings.dfy`: module `Bookings`. It holds the pure transition `Book` over a
  `Store` (the showtimes map plus the booking ledger), its invariants, and the
  class `BookingsService`. That class's `Create` runs the source's filter loops
  and nested seat-collecting loop. Each loop is proved against its
  specification function, and the whole method is proved equal to `Book`.

Timestamps are integers, prices are integer cents, and the set of existing
movie ids stands for the movies service. A booking create runs as one atomic
step, as the source's transaction intends.

## Model

| member | source | states |
|---|---|---|
| SeatLabel.JoinSeats | src/bookings/bookings.service.ts:78 | the `seat_number` label is empty exactly when the seat list is empty |
| SeatLabel.IntTextRoundTrip | src/bookings/bookings.service.ts:78 | every integer's decimal text (with a leading '-' when negative) parses back to that integer |
| SeatLabel.JoinSeatsRoundTrip | src/bookings/bookings.service.ts:78 | the comma-joined label parses back to the exact seat list, so joining loses nothing |
| SeatLabel.JoinSeatsInjective | src/bookings/entities/booking.entity.ts:13 | two different seat lists never share a label, so the unique index on (showtime_id, seat_number) compares seat lists exactly |
| Showtimes.OverlapsIffCommonInstant | src/showtimes/showtimes.service.ts:37-46 | for non-empty windows, the query `start_time < end AND end_time > start` holds exactly when some instant lies in both half-open windows |
| Showtimes.SeatsOrDefault | src/showtimes/showtimes.service.ts:54-58 | no seat count gives 100, and a non-zero count is kept |
| Showtimes.CreateShowtime | src/showtimes/showtimes.service.ts:22-66 | create fails exactly when the movie is unknown, start >= end, or a showtime in the same theater overlaps; every failure is FailedToCreate; on success the row carries the request's fields, the defaulted seat count, and available == total |
| Showtimes.CreateKeepsTheatersFree | src/showtimes/showtimes.service.ts:37-52 | adding a created showtime to a table with no overlapping pair in any theater leaves no overlapping pair |
| Showtimes.BackToBackAccepted | src/showtimes/showtimes.service.ts:41-46 | a showtime starting exactly when the other one in its theater ends is accepted |
| Showtimes.Assign | src/showtimes/showtimes.service.ts:128 | each supplied field overwrites the stored one; id, available seats and unsupplied fields are kept |
| Showtimes.AssignIdempotent | src/showtimes/showtimes.service.ts:128 | applying an update twice equals applying it once, and an empty update changes nothing |
| Showtimes.UpdateShowtime | src/showtimes/showtimes.service.ts:87-133 | every failure, the missing id included, is FailedToUpdate; it succeeds if and only if the id is stored, a supplied movie is known, and, when a time is supplied, the merged times are ordered and overlap no other showtime (the row itself excluded) of the supplied non-empty theater or else the stored one; on success the result is the stored row with the update applied |
| Showtimes.UpdateKeepsTheatersFree | src/showtimes/showtimes.service.ts:111-125 | an update that supplies a time, and no empty theater, keeps every theater free of overlapping pairs |
| Showtimes.ShiftWithinOwnWindowAccepted | src/showtimes/showtimes.service.ts:111-118 | with no other showtime in its theater, a showtime can start later within its own old window, although the new window overlaps the old one, because the query leaves the row itself out |
| Showtimes.EmptyTheaterUpdateCanOverlap | src/showtimes/showtimes.service.ts:115-130 | with an empty theater supplied, the overlap query looks in the stored theater but the empty name is stored, which can leave two overlapping showtimes in the theater named "" |
| Showtimes.TheaterOnlyUpdateCanOverlap | src/showtimes/showtimes.service.ts:99-126 | an update that moves a showtime to another theater without a time is accepted and leaves two overlapping showtimes in that theater |
| Showtimes.TakeSeats | src/showtimes/showtimes.service.ts:154-158 | the decrement succeeds exactly when enough seats are left; it then takes exactly that many, changes nothing else, and leaves a count that is not negative; otherwise it fails with NotEnoughSeats |
| Showtimes.ShowtimesService.FindOne | src/showtimes/showtimes.service.ts:74-85 | the stored showtime when the id exists, otherwise NotFound(id) |
| Showtimes.ShowtimesService.Create | src/showtimes/showtimes.service.ts:22-66 | the result is CreateShowtime on the old table with the next id; on success the row is stored under that id and the id advances, and on failure nothing changes; the table invariant is kept, and so is the absence of overlapping showtimes in any theater |
| Showtimes.ShowtimesService.Update | src/showtimes/showtimes.service.ts:87-133 | the result is UpdateShowtime on the old table; on success the updated row replaces the stored one, and on failure nothing changes; the table invariant is kept, and an update that supplies a time keeps every theater free of overlapping showtimes |
| Showtimes.ShowtimesService.UpdateAvailableSeats | src/showtimes/showtimes.service.ts:151-160 | a missing id raises NotFound; otherwise the stored row becomes TakeSeats of it, or nothing changes and NotEnoughSeats is raised |
| Bookings.InvalidSeatsOfSpec | src/bookings/bookings.service.ts:33-42 | the invalid-seat list holds exactly the requested seats outside [1, total_seats], and it is empty exactly when every seat is in range |
| Bookings.ConflictingSeatsOfSpec | src/bookings/bookings.service.ts:56-64 | the conflict list holds exactly the requested seats that are already held, and it is empty exactly when none is held |
| Bookings.ForShowtimeSpec | src/bookings/bookings.service.ts:45-49 | the query returns exactly the ledger's bookings of that showtime |
| Bookings.SeatUnionSpec | src/bookings/bookings.service.ts:51-54 | the collected set holds exactly the seats of some existing booking |
| Bookings.HeldSeatsSpec | src/bookings/bookings.service.ts:44-54 | a seat is held on a showtime exactly when some booking of that showtime holds it |
| Bookings.NoneHeldIff | src/bookings/bookings.service.ts:56-60 | "no requested seat is held", stated over positions, is the same as stated over members |
| Bookings.Screen | src/bookings/bookings.service.ts:32-69 | no error exactly when all seats are in range, none is held, and enough seats are left; an out-of-range seat gives InvalidSeats with the full invalid list; otherwise a held seat gives SeatsConflict with the full conflict list; otherwise too few seats gives NotEnoughSeats |
| Bookings.NewBooking | src/bookings/bookings.service.ts:71-79 | the stored booking's amount is price × number of seats whatever the client sent; its showtime, customer name, e-mail and phone and seats are the request's, its seat_number is the comma-joined seat list, its id the one given and its status CONFIRMED |
| Bookings.Book | src/bookings/bookings.service.ts:21-96 | an unknown showtime gives ShowtimeNotFound; any failure leaves the store unchanged; success appends exactly NewBooking and lowers only that showtime's counter, by the number of seats |
| Bookings.BookRejects | src/bookings/bookings.service.ts:38-69 | a request the checks reject yields that error and the unchanged store |
| Bookings.BookAccepts | src/bookings/bookings.service.ts:71-89 | a request the checks accept yields the new booking, the ledger with it appended, and the counter lowered |
| Bookings.BookSucceedsIff | src/bookings/bookings.service.ts:28-69 | a create succeeds exactly when the showtime exists, every seat is in [1, total_seats], no seat is held, and enough seats are left |
| Bookings.BookRejectsOutOfRangeFirst | src/bookings/bookings.service.ts:33-42 | if any seat is out of range, the result is InvalidSeats listing every such seat whatever the conflicts and capacity, and nothing changes |
| Bookings.BoundarySeatsRejected | src/bookings/bookings.service.ts:35 | seat 0 and seat total_seats + 1 are rejected as invalid and change nothing |
| Bookings.ClientAmountIgnored | src/bookings/bookings.service.ts:72-77 | the client's total_amount has no effect on the outcome |
| Bookings.BookKeepsConsistent | src/bookings/bookings.service.ts:44-85 | a create keeps every counter non-negative, every booking pointing at an existing showtime with CONFIRMED status and its label, and no seat held twice on a showtime |
| Bookings.AppendKeepsIds | src/bookings/entities/booking.entity.ts:15-16 | appending a booking that takes the next id keeps ids unique, increasing, and below the next id |
| Bookings.BookKeepsLedgerValid | src/bookings/bookings.service.ts:75-81 | a create with the next id keeps the ledger invariant, and the next id advances only on success |
| Bookings.BookKeepsTable | src/bookings/bookings.service.ts:83-85 | the counter decrement keeps the showtimes table invariant, and in particular no counter goes negative |
| Bookings.BookKeepsAccounting | src/bookings/bookings.service.ts:81-85 | if each counter was capacity minus seats sold, it still is after a create |
| Bookings.AcceptKeepsInvariants | src/bookings/bookings.service.ts:71-89 | an accepted create keeps the ledger invariant, the showtimes table invariant and the accounting |
| Bookings.SeatsSoldAppend | src/bookings/bookings.service.ts:84 | appending a booking adds its seat count to its own showtime's seats sold and leaves other showtimes' counts alone |
| Bookings.BookLabelIsFresh | src/bookings/bookings.service.ts:78 | on a consistent store, the new booking's label for a non-empty request none of whose seats is already held (as every successful create's) differs from every label booked for that showtime, so the unique index never fires for it |
| Bookings.Replay | src/bookings/bookings.service.ts:21-96 | a run of creates yields one result per request |
| Bookings.ReplayKeepsInvariants | src/bookings/bookings.service.ts:21-96 | any run of creates keeps consistency and accounting |
| Bookings.ReplayFromFresh | src/bookings/bookings.service.ts:81-85 | from full counters and an empty ledger, after any run of creates no seat is held twice and each counter equals capacity minus seats sold and is not negative |
| Bookings.ReplayHeldSeatConflicts | src/bookings/bookings.service.ts:56-64 | once seat 1 is held, every later request for it fails with SeatsConflict([1]) and changes nothing |
| Bookings.SingleSeatRace | src/bookings/bookings.service.ts:51-69 | on a one-seat showtime, of many requests for seat 1 the first succeeds and all others conflict |
| Bookings.TwoSeatFirstBooking | src/bookings/bookings.service.ts:66-85 | on two free seats at 10, booking [1, 2] costs 20 and leaves 0 seats |
| Bookings.TwoSeatSecondBooking | src/bookings/bookings.service.ts:56-64 | after that, a request for [1] fails with SeatsConflict([1]) and the counter stays 0 |
| Bookings.OutOfRangeScenario | src/bookings/bookings.service.ts:33-42 | on two seats, a request for [1, 2, 3] fails with InvalidSeats([3]) and stores nothing |
| Bookings.FilterInvalidSeats | src/bookings/bookings.service.ts:33-36 | the filter loop computes exactly the invalid-seat list |
| Bookings.CollectBookedSeats | src/bookings/bookings.service.ts:51-54 | the nested loop collects exactly the seats of the existing bookings |
| Bookings.FilterConflictingSeats | src/bookings/bookings.service.ts:56-58 | the filter loop computes exactly the conflict list |
| Bookings.Lookup | src/bookings/bookings.service.ts:105-108 | finds a booking with the id exactly when one exists |
| Bookings.BookingsService.ScreenSeats | src/bookings/bookings.service.ts:32-69 | runs the three checks against the ledger and returns exactly Screen's verdict |
| Bookings.BookingsService.Create | src/bookings/bookings.service.ts:21-96 | the result and the new ledger and showtimes equal Book on the old state; the ids advance only on success; both services' invariants are kept, and so is the accounting |
| Bookings.BookingsService.FindOne | src/bookings/bookings.service.ts:104-115 | the unique booking with that id, or BookingNotFound(id) with status 400 |
| Bookings.BookingsService.FindByShowtime | src/bookings/bookings.service.ts:117-122 | exactly the bookings of that showtime |

## Left out

- `findAll`, `remove` and `removeAll` on showtimes, and `findAll` on bookings, are plain repository reads and deletes with no rule to state. The booking service has no cancel or remove operation.
- The database transaction, its rollback and the lock comment are not modelled. Each booking create is one atomic step, so concurrent creates and the unique index on (showtime_id, seat_number) as a second line of defence are not modelled. `BookLabelIsFresh` shows that the index never fires for a non-empty request that passes the checks.
- An empty seat list passes every check and is stored with the empty label. A second empty request on the same showtime would hit the unique index in the database. The model accepts it, because the index is not modelled.
- A seat requested twice in one request is counted twice against the counter, as the source does. Nothing rejects such a request.
- Database save failures, relation loading (`showtime`, `showtime.movie`) and the `booking_date` timestamp column are left out.
- JavaScript number semantics are left out: seat numbers and counts are integers, so fractional seats and floating-point prices are not modelled. Price is an integer number of cents, so the decimal(10,2) column is not modelled.
- Date parsing (`new Date(...)`) is left out: start and end times are integers.
- The movies service is reduced to a set of existing movie ids.
- Request validation decorators are reduced to the numeric bounds on the service methods' inputs (`CreateDtoValid`, `UpdateDtoValid`) and, for update, a non-empty theater. Other string, date and e-mail format checks are not modelled.
- `src/showtimes/dto/update-showtime.dto.ts` is not part of this model. The update request is taken to be the create request with every field optional.
- Showtimes.UpdateKeepsTheatersFree: holds only when no empty theater is supplied, which `UpdateDtoValid` guarantees on the service path (the create request's non-empty rule, assumed for update); `EmptyTheaterUpdateCanOverlap` shows the pure rule breaking it otherwise.
- Showtimes.UpdateShowtime: a supplied `movie_id` of 0 is checked against the movies here, whereas the source skips the check for that falsy value; `UpdateDtoValid` excludes 0 on the service path.
- Showtimes.ShowtimesService.Update: an update that supplies `total_seats` does not adjust `available_seats`. Likewise `UpdateAvailableSeats` called outside booking creation breaks "counter = capacity − seats sold". Accounting is therefore proved only for runs of booking creates (`Bookings.ReplayFromFresh`), not for these operations.
- Showtimes.TakeSeats: a negative `seatsToBook` raises the counter, as in the source; nothing bounds the counter by the capacity.
- Error messages are reduced to the error kind and the listed seats. The text of each HTTP exception is not modelled; the status code of each booking error is.
