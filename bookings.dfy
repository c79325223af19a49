/** Booking creation and lookup (src/bookings/bookings.service.ts).
    A create runs as one atomic step: find the showtime, reject seat numbers
    outside [1, total_seats], reject seats already held by a booking of that
    showtime, reject when too few seats are left, then append the booking
    and take its seats off the showtime's counter. */
module Bookings {
  import opened Wrappers
  import Showtimes
  import SeatLabel

  /** Column default of `status`; every stored booking has it. */
  const Confirmed := "CONFIRMED"

  datatype Booking = Booking(
    id: int,
    showtimeId: int,
    customerName: string,
    customerEmail: string,
    customerPhone: string,
    seatNumbers: seq<int>,
    totalAmount: int,
    seatNumber: string,
    status: string)

  datatype CreateBookingDto = CreateBookingDto(
    showtimeId: int,
    customerName: string,
    customerEmail: string,
    customerPhone: string,
    seatNumbers: seq<int>,
    totalAmount: int)

  datatype BookingError =
    | ShowtimeNotFound(showtimeId: int)
    | InvalidSeats(seats: seq<int>)
    | SeatsConflict(seats: seq<int>)
    | NotEnoughSeats
    | BookingNotFound(id: int)

  /** The HTTP status each error is raised with. A missing booking is a BadRequest. */
  function StatusCode(e: BookingError): int {
    match e
    case ShowtimeNotFound(_) => 404
    case InvalidSeats(_) => 400
    case SeatsConflict(_) => 409
    case NotEnoughSeats => 400
    case BookingNotFound(_) => 400
  }

  predicate OutOfRange(seat: int, maxSeat: int) {
    seat < 1 || seat > maxSeat
  }

  predicate AllInRange(seats: seq<int>, maxSeat: int) {
    forall x :: x in seats ==> !OutOfRange(x, maxSeat)
  }

  predicate NoneHeld(seats: seq<int>, held: set<int>) {
    forall i :: 0 <= i < |seats| ==> seats[i] !in held
  }

  /** The requested seats outside [1, maxSeat], in request order, each as often as requested. */
  function InvalidSeatsOf(seats: seq<int>, maxSeat: int): seq<int> {
    if seats == [] then []
    else
      var n := |seats| - 1;
      InvalidSeatsOf(seats[..n], maxSeat) + if OutOfRange(seats[n], maxSeat) then [seats[n]] else []
  }

  lemma {:induction false} InvalidSeatsOfSpec(seats: seq<int>, maxSeat: int)
    ensures forall x :: x in InvalidSeatsOf(seats, maxSeat) <==> x in seats && OutOfRange(x, maxSeat)
    ensures InvalidSeatsOf(seats, maxSeat) == [] <==> AllInRange(seats, maxSeat)
  {
    if seats != [] {
      var n := |seats| - 1;
      assert seats == seats[..n] + [seats[n]];
      InvalidSeatsOfSpec(seats[..n], maxSeat);
    }
  }

  /** The requested seats that are in `held`, in request order, each as often as requested. */
  function ConflictingSeatsOf(seats: seq<int>, held: set<int>): seq<int> {
    if seats == [] then []
    else
      var n := |seats| - 1;
      ConflictingSeatsOf(seats[..n], held) + if seats[n] in held then [seats[n]] else []
  }

  lemma {:induction false} ConflictingSeatsOfSpec(seats: seq<int>, held: set<int>)
    ensures forall x :: x in ConflictingSeatsOf(seats, held) <==> x in seats && x in held
    ensures ConflictingSeatsOf(seats, held) == [] <==> NoneHeld(seats, held)
  {
    if seats != [] {
      var n := |seats| - 1;
      assert seats == seats[..n] + [seats[n]];
      ConflictingSeatsOfSpec(seats[..n], held);
    }
  }

  /** The bookings of one showtime, in ledger order (the `where showtime_id` query). */
  function ForShowtime(bookings: seq<Booking>, showtimeId: int): seq<Booking> {
    if bookings == [] then []
    else
      var n := |bookings| - 1;
      ForShowtime(bookings[..n], showtimeId) + if bookings[n].showtimeId == showtimeId then [bookings[n]] else []
  }

  lemma {:induction false} ForShowtimeSpec(bookings: seq<Booking>, showtimeId: int)
    ensures forall b :: b in ForShowtime(bookings, showtimeId) <==> b in bookings && b.showtimeId == showtimeId
  {
    if bookings != [] {
      var n := |bookings| - 1;
      assert bookings == bookings[..n] + [bookings[n]];
      ForShowtimeSpec(bookings[..n], showtimeId);
    }
  }

  /** Every seat number held by any of `bs`. */
  function SeatUnion(bs: seq<Booking>): set<int> {
    if bs == [] then {}
    else
      var n := |bs| - 1;
      SeatUnion(bs[..n]) + set x | x in bs[n].seatNumbers
  }

  lemma {:induction false} SeatUnionSpec(bs: seq<Booking>)
    ensures forall x :: x in SeatUnion(bs) <==> exists b :: b in bs && x in b.seatNumbers
  {
    if bs != [] {
      var n := |bs| - 1;
      assert bs == bs[..n] + [bs[n]];
      SeatUnionSpec(bs[..n]);
    }
  }

  /** The seats held on a showtime: the union over all its bookings, whatever their status. */
  function HeldSeats(bookings: seq<Booking>, showtimeId: int): set<int> {
    SeatUnion(ForShowtime(bookings, showtimeId))
  }

  /** A seat is held on a showtime exactly when some booking of that showtime holds it. */
  lemma HeldSeatsSpec(bookings: seq<Booking>, showtimeId: int)
    ensures forall x :: x in HeldSeats(bookings, showtimeId) <==>
      exists b :: b in bookings && b.showtimeId == showtimeId && x in b.seatNumbers
  {
    ForShowtimeSpec(bookings, showtimeId);
    SeatUnionSpec(ForShowtime(bookings, showtimeId));
  }

  /** Seats sold on a showtime: the sum of the request lengths of its bookings. */
  function SeatsSold(bookings: seq<Booking>, showtimeId: int): nat {
    if bookings == [] then 0
    else
      var n := |bookings| - 1;
      SeatsSold(bookings[..n], showtimeId) + if bookings[n].showtimeId == showtimeId then |bookings[n].seatNumbers| else 0
  }

  lemma SeatsSoldAppend(bookings: seq<Booking>, b: Booking, showtimeId: int)
    ensures SeatsSold(bookings + [b], showtimeId)
         == SeatsSold(bookings, showtimeId) + if b.showtimeId == showtimeId then |b.seatNumbers| else 0
  {
    assert (bookings + [b])[..|bookings|] == bookings;
  }

  /** No seat is held twice on one showtime. */
  ghost predicate SeatsDisjoint(bookings: seq<Booking>) {
    forall i, j, x ::
      (0 <= i < j < |bookings| && bookings[i].showtimeId == bookings[j].showtimeId && x in bookings[i].seatNumbers)
      ==> x !in bookings[j].seatNumbers
  }

  /** The showtimes (as the booking path sees them) together with the booking ledger. */
  datatype Store = Store(showtimes: map<int, Showtimes.Showtime>, bookings: seq<Booking>)

  /** What every reachable store satisfies: counters never negative, every
      booking names an existing showtime, is confirmed and carries its label,
      and no seat is held twice. */
  ghost predicate Consistent(s: Store) {
    && (forall k :: k in s.showtimes ==> s.showtimes[k].availableSeats >= 0)
    && (forall b :: b in s.bookings ==>
          && b.showtimeId in s.showtimes
          && b.status == Confirmed
          && b.seatNumber == SeatLabel.JoinSeats(b.seatNumbers))
    && SeatsDisjoint(s.bookings)
  }

  /** Every showtime's counter equals its capacity minus the seats sold on it. */
  ghost predicate Accounted(s: Store) {
    forall k :: k in s.showtimes ==>
      s.showtimes[k].availableSeats == s.showtimes[k].totalSeats - SeatsSold(s.bookings, k)
  }

  /** The three checks of create in source order: range, then conflicts,
      then capacity. The first that fails decides the error; None when all pass. */
  function Screen(showtime: Showtimes.Showtime, held: set<int>, seats: seq<int>): (r: Option<BookingError>)
    ensures r.None? <==>
      AllInRange(seats, showtime.totalSeats) && NoneHeld(seats, held) && |seats| <= showtime.availableSeats
    ensures !AllInRange(seats, showtime.totalSeats)
      ==> r == Some(InvalidSeats(InvalidSeatsOf(seats, showtime.totalSeats)))
    ensures AllInRange(seats, showtime.totalSeats) && !NoneHeld(seats, held)
      ==> r == Some(SeatsConflict(ConflictingSeatsOf(seats, held)))
    ensures AllInRange(seats, showtime.totalSeats) && NoneHeld(seats, held) && showtime.availableSeats < |seats|
      ==> r == Some(NotEnoughSeats)
  {
    InvalidSeatsOfSpec(seats, showtime.totalSeats);
    ConflictingSeatsOfSpec(seats, held);
    var invalid := InvalidSeatsOf(seats, showtime.totalSeats);
    if invalid != [] then Some(InvalidSeats(invalid))
    else
      var conflicting := ConflictingSeatsOf(seats, held);
      if conflicting != [] then Some(SeatsConflict(conflicting))
      else if showtime.availableSeats < |seats| then Some(NotEnoughSeats)
      else None
  }

  /** The booking a successful create stores: the request's customer fields and
      seats, their comma-joined label, and an amount computed from the
      showtime's price, whatever amount the client sent. */
  function NewBooking(id: int, dto: CreateBookingDto, price: int): (b: Booking)
    ensures b.totalAmount == price * |dto.seatNumbers|
    ensures b.seatNumbers == dto.seatNumbers && b.showtimeId == dto.showtimeId && b.id == id
    ensures b.customerName == dto.customerName && b.customerEmail == dto.customerEmail
    ensures b.customerPhone == dto.customerPhone
    ensures b.seatNumber == SeatLabel.JoinSeats(dto.seatNumbers)
    ensures b.status == Confirmed
  {
    Booking(id, dto.showtimeId, dto.customerName, dto.customerEmail, dto.customerPhone,
            dto.seatNumbers, price * |dto.seatNumbers|, SeatLabel.JoinSeats(dto.seatNumbers), Confirmed)
  }

  /** One booking create as an atomic step from store `s`, the new booking getting `id`. */
  function Book(s: Store, id: int, dto: CreateBookingDto): (out: (Result<Booking, BookingError>, Store))
    ensures dto.showtimeId !in s.showtimes ==> out.0 == Failure(ShowtimeNotFound(dto.showtimeId))
    ensures out.0.Failure? ==> out.1 == s
    ensures out.0.Success? ==>
      var before := s.showtimes[dto.showtimeId];
      && dto.showtimeId in s.showtimes
      && out.0.value == NewBooking(id, dto, before.price)
      && out.1.bookings == s.bookings + [out.0.value]
      && out.1.showtimes.Keys == s.showtimes.Keys
      && out.1.showtimes[dto.showtimeId] == before.(availableSeats := before.availableSeats - |dto.seatNumbers|)
      && forall k :: k in s.showtimes && k != dto.showtimeId ==> out.1.showtimes[k] == s.showtimes[k]
  {
    if dto.showtimeId !in s.showtimes then (Failure(ShowtimeNotFound(dto.showtimeId)), s)
    else
      var showtime := s.showtimes[dto.showtimeId];
      match Screen(showtime, HeldSeats(s.bookings, dto.showtimeId), dto.seatNumbers)
      case Some(e) => (Failure(e), s)
      case None =>
        var b := NewBooking(id, dto, showtime.price);
        var after := showtime.(availableSeats := showtime.availableSeats - |dto.seatNumbers|);
        (Success(b), Store(s.showtimes[dto.showtimeId := after], s.bookings + [b]))
  }

  /** Book unfolded once: a screened-out request leaves the store as it was. */
  lemma BookRejects(s: Store, id: int, dto: CreateBookingDto, showtime: Showtimes.Showtime, e: BookingError)
    requires dto.showtimeId in s.showtimes && s.showtimes[dto.showtimeId] == showtime
    requires Screen(showtime, HeldSeats(s.bookings, dto.showtimeId), dto.seatNumbers) == Some(e)
    ensures Book(s, id, dto) == (Failure(e), s)
  {
  }

  /** Book unfolded once: an accepted request appends its booking and takes its seats off the counter. */
  lemma BookAccepts(s: Store, id: int, dto: CreateBookingDto, showtime: Showtimes.Showtime, b: Booking)
    requires dto.showtimeId in s.showtimes && s.showtimes[dto.showtimeId] == showtime
    requires Screen(showtime, HeldSeats(s.bookings, dto.showtimeId), dto.seatNumbers).None?
    requires b == NewBooking(id, dto, showtime.price)
    ensures Book(s, id, dto)
         == (Success(b),
             Store(s.showtimes[dto.showtimeId := showtime.(availableSeats := showtime.availableSeats - |dto.seatNumbers|)],
                   s.bookings + [b]))
  {
    assert Screen(showtime, HeldSeats(s.bookings, dto.showtimeId), dto.seatNumbers) == None;
  }

  /** The invariants of both services hold after an accepted create. */
  lemma AcceptKeepsInvariants(s: Store, id: int, dto: CreateBookingDto, showtime: Showtimes.Showtime, b: Booking,
                              showtimesNextId: int)
    requires dto.showtimeId in s.showtimes && s.showtimes[dto.showtimeId] == showtime
    requires Screen(showtime, HeldSeats(s.bookings, dto.showtimeId), dto.seatNumbers).None?
    requires b == NewBooking(id, dto, showtime.price)
    requires LedgerValid(s, id) && Showtimes.TableValid(s.showtimes, showtimesNextId)
    ensures var after := Store(s.showtimes[dto.showtimeId := showtime.(availableSeats := showtime.availableSeats - |dto.seatNumbers|)],
                               s.bookings + [b]);
      && LedgerValid(after, id + 1)
      && Showtimes.TableValid(after.showtimes, showtimesNextId)
      && (Accounted(s) ==> Accounted(after))
  {
    BookAccepts(s, id, dto, showtime, b);
    BookKeepsLedgerValid(s, id, dto);
    BookKeepsTable(s, id, dto, showtimesNextId);
    if Accounted(s) {
      BookKeepsAccounting(s, id, dto);
    }
  }

  /** A create succeeds exactly when the showtime exists, every seat is in
      range, none is held, and enough seats are left. */
  lemma BookSucceedsIff(s: Store, id: int, dto: CreateBookingDto)
    ensures Book(s, id, dto).0.Success? <==>
      && dto.showtimeId in s.showtimes
      && (forall x :: x in dto.seatNumbers ==> 1 <= x <= s.showtimes[dto.showtimeId].totalSeats)
      && (forall x :: x in dto.seatNumbers ==> x !in HeldSeats(s.bookings, dto.showtimeId))
      && |dto.seatNumbers| <= s.showtimes[dto.showtimeId].availableSeats
  {
    if dto.showtimeId in s.showtimes {
      var seats := dto.seatNumbers;
      var showtime := s.showtimes[dto.showtimeId];
      var held := HeldSeats(s.bookings, dto.showtimeId);
      assert Book(s, id, dto).0.Success? <==> Screen(showtime, held, seats).None?;
      NoneHeldIff(seats, held);
    }
  }

  lemma NoneHeldIff(seats: seq<int>, held: set<int>)
    ensures NoneHeld(seats, held) <==> forall x :: x in seats ==> x !in held
  {
    if NoneHeld(seats, held) {
      forall x | x in seats ensures x !in held {
        var i :| 0 <= i < |seats| && seats[i] == x;
      }
    } else {
      var i :| 0 <= i < |seats| && seats[i] in held;
      var x := seats[i];
      assert x in seats && x in held;
    }
  }

  /** When some seat is out of range the error lists exactly the offending
      seats, in request order, whatever the conflicts and the capacity;
      seat 0 and seat total_seats + 1 are such seats. */
  lemma BookRejectsOutOfRangeFirst(s: Store, id: int, dto: CreateBookingDto)
    requires dto.showtimeId in s.showtimes
    requires exists x :: x in dto.seatNumbers && OutOfRange(x, s.showtimes[dto.showtimeId].totalSeats)
    ensures Book(s, id, dto) == (Failure(InvalidSeats(InvalidSeatsOf(dto.seatNumbers, s.showtimes[dto.showtimeId].totalSeats))), s)
  {
  }

  lemma BoundarySeatsRejected(s: Store, id: int, dto: CreateBookingDto)
    requires dto.showtimeId in s.showtimes
    requires 0 in dto.seatNumbers || s.showtimes[dto.showtimeId].totalSeats + 1 in dto.seatNumbers
    ensures Book(s, id, dto).0.Failure? && Book(s, id, dto).0.error.InvalidSeats?
    ensures Book(s, id, dto).1 == s
  {
    var total := s.showtimes[dto.showtimeId].totalSeats;
    if 0 in dto.seatNumbers {
      assert OutOfRange(0, total);
    } else {
      assert OutOfRange(total + 1, total);
    }
    BookRejectsOutOfRangeFirst(s, id, dto);
  }

  /** The amount a client sends is ignored. */
  lemma ClientAmountIgnored(s: Store, id: int, dto: CreateBookingDto, amount: int)
    ensures Book(s, id, dto.(totalAmount := amount)) == Book(s, id, dto)
  {
    var other := dto.(totalAmount := amount);
    if dto.showtimeId in s.showtimes {
      var st := s.showtimes[dto.showtimeId];
      var screened := Screen(st, HeldSeats(s.bookings, dto.showtimeId), dto.seatNumbers);
      if screened.Some? {
        BookRejects(s, id, dto, st, screened.value);
        BookRejects(s, id, other, st, screened.value);
      } else {
        var b := NewBooking(id, dto, st.price);
        assert NewBooking(id, other, st.price) == b;
        BookAccepts(s, id, dto, st, b);
        BookAccepts(s, id, other, st, b);
      }
    }
  }

  /** A create keeps the store consistent; in particular no seat becomes held
      twice and no counter goes negative. */
  lemma BookKeepsConsistent(s: Store, id: int, dto: CreateBookingDto)
    requires Consistent(s)
    ensures Consistent(Book(s, id, dto).1)
  {
    if dto.showtimeId !in s.showtimes {
      return;
    }
    var st := s.showtimes[dto.showtimeId];
    var bs := s.bookings;
    var seats := dto.seatNumbers;
    var held := HeldSeats(bs, dto.showtimeId);
    var screened := Screen(st, held, seats);
    if screened.Some? {
      BookRejects(s, id, dto, st, screened.value);
      return;
    }
    var b := NewBooking(id, dto, st.price);
    BookAccepts(s, id, dto, st, b);
    var bs' := bs + [b];
    HeldSeatsSpec(bs, dto.showtimeId);
    NoneHeldIff(seats, held);
    forall i, j, x | 0 <= i < j < |bs'| && bs'[i].showtimeId == bs'[j].showtimeId && x in bs'[i].seatNumbers
      ensures x !in bs'[j].seatNumbers
    {
      assert bs'[i] == bs[i];
      if j == |bs| {
        assert bs[i] in bs && x in held;
      } else {
        assert bs'[j] == bs[j];
      }
    }
    assert SeatsDisjoint(bs');
    assert forall c :: c in bs' ==> c in bs || c == b;
  }

  /** Every booking id is below `nextId`. */
  predicate IdsBelow(bookings: seq<Booking>, nextId: int) {
    forall i :: 0 <= i < |bookings| ==> bookings[i].id < nextId
  }

  /** Booking ids strictly increase in ledger order, so no id is stored twice. */
  predicate IdsIncreasing(bookings: seq<Booking>) {
    forall i, j :: 0 <= i < j < |bookings| ==> bookings[i].id < bookings[j].id
  }

  /** Appending a booking that takes the next id keeps the ids unique and below the new next id. */
  lemma AppendKeepsIds(bookings: seq<Booking>, b: Booking, nextId: int)
    requires IdsBelow(bookings, nextId) && IdsIncreasing(bookings) && b.id == nextId
    ensures IdsBelow(bookings + [b], nextId + 1) && IdsIncreasing(bookings + [b])
  {
    var bs := bookings + [b];
    forall i | 0 <= i < |bs| ensures bs[i].id < nextId + 1 {
      if i < |bookings| {
        assert bs[i] == bookings[i];
      }
    }
    forall i, j | 0 <= i < j < |bs| ensures bs[i].id < bs[j].id {
      assert bs[i] == bookings[i];
      if j < |bookings| {
        assert bs[j] == bookings[j];
      }
    }
  }

  /** The booking ledger's own invariant: ids below the next one handed out,
      strictly increasing in ledger order, and a consistent store. */
  ghost predicate LedgerValid(s: Store, nextId: int) {
    nextId >= 1 && IdsBelow(s.bookings, nextId) && IdsIncreasing(s.bookings) && Consistent(s)
  }

  /** A create with the next id keeps the ledger's invariant; the next id moves on only on success. */
  lemma BookKeepsLedgerValid(s: Store, id: int, dto: CreateBookingDto)
    requires LedgerValid(s, id)
    ensures LedgerValid(Book(s, id, dto).1, if Book(s, id, dto).0.Success? then id + 1 else id)
  {
    BookKeepsConsistent(s, id, dto);
    var (r, s') := Book(s, id, dto);
    if r.Success? {
      AppendKeepsIds(s.bookings, r.value, id);
    }
  }

  /** A create keeps the showtimes repository's own invariant. */
  lemma BookKeepsTable(s: Store, id: int, dto: CreateBookingDto, showtimesNextId: int)
    requires Showtimes.TableValid(s.showtimes, showtimesNextId)
    ensures Showtimes.TableValid(Book(s, id, dto).1.showtimes, showtimesNextId)
  {
    var (r, s') := Book(s, id, dto);
    if r.Success? {
      assert Screen(s.showtimes[dto.showtimeId], HeldSeats(s.bookings, dto.showtimeId), dto.seatNumbers).None?;
    }
  }

  /** A create keeps every counter equal to capacity minus seats sold. */
  lemma BookKeepsAccounting(s: Store, id: int, dto: CreateBookingDto)
    requires Accounted(s)
    ensures Accounted(Book(s, id, dto).1)
  {
    var (r, s') := Book(s, id, dto);
    if r.Success? {
      forall k | k in s'.showtimes
        ensures s'.showtimes[k].availableSeats == s'.showtimes[k].totalSeats - SeatsSold(s'.bookings, k)
      {
        SeatsSoldAppend(s.bookings, r.value, k);
      }
    }
  }

  /** On a consistent store a non-empty request none of whose seats is held
      (which `Screen` demands of every successful create) gets a label that
      differs from every label already booked for the showtime, so the unique
      index on (showtime_id, seat_number) never fires for it. */
  lemma BookLabelIsFresh(s: Store, id: int, dto: CreateBookingDto)
    requires Consistent(s) && |dto.seatNumbers| >= 1 && dto.showtimeId in s.showtimes
    requires NoneHeld(dto.seatNumbers, HeldSeats(s.bookings, dto.showtimeId))
    ensures forall b :: b in s.bookings && b.showtimeId == dto.showtimeId ==>
      b.seatNumber != NewBooking(id, dto, s.showtimes[dto.showtimeId].price).seatNumber
  {
    var nb := NewBooking(id, dto, s.showtimes[dto.showtimeId].price);
    HeldSeatsSpec(s.bookings, dto.showtimeId);
    forall b | b in s.bookings && b.showtimeId == dto.showtimeId
      ensures b.seatNumber != nb.seatNumber
    {
      assert dto.seatNumbers[0] !in b.seatNumbers;
      SeatLabel.JoinSeatsRoundTrip(b.seatNumbers);
      SeatLabel.JoinSeatsRoundTrip(dto.seatNumbers);
    }
  }

  /** A sequence of create requests applied one after another; ids are
      handed out in order to the requests that succeed. */
  function Replay(s: Store, nextId: int, reqs: seq<CreateBookingDto>)
    : (out: (seq<Result<Booking, BookingError>>, Store))
    ensures |out.0| == |reqs|
    decreases |reqs|
  {
    if reqs == [] then ([], s)
    else
      var (r, s1) := Book(s, nextId, reqs[0]);
      var (rs, s2) := Replay(s1, if r.Success? then nextId + 1 else nextId, reqs[1..]);
      ([r] + rs, s2)
  }

  lemma {:induction false} ReplayKeepsInvariants(s: Store, nextId: int, reqs: seq<CreateBookingDto>)
    requires Consistent(s) && Accounted(s)
    ensures Consistent(Replay(s, nextId, reqs).1) && Accounted(Replay(s, nextId, reqs).1)
    decreases |reqs|
  {
    if reqs != [] {
      var (r, s1) := Book(s, nextId, reqs[0]);
      BookKeepsConsistent(s, nextId, reqs[0]);
      BookKeepsAccounting(s, nextId, reqs[0]);
      ReplayKeepsInvariants(s1, if r.Success? then nextId + 1 else nextId, reqs[1..]);
    }
  }

  /** Starting from showtimes whose counters are full and an empty ledger,
      after any sequence of creates each counter is its capacity minus the
      seats sold on it, and is never negative. */
  lemma ReplayFromFresh(showtimes: map<int, Showtimes.Showtime>, nextId: int, reqs: seq<CreateBookingDto>)
    requires forall k :: k in showtimes ==> 0 <= showtimes[k].availableSeats == showtimes[k].totalSeats
    ensures var s := Replay(Store(showtimes, []), nextId, reqs).1;
      && SeatsDisjoint(s.bookings)
      && forall k :: k in s.showtimes ==>
           0 <= s.showtimes[k].availableSeats == s.showtimes[k].totalSeats - SeatsSold(s.bookings, k)
  {
    ReplayKeepsInvariants(Store(showtimes, []), nextId, reqs);
  }

  /** Once seat 1 of a showtime is held, every further request for it alone
      fails with a conflict naming seat 1 and changes nothing. */
  lemma {:induction false} ReplayHeldSeatConflicts(s: Store, nextId: int, reqs: seq<CreateBookingDto>, showtimeId: int)
    requires showtimeId in s.showtimes && s.showtimes[showtimeId].totalSeats >= 1
    requires 1 in HeldSeats(s.bookings, showtimeId)
    requires forall i :: 0 <= i < |reqs| ==> reqs[i].showtimeId == showtimeId && reqs[i].seatNumbers == [1]
    ensures Replay(s, nextId, reqs).1 == s
    ensures forall i :: 0 <= i < |reqs| ==> Replay(s, nextId, reqs).0[i] == Failure(SeatsConflict([1]))
    decreases |reqs|
  {
    if reqs != [] {
      var st := s.showtimes[showtimeId];
      var held := HeldSeats(s.bookings, showtimeId);
      assert ConflictingSeatsOf([1], held) == [1];
      assert Screen(st, held, [1]) == Some(SeatsConflict([1]));
      ReplayHeldSeatConflicts(s, nextId, reqs[1..], showtimeId);
    }
  }

  /** A one-seat showtime and any number of requests for seat 1: the first
      succeeds, every later one fails with a conflict on seat 1. */
  lemma SingleSeatRace(s: Store, nextId: int, reqs: seq<CreateBookingDto>, showtimeId: int)
    requires showtimeId in s.showtimes
    requires s.showtimes[showtimeId].totalSeats == 1 && s.showtimes[showtimeId].availableSeats == 1
    requires HeldSeats(s.bookings, showtimeId) == {}
    requires |reqs| >= 1
    requires forall i :: 0 <= i < |reqs| ==> reqs[i].showtimeId == showtimeId && reqs[i].seatNumbers == [1]
    ensures Replay(s, nextId, reqs).0[0].Success?
    ensures forall i :: 1 <= i < |reqs| ==> Replay(s, nextId, reqs).0[i] == Failure(SeatsConflict([1]))
  {
    var st := s.showtimes[showtimeId];
    assert Screen(st, {}, [1]).None?;
    var first := NewBooking(nextId, reqs[0], st.price);
    BookAccepts(s, nextId, reqs[0], st, first);
    var s1 := Book(s, nextId, reqs[0]).1;
    assert s1.bookings == s.bookings + [first];
    assert 1 in HeldSeats(s1.bookings, showtimeId) by {
      HeldSeatsSpec(s1.bookings, showtimeId);
      assert first in s1.bookings && 1 in first.seatNumbers;
    }
    ReplayHeldSeatConflicts(s1, nextId + 1, reqs[1..], showtimeId);
  }

  /** The showtime of the two-seat scenarios: two seats at 10, both free. */
  function TwoSeats(): Showtimes.Showtime {
    Showtimes.Showtime(7, 1, "Hall", 0, 120, 10, 2, 2)
  }

  /** Two seats at 10: booking [1, 2] costs 20 and empties the showtime. */
  lemma TwoSeatFirstBooking(a: CreateBookingDto)
    requires a.showtimeId == 7 && a.seatNumbers == [1, 2]
    ensures Book(Store(map[7 := TwoSeats()], []), 1, a)
         == (Success(NewBooking(1, a, 10)),
             Store(map[7 := TwoSeats().(availableSeats := 0)], [NewBooking(1, a, 10)]))
    ensures NewBooking(1, a, 10).totalAmount == 20
  {
    var st := TwoSeats();
    var s0 := Store(map[7 := st], []);
    assert HeldSeats([], 7) == {};
    assert Screen(st, {}, [1, 2]).None?;
    BookAccepts(s0, 1, a, st, NewBooking(1, a, 10));
    assert s0.bookings + [NewBooking(1, a, 10)] == [NewBooking(1, a, 10)];
    assert s0.showtimes[7 := st.(availableSeats := 0)] == map[7 := st.(availableSeats := 0)];
  }

  /** After that, a request for [1] fails with a conflict on [1] and the counter stays 0. */
  lemma TwoSeatSecondBooking(first: Booking, b: CreateBookingDto)
    requires first.showtimeId == 7 && first.seatNumbers == [1, 2]
    requires b.showtimeId == 7 && b.seatNumbers == [1]
    ensures var s1 := Store(map[7 := TwoSeats().(availableSeats := 0)], [first]);
      Book(s1, 2, b) == (Failure(SeatsConflict([1])), s1)
  {
    var st1 := TwoSeats().(availableSeats := 0);
    var s1 := Store(map[7 := st1], [first]);
    var held := HeldSeats(s1.bookings, 7);
    HeldSeatsSpec(s1.bookings, 7);
    assert held == {1, 2} by {
      assert forall x :: x in held <==> x in first.seatNumbers;
    }
    assert ConflictingSeatsOf([1], held) == [1] by {
      assert [1][..0] == [];
    }
    assert !NoneHeld([1], held);
    assert Screen(st1, held, [1]) == Some(SeatsConflict([1]));
    BookRejects(s1, 2, b, st1, SeatsConflict([1]));
  }

  /** Two seats: a request for [1, 2, 3] fails listing [3] and stores nothing. */
  lemma OutOfRangeScenario(a: CreateBookingDto)
    requires a.showtimeId == 7 && a.seatNumbers == [1, 2, 3]
    ensures
      var s := Store(map[7 := Showtimes.Showtime(7, 1, "Hall", 0, 120, 10, 2, 2)], []);
      Book(s, 1, a) == (Failure(InvalidSeats([3])), s)
  {
    assert InvalidSeatsOf([1, 2, 3], 2) == [3] by {
      assert [1, 2, 3][..2] == [1, 2];
      assert InvalidSeatsOf([1, 2], 2) == [] by {
        assert [1, 2][..1] == [1];
      }
    }
  }

  /** The booking ledger, beside the showtimes service whose counters it decrements. */
  class BookingsService {
    var bookings: seq<Booking>
    var nextId: int
    const showtimesService: Showtimes.ShowtimesService

    ghost function Snapshot(): Store
      reads this, showtimesService
    {
      Store(showtimesService.showtimes, bookings)
    }

    ghost predicate Valid()
      reads this, showtimesService
    {
      && showtimesService.Valid()
      && LedgerValid(Snapshot(), nextId)
    }

    constructor (showtimesService: Showtimes.ShowtimesService)
      requires showtimesService.Valid()
      ensures Valid() && bookings == [] && nextId == 1 && this.showtimesService == showtimesService
    {
      bookings := [];
      nextId := 1;
      this.showtimesService := showtimesService;
    }

    /** `findOne`: the booking with that id, or a BadRequest naming the id. */
    function FindOne(id: int): (r: Result<Booking, BookingError>)
      reads this, showtimesService
      requires Valid()
      ensures r.Success? <==> exists b :: b in bookings && b.id == id
      ensures r.Success? ==> r.value in bookings && r.value.id == id
      ensures r.Success? ==> forall b :: b in bookings && b.id == id ==> b == r.value
      ensures r.Failure? ==> r.error == BookingNotFound(id) && StatusCode(r.error) == 400
    {
      match Lookup(bookings, id)
      case Some(b) =>
        assert forall i, j :: 0 <= i < |bookings| && 0 <= j < |bookings| && bookings[i].id == bookings[j].id ==> i == j;
        Success(b)
      case None => Failure(BookingNotFound(id))
    }

    /** `findByShowtime`: exactly the bookings of that showtime, in ledger order. */
    function FindByShowtime(showtimeId: int): (r: seq<Booking>)
      reads this
      ensures forall b :: b in r <==> b in bookings && b.showtimeId == showtimeId
    {
      ForShowtimeSpec(bookings, showtimeId);
      ForShowtime(bookings, showtimeId)
    }

    /** The three checks of `create` against the ledger, in source order;
        the first that fails gives the error. */
    method ScreenSeats(showtime: Showtimes.Showtime, showtimeId: int, seats: seq<int>)
      returns (rejection: Option<BookingError>)
      ensures rejection == Screen(showtime, HeldSeats(bookings, showtimeId), seats)
    {
      // range check first
      var invalidSeats := FilterInvalidSeats(seats, showtime.totalSeats);
      if invalidSeats != [] {
        return Some(InvalidSeats(invalidSeats));
      }

      // then the seats held by earlier bookings of this showtime
      var existingBookings := ForShowtime(bookings, showtimeId);
      var bookedSeats := CollectBookedSeats(existingBookings);
      var conflictingSeats := FilterConflictingSeats(seats, bookedSeats);
      if conflictingSeats != [] {
        return Some(SeatsConflict(conflictingSeats));
      }

      // then the remaining capacity
      if showtime.availableSeats < |seats| {
        return Some(NotEnoughSeats);
      }
      return None;
    }

    method Create(dto: CreateBookingDto) returns (r: Result<Booking, BookingError>)
      requires Valid()
      modifies this, showtimesService
      ensures Valid()
      ensures (r, Snapshot()) == Book(old(Snapshot()), old(nextId), dto)
      ensures nextId == if r.Success? then old(nextId) + 1 else old(nextId)
      ensures showtimesService.nextId == old(showtimesService.nextId)
      ensures old(Accounted(Snapshot())) ==> Accounted(Snapshot())
    {
      ghost var before := Snapshot();
      ghost var outcome := Book(before, nextId, dto);
      var found := showtimesService.FindOne(dto.showtimeId);
      if found.Failure? {
        assert outcome == (Failure(ShowtimeNotFound(dto.showtimeId)), before);
        return Failure(ShowtimeNotFound(dto.showtimeId));
      }
      var showtime := found.value;
      assert showtime == before.showtimes[dto.showtimeId];
      var seats := dto.seatNumbers;
      var rejection := ScreenSeats(showtime, dto.showtimeId, seats);
      if rejection.Some? {
        BookRejects(before, nextId, dto, showtime, rejection.value);
        return Failure(rejection.value);
      }

      var totalAmount := showtime.price * |seats|;
      var booking := Booking(nextId, dto.showtimeId, dto.customerName, dto.customerEmail, dto.customerPhone,
                             seats, totalAmount, SeatLabel.JoinSeats(seats), Confirmed);
      var updated := showtime.(availableSeats := showtime.availableSeats - |seats|);
      ghost var after := Store(before.showtimes[dto.showtimeId := updated], before.bookings + [booking]);
      assert booking == NewBooking(nextId, dto, showtime.price);
      BookAccepts(before, nextId, dto, showtime, booking);
      assert outcome == (Success(booking), after);

      bookings := bookings + [booking];
      nextId := nextId + 1;
      showtimesService.showtimes := showtimesService.showtimes[dto.showtimeId := updated];
      r := Success(booking);
      assert Snapshot() == after;

      AcceptKeepsInvariants(before, old(nextId), dto, showtime, booking, showtimesService.nextId);
    }
  }

  /** The requested seats outside 1..maxSeat, in request order, by a scan. */
  method FilterInvalidSeats(seats: seq<int>, maxSeat: int) returns (invalid: seq<int>)
    ensures invalid == InvalidSeatsOf(seats, maxSeat)
  {
    invalid := [];
    var i := 0;
    while i < |seats|
      invariant 0 <= i <= |seats|
      invariant invalid == InvalidSeatsOf(seats[..i], maxSeat)
    {
      assert seats[..i + 1][..i] == seats[..i];
      if OutOfRange(seats[i], maxSeat) {
        invalid := invalid + [seats[i]];
      }
      i := i + 1;
    }
    assert seats[..i] == seats;
  }

  /** The nested `forEach` that adds every seat of every existing booking to one set. */
  method CollectBookedSeats(existing: seq<Booking>) returns (booked: set<int>)
    ensures booked == SeatUnion(existing)
  {
    booked := {};
    var j := 0;
    while j < |existing|
      invariant 0 <= j <= |existing|
      invariant booked == SeatUnion(existing[..j])
    {
      var seats := existing[j].seatNumbers;
      var k := 0;
      while k < |seats|
        invariant 0 <= k <= |seats|
        invariant booked == SeatUnion(existing[..j]) + set x | x in seats[..k]
      {
        assert seats[..k + 1] == seats[..k] + [seats[k]];
        booked := booked + {seats[k]};
        k := k + 1;
      }
      assert seats[..k] == seats;
      assert existing[..j + 1][..j] == existing[..j];
      j := j + 1;
    }
    assert existing[..j] == existing;
  }

  /** The requested seats that are already in `booked`, in request order, by a scan. */
  method FilterConflictingSeats(seats: seq<int>, booked: set<int>) returns (conflicting: seq<int>)
    ensures conflicting == ConflictingSeatsOf(seats, booked)
  {
    conflicting := [];
    var i := 0;
    while i < |seats|
      invariant 0 <= i <= |seats|
      invariant conflicting == ConflictingSeatsOf(seats[..i], booked)
    {
      assert seats[..i + 1][..i] == seats[..i];
      if seats[i] in booked {
        conflicting := conflicting + [seats[i]];
      }
      i := i + 1;
    }
    assert seats[..i] == seats;
  }

  /** The first booking with the given id. */
  function Lookup(bs: seq<Booking>, id: int): (r: Option<Booking>)
    ensures r.Some? <==> exists b :: b in bs && b.id == id
    ensures r.Some? ==> r.value in bs && r.value.id == id
  {
    if bs == [] then None
    else if bs[0].id == id then Some(bs[0])
    else
      assert forall b :: b in bs <==> b == bs[0] || b in bs[1..];
      Lookup(bs[1..], id)
  }
}
