/** Showtime scheduling (src/showtimes/showtimes.service.ts): the time-order
    and theater-overlap rules of create and update, the seat-count defaults,
    the field overwrite of update and the guarded seat decrement.
    Timestamps are integers, prices are integer cents. */
module Showtimes {
  import opened Wrappers

  /** Capacity used when a create request names none (`total_seats || 100`). */
  const DefaultSeats := 100

  datatype Showtime = Showtime(
    id: int,
    movieId: int,
    theater: string,
    startTime: int,
    endTime: int,
    price: int,
    totalSeats: int,
    availableSeats: int)

  datatype CreateShowtimeDto = CreateShowtimeDto(
    movieId: int,
    theater: string,
    startTime: int,
    endTime: int,
    price: int,
    totalSeats: Option<int>)

  /** Every field optional; the record carries no id and no available_seats. */
  datatype UpdateShowtimeDto = UpdateShowtimeDto(
    movieId: Option<int>,
    theater: Option<string>,
    startTime: Option<int>,
    endTime: Option<int>,
    price: Option<int>,
    totalSeats: Option<int>)

  /** What the service raises: lookups raise NotFound, every failure inside
      create or update is collapsed into one BadRequest. */
  datatype ShowtimeError = NotFound(id: int) | FailedToCreate | FailedToUpdate | NotEnoughSeats

  /** The numeric bounds the request validator enforces before the service runs. */
  predicate CreateDtoValid(dto: CreateShowtimeDto) {
    && dto.movieId > 0
    && dto.price >= 0
    && (dto.totalSeats.Some? ==> dto.totalSeats.value >= 1)
  }

  /** The create bounds on whichever fields an update supplies; a supplied
      theater must be non-empty, as on create. */
  predicate UpdateDtoValid(dto: UpdateShowtimeDto) {
    && (dto.movieId.Some? ==> dto.movieId.value > 0)
    && (dto.theater.Some? ==> dto.theater.value != "")
    && (dto.price.Some? ==> dto.price.value >= 0)
    && (dto.totalSeats.Some? ==> dto.totalSeats.value >= 1)
  }

  /** The query `start_time < end AND end_time > start` against an existing
      showtime [aStart, aEnd) and a candidate [bStart, bEnd). */
  predicate Overlaps(aStart: int, aEnd: int, bStart: int, bEnd: int) {
    aStart < bEnd && aEnd > bStart
  }

  predicate During(t: int, start: int, end: int) {
    start <= t < end
  }

  /** For non-empty half-open intervals the query is exactly "some instant
      lies in both", so back-to-back showtimes do not overlap. */
  lemma OverlapsIffCommonInstant(aStart: int, aEnd: int, bStart: int, bEnd: int)
    requires aStart < aEnd && bStart < bEnd
    ensures Overlaps(aStart, aEnd, bStart, bEnd)
        <==> exists t :: During(t, aStart, aEnd) && During(t, bStart, bEnd)
  {
    if Overlaps(aStart, aEnd, bStart, bEnd) {
      var t := if aStart < bStart then bStart else aStart;
      assert During(t, aStart, aEnd) && During(t, bStart, bEnd);
    }
  }

  /** Some showtime other than `exclude`, in `theater`, overlaps [start, end). */
  predicate HasOverlap(m: map<int, Showtime>, theater: string, start: int, end: int, exclude: Option<int>) {
    exists id :: id in m && exclude != Some(id) && m[id].theater == theater
      && Overlaps(m[id].startTime, m[id].endTime, start, end)
  }

  /** No two showtimes in one theater overlap. */
  ghost predicate TheatersFree(m: map<int, Showtime>) {
    forall i, j :: i in m && j in m && i != j && m[i].theater == m[j].theater
      ==> !Overlaps(m[i].startTime, m[i].endTime, m[j].startTime, m[j].endTime)
  }

  /** `total_seats || 100`: an absent (or zero) count falls back to the default. */
  function SeatsOrDefault(totalSeats: Option<int>): (n: int)
    ensures totalSeats.None? ==> n == DefaultSeats
    ensures totalSeats.Some? && totalSeats.value != 0 ==> n == totalSeats.value
  {
    if totalSeats.Some? && totalSeats.value != 0 then totalSeats.value else DefaultSeats
  }

  /** The showtime create would store under `id`. */
  function NewShowtime(id: int, dto: CreateShowtimeDto): Showtime {
    var seats := SeatsOrDefault(dto.totalSeats);
    Showtime(id, dto.movieId, dto.theater, dto.startTime, dto.endTime, dto.price, seats, seats)
  }

  /** Showtime creation, checks in source order: the movie exists, start
      before end, no overlap in the theater; any failure is the one
      "Failed to create showtime" error. */
  function CreateShowtime(m: map<int, Showtime>, movies: set<int>, id: int, dto: CreateShowtimeDto)
    : (r: Result<Showtime, ShowtimeError>)
    ensures r.Failure? <==>
      || dto.movieId !in movies
      || dto.startTime >= dto.endTime
      || (exists k :: k in m && m[k].theater == dto.theater
            && m[k].startTime < dto.endTime && m[k].endTime > dto.startTime)
    ensures r.Failure? ==> r.error == FailedToCreate
    ensures r.Success? ==>
      && r.value.id == id && r.value.movieId == dto.movieId && r.value.theater == dto.theater
      && r.value.startTime == dto.startTime && r.value.endTime == dto.endTime
      && r.value.price == dto.price
      && r.value.availableSeats == r.value.totalSeats
      && (dto.totalSeats.None? ==> r.value.totalSeats == DefaultSeats)
      && (dto.totalSeats.Some? && dto.totalSeats.value != 0 ==> r.value.totalSeats == dto.totalSeats.value)
  {
    if dto.movieId !in movies then Failure(FailedToCreate)
    else if dto.startTime >= dto.endTime then Failure(FailedToCreate)
    else if HasOverlap(m, dto.theater, dto.startTime, dto.endTime, None) then Failure(FailedToCreate)
    else Success(NewShowtime(id, dto))
  }

  /** A created showtime never double-books its theater. */
  lemma CreateKeepsTheatersFree(m: map<int, Showtime>, movies: set<int>, id: int, dto: CreateShowtimeDto)
    requires TheatersFree(m) && id !in m
    requires CreateShowtime(m, movies, id, dto).Success?
    ensures TheatersFree(m[id := CreateShowtime(m, movies, id, dto).value])
  {
    var s := CreateShowtime(m, movies, id, dto).value;
    var m' := m[id := s];
    forall i, j | i in m' && j in m' && i != j && m'[i].theater == m'[j].theater
      ensures !Overlaps(m'[i].startTime, m'[i].endTime, m'[j].startTime, m'[j].endTime)
    {
      if i == id {
        assert !Overlaps(m[j].startTime, m[j].endTime, s.startTime, s.endTime);
      } else if j == id {
        assert !Overlaps(m[i].startTime, m[i].endTime, s.startTime, s.endTime);
      }
    }
  }

  /** Back-to-back: a showtime starting exactly when the only other one in
      its theater ends is accepted. */
  lemma BackToBackAccepted(prev: Showtime, movies: set<int>, id: int, dto: CreateShowtimeDto)
    requires dto.movieId in movies && dto.theater == prev.theater
    requires prev.startTime < prev.endTime == dto.startTime < dto.endTime
    ensures CreateShowtime(map[prev.id := prev], movies, id, dto).Success?
  {
  }

  /** `Object.assign(showtime, dto)`: every supplied field overwrites the stored one. */
  function Assign(s: Showtime, dto: UpdateShowtimeDto): (r: Showtime)
    ensures r.id == s.id && r.availableSeats == s.availableSeats
    ensures r.movieId == dto.movieId.GetOr(s.movieId) && r.theater == dto.theater.GetOr(s.theater)
    ensures r.startTime == dto.startTime.GetOr(s.startTime) && r.endTime == dto.endTime.GetOr(s.endTime)
    ensures r.price == dto.price.GetOr(s.price) && r.totalSeats == dto.totalSeats.GetOr(s.totalSeats)
  {
    s.(movieId := dto.movieId.GetOr(s.movieId),
       theater := dto.theater.GetOr(s.theater),
       startTime := dto.startTime.GetOr(s.startTime),
       endTime := dto.endTime.GetOr(s.endTime),
       price := dto.price.GetOr(s.price),
       totalSeats := dto.totalSeats.GetOr(s.totalSeats))
  }

  /** Applying the same update twice is the same as applying it once;
      an update with no fields changes nothing. */
  lemma AssignIdempotent(s: Showtime, dto: UpdateShowtimeDto)
    ensures Assign(Assign(s, dto), dto) == Assign(s, dto)
    ensures Assign(s, UpdateShowtimeDto(None, None, None, None, None, None)) == s
  {
  }

  predicate TimesSupplied(dto: UpdateShowtimeDto) {
    dto.startTime.Some? || dto.endTime.Some?
  }

  /** `updateShowtimeDto.theater || showtime.theater`: the theater the overlap
      query of update looks in; an empty name falls back to the stored one. */
  function OverlapTheater(theater: Option<string>, stored: string): string {
    if theater.Some? && theater.value != "" then theater.value else stored
  }

  /** Showtime update, checks in source order: the showtime exists, the new
      movie (if any) exists, and, only when a time is supplied, the merged
      times are ordered and overlap no other showtime of the merged theater;
      any failure (the missing showtime included) is "Failed to update showtime".
      The row being updated is left out of the overlap query, so a showtime
      may be moved within or across its own old window. */
  function UpdateShowtime(m: map<int, Showtime>, movies: set<int>, id: int, dto: UpdateShowtimeDto)
    : (r: Result<Showtime, ShowtimeError>)
    ensures r.Failure? ==> r.error == FailedToUpdate
    ensures r.Success? <==>
      && id in m
      && (dto.movieId.Some? ==> dto.movieId.value in movies)
      && (TimesSupplied(dto) ==>
            var s := Assign(m[id], dto);
            && s.startTime < s.endTime
            && forall k :: k in m && k != id && m[k].theater == OverlapTheater(dto.theater, m[id].theater)
                 ==> !Overlaps(m[k].startTime, m[k].endTime, s.startTime, s.endTime))
    ensures r.Success? ==> r.value == Assign(m[id], dto)
  {
    if id !in m then Failure(FailedToUpdate)
    else
      var showtime := m[id];
      if dto.movieId.Some? && dto.movieId.value !in movies then Failure(FailedToUpdate)
      else if TimesSupplied(dto) && dto.startTime.GetOr(showtime.startTime) >= dto.endTime.GetOr(showtime.endTime)
      then Failure(FailedToUpdate)
      else if TimesSupplied(dto)
        && HasOverlap(m, OverlapTheater(dto.theater, showtime.theater),
                      dto.startTime.GetOr(showtime.startTime), dto.endTime.GetOr(showtime.endTime), Some(id))
      then Failure(FailedToUpdate)
      else Success(Assign(showtime, dto))
  }

  /** An update that supplies a time (and a non-empty theater, if any) keeps
      every theater free of overlaps. */
  lemma UpdateKeepsTheatersFree(m: map<int, Showtime>, movies: set<int>, id: int, dto: UpdateShowtimeDto)
    requires TheatersFree(m) && TimesSupplied(dto) && dto.theater != Some("")
    requires UpdateShowtime(m, movies, id, dto).Success?
    ensures TheatersFree(m[id := UpdateShowtime(m, movies, id, dto).value])
  {
    var s := UpdateShowtime(m, movies, id, dto).value;
    var m' := m[id := s];
    forall i, j | i in m' && j in m' && i != j && m'[i].theater == m'[j].theater
      ensures !Overlaps(m'[i].startTime, m'[i].endTime, m'[j].startTime, m'[j].endTime)
    {
      if i == id {
        assert !Overlaps(m[j].startTime, m[j].endTime, s.startTime, s.endTime);
      } else if j == id {
        assert !Overlaps(m[i].startTime, m[i].endTime, s.startTime, s.endTime);
      }
    }
  }

  /** Self-exclusion: with no other showtime in its theater, a showtime may
      start later inside its own old window, although the new window
      overlaps the old one. */
  lemma ShiftWithinOwnWindowAccepted(m: map<int, Showtime>, movies: set<int>, id: int, newStart: int)
    requires id in m && m[id].startTime <= newStart < m[id].endTime
    requires forall k :: k in m && k != id ==> m[k].theater != m[id].theater
    ensures Overlaps(m[id].startTime, m[id].endTime, newStart, m[id].endTime)
    ensures UpdateShowtime(m, movies, id, UpdateShowtimeDto(None, None, Some(newStart), None, None, None))
         == Success(m[id].(startTime := newStart))
  {
    var dto := UpdateShowtimeDto(None, None, Some(newStart), None, None, None);
    assert OverlapTheater(dto.theater, m[id].theater) == m[id].theater;
  }

  /** The overlap query looks in the stored theater when the supplied one is
      empty, while the empty name is what gets stored: an update that renames
      a theater to "" can double-book the theater of that name. */
  lemma EmptyTheaterUpdateCanOverlap()
    ensures
      var a := Showtime(1, 1, "", 0, 10, 500, 100, 100);
      var b := Showtime(2, 1, "X", 20, 30, 500, 100, 100);
      var m := map[1 := a, 2 := b];
      var dto := UpdateShowtimeDto(None, Some(""), Some(5), None, None, None);
      && TheatersFree(m)
      && UpdateShowtime(m, {1}, 2, dto).Success?
      && !TheatersFree(m[2 := UpdateShowtime(m, {1}, 2, dto).value])
  {
    var a := Showtime(1, 1, "", 0, 10, 500, 100, 100);
    var b := Showtime(2, 1, "X", 20, 30, 500, 100, 100);
    var m := map[1 := a, 2 := b];
    var dto := UpdateShowtimeDto(None, Some(""), Some(5), None, None, None);
    assert OverlapTheater(dto.theater, b.theater) == "X";
    var m' := m[2 := UpdateShowtime(m, {1}, 2, dto).value];
    assert m'[1].theater == m'[2].theater == "";
  }

  /** The overlap check runs only when a time is supplied: moving a showtime
      to another theater without touching its times can double-book that theater. */
  lemma TheaterOnlyUpdateCanOverlap()
    ensures
      var a := Showtime(1, 1, "A", 0, 10, 500, 100, 100);
      var b := Showtime(2, 1, "B", 0, 10, 500, 100, 100);
      var m := map[1 := a, 2 := b];
      var dto := UpdateShowtimeDto(None, Some("A"), None, None, None, None);
      && TheatersFree(m)
      && UpdateShowtime(m, {1}, 2, dto).Success?
      && !TheatersFree(m[2 := UpdateShowtime(m, {1}, 2, dto).value])
  {
    var a := Showtime(1, 1, "A", 0, 10, 500, 100, 100);
    var b := Showtime(2, 1, "B", 0, 10, 500, 100, 100);
    var m := map[1 := a, 2 := b];
    var dto := UpdateShowtimeDto(None, Some("A"), None, None, None, None);
    var m' := m[2 := UpdateShowtime(m, {1}, 2, dto).value];
    assert m'[1].theater == m'[2].theater == "A";
  }

  /** `updateAvailableSeats` on a found showtime: refuses when fewer seats are
      left than asked for, otherwise takes exactly that many; the count left
      is never negative. */
  function TakeSeats(s: Showtime, seatsToBook: int): (r: Result<Showtime, ShowtimeError>)
    ensures r.Success? <==> seatsToBook <= s.availableSeats
    ensures r.Failure? ==> r.error == NotEnoughSeats
    ensures r.Success? ==> r.value == s.(availableSeats := r.value.availableSeats)
    ensures r.Success? ==> r.value.availableSeats + seatsToBook == s.availableSeats
    ensures r.Success? ==> r.value.availableSeats >= 0
  {
    if s.availableSeats < seatsToBook then Failure(NotEnoughSeats)
    else Success(s.(availableSeats := s.availableSeats - seatsToBook))
  }

  /** What the repository keeps: every row stored under its own id, ids
      below the next one handed out, a positive-length window and a
      counter that never went negative. */
  ghost predicate TableValid(m: map<int, Showtime>, nextId: int) {
    && nextId >= 1
    && forall id :: id in m ==>
         && m[id].id == id && 1 <= id < nextId
         && m[id].startTime < m[id].endTime
         && m[id].availableSeats >= 0
  }

  /** The showtimes repository, keyed by id, and the ids of the movies that exist. */
  class ShowtimesService {
    var showtimes: map<int, Showtime>
    var nextId: int
    const movies: set<int>

    ghost predicate Valid()
      reads this
    {
      TableValid(showtimes, nextId)
    }

    constructor (movies: set<int>)
      ensures Valid() && showtimes == map[] && nextId == 1 && this.movies == movies
    {
      showtimes := map[];
      nextId := 1;
      this.movies := movies;
    }

    /** `findOne`: the stored showtime, or NotFound. */
    function FindOne(id: int): (r: Result<Showtime, ShowtimeError>)
      reads this
      requires Valid()
      ensures r.Success? <==> id in showtimes
      ensures r.Success? ==> r.value == showtimes[id] && r.value.id == id
      ensures r.Failure? ==> r.error == NotFound(id)
    {
      if id in showtimes then Success(showtimes[id]) else Failure(NotFound(id))
    }

    method Create(dto: CreateShowtimeDto) returns (r: Result<Showtime, ShowtimeError>)
      requires Valid() && CreateDtoValid(dto)
      modifies this
      ensures Valid()
      ensures r == CreateShowtime(old(showtimes), movies, old(nextId), dto)
      ensures r.Success? ==> showtimes == old(showtimes)[old(nextId) := r.value] && nextId == old(nextId) + 1
      ensures r.Failure? ==> showtimes == old(showtimes) && nextId == old(nextId)
      ensures old(TheatersFree(showtimes)) ==> TheatersFree(showtimes)
    {
      if dto.movieId !in movies {
        return Failure(FailedToCreate);
      }
      if dto.startTime >= dto.endTime {
        return Failure(FailedToCreate);
      }
      if HasOverlap(showtimes, dto.theater, dto.startTime, dto.endTime, None) {
        return Failure(FailedToCreate);
      }
      var showtime := NewShowtime(nextId, dto);
      if TheatersFree(showtimes) {
        CreateKeepsTheatersFree(showtimes, movies, nextId, dto);
      }
      showtimes := showtimes[nextId := showtime];
      nextId := nextId + 1;
      r := Success(showtime);
    }

    method Update(id: int, dto: UpdateShowtimeDto) returns (r: Result<Showtime, ShowtimeError>)
      requires Valid() && UpdateDtoValid(dto)
      modifies this
      ensures Valid() && nextId == old(nextId)
      ensures r == UpdateShowtime(old(showtimes), movies, id, dto)
      ensures r.Success? ==> showtimes == old(showtimes)[id := r.value]
      ensures r.Failure? ==> showtimes == old(showtimes)
      ensures old(TheatersFree(showtimes)) && TimesSupplied(dto) ==> TheatersFree(showtimes)
    {
      var found := FindOne(id);
      if found.Failure? {
        return Failure(FailedToUpdate);
      }
      var showtime := found.value;
      if dto.movieId.Some? && dto.movieId.value !in movies {
        return Failure(FailedToUpdate);
      }
      if TimesSupplied(dto) {
        var startTime := dto.startTime.GetOr(showtime.startTime);
        var endTime := dto.endTime.GetOr(showtime.endTime);
        if startTime >= endTime {
          return Failure(FailedToUpdate);
        }
        if HasOverlap(showtimes, OverlapTheater(dto.theater, showtime.theater), startTime, endTime, Some(id)) {
          return Failure(FailedToUpdate);
        }
      }
      if TimesSupplied(dto) && TheatersFree(showtimes) {
        UpdateKeepsTheatersFree(showtimes, movies, id, dto);
      }
      showtime := Assign(showtime, dto);
      showtimes := showtimes[id := showtime];
      r := Success(showtime);
    }

    method UpdateAvailableSeats(id: int, seatsToBook: int) returns (err: Option<ShowtimeError>)
      requires Valid()
      modifies this
      ensures Valid() && nextId == old(nextId)
      ensures id !in old(showtimes) ==> err == Some(NotFound(id)) && showtimes == old(showtimes)
      ensures id in old(showtimes) ==>
        var r := TakeSeats(old(showtimes)[id], seatsToBook);
        && (r.Failure? ==> err == Some(r.error) && showtimes == old(showtimes))
        && (r.Success? ==> err == None && showtimes == old(showtimes)[id := r.value])
    {
      var found := FindOne(id);
      if found.Failure? {
        return Some(found.error);
      }
      var showtime := found.value;
      if showtime.availableSeats < seatsToBook {
        return Some(NotEnoughSeats);
      }
      showtime := showtime.(availableSeats := showtime.availableSeats - seatsToBook);
      showtimes := showtimes[id := showtime];
      err := None;
    }
  }
}
