/** `BookingSerializer` and the booking endpoints' write paths: field checks,
    the date-order and overlap validation, creation (which attaches the user
    and room and fires the counter signal) and partial update.

    Two versions of the overlap check are modelled. `ValidateAsWritten` reads
    the room from the key `room`, which the validated data never has (the
    writable field is `room_id`), so its query is scoped to "room is null"
    and finds nothing. `Validate` scopes the query to `room_id`, which is what
    the check is evidently for. The endpoints take a `Variant` that selects
    one of the two. */
module Bookings {

  import opened Wrappers
  import opened Seqs
  import opened Text
  import opened Schema
  import opened BookingSignals

  /** Statuses that hold a room: only these can conflict with a new stay. */
  predicate HoldsRoom(status: string) {
    status == "active" || status == "confirmed"
  }

  /** Stays are half-open intervals [start, end): they overlap exactly when
      each starts before the other ends. */
  predicate StaysOverlap(aStart: Date, aEnd: Date, bStart: Date, bEnd: Date) {
    aStart < bEnd && aEnd > bStart
  }

  /** Back-to-back stays (one ends the day the other starts) do not overlap. */
  lemma BackToBackStaysDoNotOverlap(aStart: Date, mid: Date, bEnd: Date)
    ensures !StaysOverlap(aStart, mid, mid, bEnd)
    ensures !StaysOverlap(mid, bEnd, aStart, mid)
  {
  }

  /** Overlap is symmetric. */
  lemma StaysOverlapSymmetric(aStart: Date, aEnd: Date, bStart: Date, bEnd: Date)
    ensures StaysOverlap(aStart, aEnd, bStart, bEnd) <==> StaysOverlap(bStart, bEnd, aStart, aEnd)
  {
  }

  /** The request fields the serializer accepts, after parsing: an absent key
      is `None`. The relation fields are named `user_id` and `room_id`. */
  datatype BookingData = BookingData(
    userId: Option<Id>,
    roomId: Option<Id>,
    startDate: Option<Date>,
    endDate: Option<Date>,
    status: Option<string>)

  datatype BookingError =
    | FieldRequired       // a required field is missing on creation
    | UserNotFound        // `user_id` names no user
    | RoomNotFound        // `room_id` names no room
    | StatusInvalid       // blank, or longer than 50 characters
    | EndNotAfterStart    // "End date must be after start date."
    | RoomAlreadyBooked   // "This room is already booked for the selected dates."
    | NotFound            // no booking with that id

  // ---------------------------------------------------------------------
  // Field-level checks

  /** A status is stored stripped; it must then be non-blank and at most
      50 characters. */
  predicate StatusAccepted(status: string) {
    CharFieldAccepts(status, Some(StatusMaxLength))
  }

  predicate FieldsValid(db: Db, data: BookingData, partial: bool) {
    && (!partial ==> data.userId.Some? && data.roomId.Some? && data.startDate.Some? && data.endDate.Some? && data.status.Some?)
    && (data.userId.Some? ==> data.userId.value in UserIds(db))
    && (data.roomId.Some? ==> data.roomId.value in RoomIds(db))
    && (data.status.Some? ==> StatusAccepted(data.status.value))
  }

  /** The field checks that run before `validate`; the status comes out stripped. */
  function CheckFields(db: Db, data: BookingData, partial: bool): (r: Result<BookingData, BookingError>)
    ensures r.Ok? <==> FieldsValid(db, data, partial)
    ensures r.Ok? ==> r.value == data.(status := if data.status.Some? then Some(Strip(data.status.value)) else None)
  {
    if !partial && !(data.userId.Some? && data.roomId.Some? && data.startDate.Some? && data.endDate.Some? && data.status.Some?) then
      Err(FieldRequired)
    else if data.userId.Some? && data.userId.value !in UserIds(db) then Err(UserNotFound)
    else if data.roomId.Some? && data.roomId.value !in RoomIds(db) then Err(RoomNotFound)
    else if data.status.Some? && !StatusAccepted(data.status.value) then Err(StatusInvalid)
    else Ok(data.(status := if data.status.Some? then Some(Strip(data.status.value)) else None))
  }

  // ---------------------------------------------------------------------
  // validate()

  /** The overlap query: bookings of `room` that hold it and overlap
      [start, end). `room == None` is the query `room=None`, which matches
      only bookings without a room, and every booking has one. */
  function Conflicts(bs: seq<Booking>, room: Option<Id>, start: Date, end: Date): (r: seq<Booking>)
    ensures forall b :: b in r <==>
      b in bs && room == Some(b.room) && HoldsRoom(b.status) && StaysOverlap(b.startDate, b.endDate, start, end)
  {
    Filter(bs, (b: Booking) => room == Some(b.room) && b.startDate < end && b.endDate > start && HoldsRoom(b.status))
  }

  /** `BookingSerializer.validate` as written: the room comes from the key
      `room`, which the validated data does not have. */
  function ValidateAsWritten(db: Db, data: BookingData): (r: Result<BookingData, BookingError>)
    ensures r.Ok? ==> r.value == data
    ensures r.Err? <==> data.startDate.Some? && data.endDate.Some? && data.startDate.value >= data.endDate.value
    ensures r.Err? ==> r.error == EndNotAfterStart
  {
    var room: Option<Id> := None;
    if data.startDate.Some? && data.endDate.Some? then
      if data.startDate.value >= data.endDate.value then Err(EndNotAfterStart)
      else
        var found := Conflicts(db.bookings, room, data.startDate.value, data.endDate.value);
        assert found == [];
        if |found| > 0 then Err(RoomAlreadyBooked)
        else Ok(data)
    else Ok(data)
  }

  /** The stay `data` asks for collides with a booking that holds its room. */
  predicate ClashesWithHeldStay(db: Db, data: BookingData)
    requires data.startDate.Some? && data.endDate.Some?
  {
    exists b | b in db.bookings ::
      && data.roomId == Some(b.room)
      && HoldsRoom(b.status)
      && StaysOverlap(b.startDate, b.endDate, data.startDate.value, data.endDate.value)
  }

  /** `validate` with the overlap query scoped to the room named by `room_id`.
      Both checks run only when both dates are present; on success the data
      is returned unchanged. */
  function Validate(db: Db, data: BookingData): (r: Result<BookingData, BookingError>)
    ensures r.Ok? ==> r.value == data
    ensures data.startDate.None? || data.endDate.None? ==> r == Ok(data)
    ensures data.startDate.Some? && data.endDate.Some? && data.startDate.value >= data.endDate.value ==>
      r == Err(EndNotAfterStart)
    ensures r == Err(RoomAlreadyBooked) <==>
      data.startDate.Some? && data.endDate.Some? && data.startDate.value < data.endDate.value
      && ClashesWithHeldStay(db, data)
    ensures r.Err? ==> r.error == EndNotAfterStart || r.error == RoomAlreadyBooked
  {
    if data.startDate.Some? && data.endDate.Some? then
      if data.startDate.value >= data.endDate.value then Err(EndNotAfterStart)
      else
        var found := Conflicts(db.bookings, data.roomId, data.startDate.value, data.endDate.value);
        if |found| > 0 then
          assert found[0] in found;
          Err(RoomAlreadyBooked)
        else
          Ok(data)
    else Ok(data)
  }

  /** Cancelled, rejected or any other non-holding bookings never block a stay. */
  lemma OnlyHeldStaysBlock(db: Db, data: BookingData, b: Booking)
    requires b in db.bookings && !HoldsRoom(b.status)
    requires data.startDate.Some? && data.endDate.Some? && data.startDate.value < data.endDate.value
    requires Validate(db.(bookings := Filter(db.bookings, (x: Booking) => x != b)), data).Ok?
    ensures Validate(db, data).Ok?
  {
    var others := Filter(db.bookings, (x: Booking) => x != b);
    if ClashesWithHeldStay(db, data) {
      var c :| c in db.bookings && data.roomId == Some(c.room) && HoldsRoom(c.status)
        && StaysOverlap(c.startDate, c.endDate, data.startDate.value, data.endDate.value);
      assert c in others;
      assert ClashesWithHeldStay(db.(bookings := others), data);
    }
  }

  /** Which code a program-level member runs: the code as written, or the
      code with the overlap query scoped by `room_id` (and, in the search,
      only holding bookings counted). */
  datatype Variant = AsWritten | Corrected

  /** The dates `validate` lets through: when both are present the stay ends
      after it starts and, once the query is scoped, collides with no stay
      that holds the requested room. */
  predicate DatesAdmitted(v: Variant, db: Db, data: BookingData) {
    data.startDate.Some? && data.endDate.Some? ==>
      && data.startDate.value < data.endDate.value
      && (v == Corrected ==> !ClashesWithHeldStay(db, data))
  }

  /** `validate` in the chosen variant: it passes the data through unchanged
      exactly when the dates are admitted. */
  function ValidateBy(v: Variant, db: Db, data: BookingData): (r: Result<BookingData, BookingError>)
    ensures r.Ok? <==> DatesAdmitted(v, db, data)
    ensures r.Ok? ==> r.value == data
    ensures r.Err? ==> r.error == EndNotAfterStart || (v == Corrected && r.error == RoomAlreadyBooked)
  {
    if v == AsWritten then ValidateAsWritten(db, data) else Validate(db, data)
  }

  /** The overlap check reads only the room and the dates: the status a
      request carries never changes whether it clashes. */
  lemma ClashIgnoresStatus(db: Db, data: BookingData, status: Option<string>)
    requires data.startDate.Some? && data.endDate.Some?
    ensures ClashesWithHeldStay(db, data.(status := status)) == ClashesWithHeldStay(db, data)
  {
  }

  // ---------------------------------------------------------------------
  // Creation

  /** An id above every existing booking id (the database's auto-increment). */
  function NextBookingId(bs: seq<Booking>): (id: Id)
    ensures forall b | b in bs :: b.id < id
  {
    if bs == [] then 1
    else
      var rest := NextBookingId(bs[1..]);
      assert forall b | b in bs :: b == bs[0] || b in bs[1..];
      if bs[0].id + 1 > rest then bs[0].id + 1 else rest
  }

  /** The outcome of a successful creation: the new database and the row. */
  datatype Created = Created(db: Db, booking: Booking)

  /** `BookingSerializer.create`: the booking gets exactly the user and room
      named by `user_id` and `room_id` and the other validated fields as
      given; saving it fires the signal with `created` set. */
  function Insert(db: Db, data: BookingData, now: Instant): (r: Created)
    requires data.userId.Some? && data.roomId.Some? && data.startDate.Some? && data.endDate.Some? && data.status.Some?
    ensures r.booking.user == data.userId.value && r.booking.room == data.roomId.value
    ensures r.booking.startDate == data.startDate.value && r.booking.endDate == data.endDate.value
    ensures r.booking.status == data.status.value
    ensures r.booking.createdAt == now && r.booking.updatedAt == now
    ensures forall b | b in db.bookings :: b.id != r.booking.id
    ensures r.db == OnBookingSaved(db.(bookings := db.bookings + [r.booking]), r.booking, true)
  {
    var b := Booking(NextBookingId(db.bookings), data.userId.value, data.roomId.value,
      data.startDate.value, data.endDate.value, now, now, data.status.value);
    Created(OnBookingSaved(db.(bookings := db.bookings + [b]), b, true), b)
  }

  /** `POST /bookings/`: field checks, `validate`, then `create`. As written
      the request fails only on a field error or on a stay that does not end
      after it starts; the corrected check also refuses a stay that collides
      with one holding the same room. */
  function CreateBooking(v: Variant, db: Db, data: BookingData, now: Instant): (r: Result<Created, BookingError>)
    ensures r.Err? <==>
      || !FieldsValid(db, data, false)
      || data.startDate.value >= data.endDate.value
      || (v == Corrected && ClashesWithHeldStay(db, data))
    ensures r.Ok? ==> r.value.db.bookings == db.bookings + [r.value.booking]
    ensures r.Ok? ==> forall b | b in db.bookings :: b.id != r.value.booking.id
    ensures r.Ok? ==>
      && r.value.booking.user == data.userId.value && r.value.booking.room == data.roomId.value
      && r.value.booking.startDate == data.startDate.value && r.value.booking.endDate == data.endDate.value
      && r.value.booking.status == Strip(data.status.value)
      && r.value.booking.createdAt == now && r.value.booking.updatedAt == now
    ensures r.Ok? ==>
      && |r.value.db.profiles| == |db.profiles| && |r.value.db.rooms| == |db.rooms|
      && (forall i :: 0 <= i < |db.profiles| ==>
            r.value.db.profiles[i].totalBookings == db.profiles[i].totalBookings + (if db.profiles[i].user == data.userId.value then 1 else 0))
      && (forall i :: 0 <= i < |db.rooms| ==>
            r.value.db.rooms[i].totalBookings == db.rooms[i].totalBookings + (if db.rooms[i].id == data.roomId.value then 1 else 0))
    ensures r.Ok? ==> r.value.db == OnBookingSaved(db.(bookings := db.bookings + [r.value.booking]), r.value.booking, true)
  {
    var clean :- CheckFields(db, data, false);
    ClashIgnoresStatus(db, data, clean.status);
    var valid :- ValidateBy(v, db, clean);
    Ok(Insert(db, valid, now))
  }

  // ---------------------------------------------------------------------
  // No double booking

  /** No two bookings that hold the same room overlap. */
  predicate NoDoubleBooking(bs: seq<Booking>) {
    forall i, j | 0 <= i < j < |bs| ::
      bs[i].room == bs[j].room && HoldsRoom(bs[i].status) && HoldsRoom(bs[j].status)
      ==> !StaysOverlap(bs[i].startDate, bs[i].endDate, bs[j].startDate, bs[j].endDate)
  }

  /** A creation admitted by the corrected check never double-books a room. */
  lemma CreateKeepsNoDoubleBooking(db: Db, data: BookingData, now: Instant)
    requires NoDoubleBooking(db.bookings)
    requires CreateBooking(Corrected, db, data, now).Ok?
    ensures NoDoubleBooking(CreateBooking(Corrected, db, data, now).value.db.bookings)
  {
    var c := CreateBooking(Corrected, db, data, now).value;
    var bs := c.db.bookings;
    var n := |db.bookings|;
    forall i, j | 0 <= i < j < |bs| && bs[i].room == bs[j].room && HoldsRoom(bs[i].status) && HoldsRoom(bs[j].status)
      ensures !StaysOverlap(bs[i].startDate, bs[i].endDate, bs[j].startDate, bs[j].endDate)
    {
      if j == n {
        assert bs[i] in db.bookings;
      } else {
        assert bs[i] == db.bookings[i] && bs[j] == db.bookings[j];
      }
    }
  }

  /** A database with one room held by an active stay on days [10, 20). */
  function HeldRoomExample(): Db {
    Db([User(1, "guest@example.com", "", "", [])], [], [], [],
       [Hotel(1, 1, "Inn", "Quay", "Porto", "PT", None, None, None, None)], [], [],
       [Room(1, 1, None, "Suite", 10000, true, None, 1)], [],
       [Booking(1, 1, 1, 10, 20, 0, 0, "active")])
  }

  /** The example is a consistent database: its room belongs to an existing
      hotel, and its hotel and booking to an existing user. */
  lemma HeldRoomExampleIsConsistent()
    ensures Integrity(HeldRoomExample())
  {
    OneRowEachConsistent(HeldRoomExample().users[0], HeldRoomExample().hotels[0],
      HeldRoomExample().rooms[0], HeldRoomExample().bookings[0]);
  }

  /** A user, a hotel of theirs, a room in it and a booking of theirs on that
      room, with no types, form a consistent database. */
  lemma OneRowEachConsistent(u: User, h: Hotel, r: Room, b: Booking)
    requires h.hotelType.None? && r.roomType.None?
    requires h.owner == u.id && r.hotel == h.id && b.user == u.id && b.room == r.id
    ensures Integrity(Db([u], [], [], [], [h], [], [], [r], [], [b]))
  {
  }

  /** A request for the same room on days [12, 15). */
  function OverlappingRequestExample(): BookingData {
    BookingData(Some(1), Some(1), Some(12), Some(15), Some("active"))
  }

  lemma ExampleRequestIsWellFormed()
    ensures FieldsValid(HeldRoomExample(), OverlappingRequestExample(), false)
    ensures CheckFields(HeldRoomExample(), OverlappingRequestExample(), false) == Ok(OverlappingRequestExample())
  {
    var db := HeldRoomExample();
    assert db.users[0].id == 1 && db.rooms[0].id == 1;
    StripUnpadded("active");
  }

  lemma HeldRoomExampleHasNoDoubleBooking()
    ensures NoDoubleBooking(HeldRoomExample().bookings)
  {
    assert |HeldRoomExample().bookings| == 1;
  }

  lemma ExampleRequestClashes()
    ensures OverlappingRequestExample().startDate.value < OverlappingRequestExample().endDate.value
    ensures HoldsRoom(Strip(OverlappingRequestExample().status.value))
    ensures ClashesWithHeldStay(HeldRoomExample(), OverlappingRequestExample())
  {
    StripUnpadded("active");
    assert HeldRoomExample().bookings[0] in HeldRoomExample().bookings;
  }

  /** The overlap check as written admits any well-formed request whose stay
      collides with a stay that holds the same room, and the stored
      bookings then double-book that room. */
  lemma AsWrittenAdmitsDoubleBooking(db: Db, data: BookingData, now: Instant)
    requires FieldsValid(db, data, false)
    requires data.startDate.value < data.endDate.value && HoldsRoom(Strip(data.status.value))
    requires ClashesWithHeldStay(db, data)
    ensures CreateBooking(AsWritten, db, data, now).Ok?
    ensures !NoDoubleBooking(CreateBooking(AsWritten, db, data, now).value.db.bookings)
  {
    var c := CreateBooking(AsWritten, db, data, now).value;
    var bs := c.db.bookings;
    var b :| b in db.bookings && data.roomId == Some(b.room) && HoldsRoom(b.status)
      && StaysOverlap(b.startDate, b.endDate, data.startDate.value, data.endDate.value);
    var i :| 0 <= i < |db.bookings| && db.bookings[i] == b;
    assert bs[i] == b && bs[|db.bookings|] == c.booking;
  }

  /** The same request is refused once the query is scoped by `room_id`. */
  lemma ScopedCheckRefusesDoubleBooking(db: Db, data: BookingData, now: Instant)
    requires FieldsValid(db, data, false)
    requires data.startDate.value < data.endDate.value
    requires ClashesWithHeldStay(db, data)
    ensures CreateBooking(Corrected, db, data, now) == Err(RoomAlreadyBooked)
  {
    var clean := CheckFields(db, data, false).value;
    assert ClashesWithHeldStay(db, clean) == ClashesWithHeldStay(db, data);
  }

  // ---------------------------------------------------------------------
  // Sequences of creations

  /** Applies booking requests in order; a rejected request changes nothing. */
  function CreateAll(v: Variant, db: Db, requests: seq<(BookingData, Instant)>): (r: Db)
    ensures |r.bookings| >= |db.bookings| && r.bookings[..|db.bookings|] == db.bookings
    decreases |requests|
  {
    if requests == [] then db
    else
      var r := CreateBooking(v, db, requests[0].0, requests[0].1);
      CreateAll(v, if r.Ok? then r.value.db else db, requests[1..])
  }

  /** However many requests arrive, every counter stays equal to its number
      of bookings; with the corrected check, the bookings that hold one room
      also never overlap. */
  lemma {:induction false} CreateAllKeepsInvariants(v: Variant, db: Db, requests: seq<(BookingData, Instant)>)
    requires CountersMatch(db)
    requires v == Corrected ==> NoDoubleBooking(db.bookings)
    ensures CountersMatch(CreateAll(v, db, requests))
    ensures v == Corrected ==> NoDoubleBooking(CreateAll(v, db, requests).bookings)
    decreases |requests|
  {
    if requests != [] {
      var r := CreateBooking(v, db, requests[0].0, requests[0].1);
      if r.Ok? {
        if v == Corrected {
          CreateKeepsNoDoubleBooking(db, requests[0].0, requests[0].1);
        }
        CreationKeepsCountersMatch(db, r.value.booking);
        CreateAllKeepsInvariants(v, r.value.db, requests[1..]);
      } else {
        CreateAllKeepsInvariants(v, db, requests[1..]);
      }
    }
  }

  /** From a database without bookings and with every counter at zero, each
      counter ends equal to the number of bookings created for it, in either
      variant; only the corrected check keeps held stays apart. */
  lemma CountersCountCreations(v: Variant, db: Db, requests: seq<(BookingData, Instant)>)
    requires db.bookings == []
    requires forall p | p in db.profiles :: p.totalBookings == 0
    requires forall x | x in db.rooms :: x.totalBookings == 0
    ensures CountersMatch(CreateAll(v, db, requests))
    ensures v == Corrected ==> NoDoubleBooking(CreateAll(v, db, requests).bookings)
  {
    CreateAllKeepsInvariants(v, db, requests);
  }

  /** Creating a booking keeps the set of room ids and user ids. */
  lemma CreationKeepsIds(v: Variant, db: Db, data: BookingData, now: Instant)
    requires CreateBooking(v, db, data, now).Ok?
    ensures RoomIds(CreateBooking(v, db, data, now).value.db) == RoomIds(db)
    ensures UserIds(CreateBooking(v, db, data, now).value.db) == UserIds(db)
  {
    var d := CreateBooking(v, db, data, now).value.db;
    forall k | k in RoomIds(db) ensures k in RoomIds(d) {
      var x :| x in db.rooms && x.id == k;
      var i :| 0 <= i < |db.rooms| && db.rooms[i] == x;
      assert d.rooms[i] in d.rooms;
    }
    forall k | k in RoomIds(d) ensures k in RoomIds(db) {
      var x :| x in d.rooms && x.id == k;
      var i :| 0 <= i < |d.rooms| && d.rooms[i] == x;
      assert db.rooms[i] in db.rooms;
    }
  }

  /** As written, sending the same request twice books the same room twice
      for the same stay. */
  lemma {:induction false} AsWrittenRepeatDoubleBooks(db: Db, data: BookingData, now: Instant)
    requires FieldsValid(db, data, false)
    requires data.startDate.value < data.endDate.value && HoldsRoom(Strip(data.status.value))
    ensures !NoDoubleBooking(CreateAll(AsWritten, db, [(data, now), (data, now)]).bookings)
  {
    var first := CreateBooking(AsWritten, db, data, now);
    var d1 := first.value.db;
    CreationKeepsIds(AsWritten, db, data, now);
    assert FieldsValid(d1, data, false);
    assert first.value.booking in d1.bookings;
    assert ClashesWithHeldStay(d1, data);
    AsWrittenAdmitsDoubleBooking(d1, data, now);
    CreateAllTwice(AsWritten, db, data, now);
  }

  /** Two admitted requests in a row leave the database the second one makes. */
  lemma CreateAllTwice(v: Variant, db: Db, data: BookingData, now: Instant)
    requires CreateBooking(v, db, data, now).Ok?
    requires CreateBooking(v, CreateBooking(v, db, data, now).value.db, data, now).Ok?
    ensures CreateAll(v, db, [(data, now), (data, now)])
         == CreateBooking(v, CreateBooking(v, db, data, now).value.db, data, now).value.db
  {
    var d1 := CreateBooking(v, db, data, now).value.db;
    var d2 := CreateBooking(v, d1, data, now).value.db;
    var reqs := [(data, now), (data, now)];
    assert reqs[1..] == [(data, now)] && reqs[1..][1..] == [];
    assert CreateAll(v, db, reqs) == CreateAll(v, d1, [(data, now)]);
    assert CreateAll(v, d1, [(data, now)]) == CreateAll(v, d2, []);
  }

  // ---------------------------------------------------------------------
  // Partial update

  /** The booking after the present fields of `data` are written to it. */
  function Patched(b: Booking, data: BookingData, now: Instant): (r: Booking)
    ensures r.id == b.id && r.createdAt == b.createdAt && r.updatedAt == now
    ensures r.user == data.userId.GetOr(b.user) && r.room == data.roomId.GetOr(b.room)
    ensures r.startDate == data.startDate.GetOr(b.startDate) && r.endDate == data.endDate.GetOr(b.endDate)
    ensures r.status == data.status.GetOr(b.status)
  {
    Booking(b.id, data.userId.GetOr(b.user), data.roomId.GetOr(b.room),
      data.startDate.GetOr(b.startDate), data.endDate.GetOr(b.endDate),
      b.createdAt, now, data.status.GetOr(b.status))
  }

  /** Replaces every booking whose id is `id` by its patched version. */
  function PatchAll(bs: seq<Booking>, id: Id, data: BookingData, now: Instant): (r: seq<Booking>)
    ensures |r| == |bs|
    ensures forall i :: 0 <= i < |bs| ==> r[i] == if bs[i].id == id then Patched(bs[i], data, now) else bs[i]
  {
    seq(|bs|, i requires 0 <= i < |bs| => if bs[i].id == id then Patched(bs[i], data, now) else bs[i])
  }

  /** `PUT`/`PATCH /bookings/<id>/`, always partial: only the fields sent are
      checked and written, `room_id` and `user_id` included; saving fires the
      signal with `created` unset, so no counter moves. */
  function UpdateBooking(v: Variant, db: Db, id: Id, data: BookingData, now: Instant): (r: Result<Db, BookingError>)
    ensures (forall b | b in db.bookings :: b.id != id) ==> r == Err(NotFound)
    ensures r.Ok? <==>
      && (exists b | b in db.bookings :: b.id == id)
      && FieldsValid(db, data, true)
      && DatesAdmitted(v, db, data)
    ensures r.Ok? ==> |r.value.bookings| == |db.bookings|
    ensures r.Ok? ==> forall i :: 0 <= i < |db.bookings| && db.bookings[i].id != id ==> r.value.bookings[i] == db.bookings[i]
    ensures r.Ok? ==> forall i | 0 <= i < |db.bookings| && db.bookings[i].id == id ::
      r.value.bookings[i] == Patched(db.bookings[i], CheckFields(db, data, true).value, now)
    ensures r.Ok? ==> r.value == db.(bookings := r.value.bookings)
  {
    var target := Find(db.bookings, (b: Booking) => b.id, id);
    if target.None? then Err(NotFound)
    else
      var clean :- CheckFields(db, data, true);
      assert DatesAdmitted(v, db, clean) == DatesAdmitted(v, db, data) by {
        if data.startDate.Some? && data.endDate.Some? {
          ClashIgnoresStatus(db, data, clean.status);
        }
      }
      var valid :- ValidateBy(v, db, clean);
      var patched := db.(bookings := PatchAll(db.bookings, id, valid, now));
      Ok(OnBookingSaved(patched, Patched(target.value, valid, now), false))
  }

  /** A request that sends only a status cannot fail the date or overlap
      check, and leaves dates, room and user of the booking as they were. */
  lemma StatusOnlyUpdate(v: Variant, db: Db, id: Id, status: string, now: Instant)
    requires exists b | b in db.bookings :: b.id == id
    requires StatusAccepted(status)
    ensures var r := UpdateBooking(v, db, id, BookingData(None, None, None, None, Some(status)), now);
      && r.Ok?
      && forall i :: 0 <= i < |db.bookings| ==>
        && r.value.bookings[i].user == db.bookings[i].user
        && r.value.bookings[i].room == db.bookings[i].room
        && r.value.bookings[i].startDate == db.bookings[i].startDate
        && r.value.bookings[i].endDate == db.bookings[i].endDate
        && r.value.bookings[i].status == (if db.bookings[i].id == id then Strip(status) else db.bookings[i].status)
  {
  }

  /** A request that sends only `room_id` moves the booking to that room,
      keeping its stay, booker and status. */
  lemma RoomOnlyUpdateMovesBooking(v: Variant, db: Db, id: Id, room: Id, now: Instant)
    requires exists b | b in db.bookings :: b.id == id
    requires room in RoomIds(db)
    ensures var r := UpdateBooking(v, db, id, BookingData(None, Some(room), None, None, None), now);
      && r.Ok?
      && forall i :: 0 <= i < |db.bookings| && db.bookings[i].id == id ==>
        r.value.bookings[i] == db.bookings[i].(room := room, updatedAt := now)
  {
  }

  /** Two distinct bookings that hold one room for overlapping stays
      break the invariant, in whichever order they are stored. */
  lemma ClashBreaksNoDoubleBooking(bs: seq<Booking>, i: nat, j: nat)
    requires i < |bs| && j < |bs| && i != j
    requires bs[i].room == bs[j].room && HoldsRoom(bs[i].status) && HoldsRoom(bs[j].status)
    requires StaysOverlap(bs[i].startDate, bs[i].endDate, bs[j].startDate, bs[j].endDate)
    ensures !NoDoubleBooking(bs)
  {
    if j < i {
      StaysOverlapSymmetric(bs[i].startDate, bs[i].endDate, bs[j].startDate, bs[j].endDate);
    }
  }

  /** The request that sets a booking's status and nothing else. */
  function StatusRequest(status: string): BookingData {
    BookingData(None, None, None, None, Some(status))
  }

  /** A status-only update rewrites the status of the booking it names
      and leaves its stay and every other booking as they were. */
  lemma StatusRequestKeepsStay(v: Variant, db: Db, now: Instant, dropped: nat, status: string)
    requires dropped < |db.bookings|
    requires forall k | 0 <= k < |db.bookings| && k != dropped :: db.bookings[k].id != db.bookings[dropped].id
    requires StatusAccepted(status)
    ensures var r := UpdateBooking(v, db, db.bookings[dropped].id, StatusRequest(status), now);
      && r.Ok? && |r.value.bookings| == |db.bookings|
      && r.value.bookings[dropped].status == Strip(status)
      && r.value.bookings[dropped].room == db.bookings[dropped].room
      && r.value.bookings[dropped].startDate == db.bookings[dropped].startDate
      && r.value.bookings[dropped].endDate == db.bookings[dropped].endDate
      && forall k | 0 <= k < |db.bookings| && k != dropped :: r.value.bookings[k] == db.bookings[k]
  {
    var req := StatusRequest(status);
    var id := db.bookings[dropped].id;
    assert db.bookings[dropped] in db.bookings;
    var clean := CheckFields(db, req, true).value;
    assert clean == StatusRequest(Strip(status));
    assert ValidateBy(v, db, clean) == Ok(clean);
    var r := UpdateBooking(v, db, id, req, now);
    assert r.Ok?;
    assert r.value.bookings[dropped] == Patched(db.bookings[dropped], clean, now);
  }

  /** A status-only update skips the overlap check, so setting a booking
      back to a holding status inside a stay that another booking holds on
      the same room is accepted in either variant, and the room is then
      double-booked: `NoDoubleBooking` is an invariant of creation only. */
  lemma ReactivationCanDoubleBook(v: Variant, db: Db, now: Instant, held: nat, dropped: nat, status: string)
    requires held < |db.bookings| && dropped < |db.bookings| && held != dropped
    requires forall k | 0 <= k < |db.bookings| && k != dropped :: db.bookings[k].id != db.bookings[dropped].id
    requires db.bookings[held].room == db.bookings[dropped].room && HoldsRoom(db.bookings[held].status)
    requires StaysOverlap(db.bookings[held].startDate, db.bookings[held].endDate,
                          db.bookings[dropped].startDate, db.bookings[dropped].endDate)
    requires StatusAccepted(status) && HoldsRoom(Strip(status))
    ensures UpdateBooking(v, db, db.bookings[dropped].id, StatusRequest(status), now).Ok?
    ensures !NoDoubleBooking(UpdateBooking(v, db, db.bookings[dropped].id, StatusRequest(status), now).value.bookings)
  {
    StatusRequestKeepsStay(v, db, now, dropped, status);
    var after := UpdateBooking(v, db, db.bookings[dropped].id, StatusRequest(status), now).value.bookings;
    assert after[held] == db.bookings[held];
    ClashBreaksNoDoubleBooking(after, held, dropped);
  }
}
