/** `BookingViewSet`: every endpoint needs a signed-in requester; lists come
    newest first (the model's default ordering on `created_at`); `me` and
    `owner` are exact filters whose rows are shown through
    `MyBookingsSerializer`, which nests the room and the booker. The
    `Variant` selects the overlap check as written or corrected. */
module BookingViews {

  import opened Wrappers
  import opened Seqs
  import opened Sorting
  import opened Schema
  import opened Bookings
  import opened RoomSerializer
  import opened Accounts

  datatype ViewError =
    | NotAuthenticated            // refused by the `IsAuthenticated` permission
    | Invalid(reason: BookingError)
    | ServerError                 // serialising the answer raised

  /** The default ordering: newer `created_at` first. */
  predicate NewerFirst(a: Booking, b: Booking) {
    a.createdAt >= b.createdAt
  }

  lemma NewerFirstIsTotalPreorder(s: seq<Booking>)
    ensures TotalPreorderOn(s, NewerFirst)
  {
  }

  /** Any set of bookings as a list: the same rows, newest first. */
  function NewestFirst(bs: seq<Booking>): (r: seq<Booking>)
    ensures multiset(r) == multiset(bs)
    ensures forall i, j | 0 <= i < j < |r| :: r[i].createdAt >= r[j].createdAt
    ensures forall b :: b in r <==> b in bs
  {
    NewerFirstIsTotalPreorder(bs);
    var r := SortBy(bs, NewerFirst);
    SameMultisetSameElements(r, bs);
    r
  }

  /** The booking is on a room of a hotel that `u` owns: the join
      `room__hotel__owner`. */
  predicate OnHotelOwnedBy(db: Db, b: Booking, u: Id) {
    exists r | r in db.rooms :: r.id == b.room && exists h | h in db.hotels :: h.id == r.hotel && h.owner == u
  }

  /** `GET /bookings/`: every booking, for any signed-in requester. */
  function ListBookings(db: Db, who: Requester): (r: Result<seq<Booking>, ViewError>)
    ensures who.Anonymous? <==> r == Err(NotAuthenticated)
    ensures r.Ok? ==> multiset(r.value) == multiset(db.bookings)
    ensures r.Ok? ==> forall i, j | 0 <= i < j < |r.value| :: r.value[i].createdAt >= r.value[j].createdAt
  {
    if who.Anonymous? then Err(NotAuthenticated) else Ok(NewestFirst(db.bookings))
  }

  /** The rows of `GET /bookings/me/`: exactly `u`'s own bookings. */
  function MyBookingRows(db: Db, u: Id): (r: seq<Booking>)
    ensures forall b :: b in r <==> b in db.bookings && b.user == u
    ensures forall b :: multiset(r)[b] == if b.user == u then multiset(db.bookings)[b] else 0
    ensures forall i, j | 0 <= i < j < |r| :: r[i].createdAt >= r[j].createdAt
  {
    var mine := Filter(db.bookings, (b: Booking) => b.user == u);
    FilterExact(db.bookings, (b: Booking) => b.user == u);
    NewestFirst(mine)
  }

  /** The rows of `GET /bookings/owner/`: exactly the bookings on rooms of
      `u`'s hotels. */
  function OwnerBookingRows(db: Db, u: Id): (r: seq<Booking>)
    ensures forall b :: b in r <==> b in db.bookings && OnHotelOwnedBy(db, b, u)
    ensures forall b :: multiset(r)[b] == if OnHotelOwnedBy(db, b, u) then multiset(db.bookings)[b] else 0
    ensures forall i, j | 0 <= i < j < |r| :: r[i].createdAt >= r[j].createdAt
  {
    var theirs := Filter(db.bookings, (b: Booking) => OnHotelOwnedBy(db, b, u));
    FilterExact(db.bookings, (b: Booking) => OnHotelOwnedBy(db, b, u));
    NewestFirst(theirs)
  }

  /** `MyBookingsSerializer` output. */
  datatype BookingView = BookingView(
    id: Id,
    room: RoomView,
    user: UserView,
    startDate: Date,
    endDate: Date,
    createdAt: Instant,
    updatedAt: Instant,
    status: string)

  /** Every user's groups exist: the database's own guarantee for the
      membership table. */
  predicate GroupsResolve(db: Db) {
    forall u | u in db.users :: MembershipsResolve(db, u)
  }

  /** Serialises one booking with its room and its booker; it fails exactly
      when the room's hotel has no type. */
  function SerializeBooking(db: Db, b: Booking): (r: Result<BookingView, SerializeError>)
    requires Integrity(db) && GroupsResolve(db) && b in db.bookings
    ensures r.Err? <==> OnUntypedHotel(db, b.room)
    ensures r.Ok? ==>
      && r.value.id == b.id && r.value.startDate == b.startDate && r.value.endDate == b.endDate
      && r.value.createdAt == b.createdAt && r.value.updatedAt == b.updatedAt && r.value.status == b.status
    ensures r.Ok? ==> forall x | x in db.rooms && x.id == b.room :: r.value.room == SerializeRoom(db, x).value
    ensures r.Ok? ==> forall u | u in db.users && u.id == b.user :: r.value.user == SerializeUser(db, u)
    ensures r.Ok? ==> r.value.user.id == b.user
  {
    var x := Find(db.rooms, RoomKey, b.room);
    var u := Find(db.users, UserKey, b.user);
    if x.None? || u.None? then
      assert false; Err(HotelTypeMissing)
    else
      var room :- SerializeRoom(db, x.value);
      Ok(BookingView(b.id, room, SerializeUser(db, u.value), b.startDate, b.endDate, b.createdAt, b.updatedAt, b.status))
  }

  /** Serialises each booking in order; one whose room's hotel has no type
      makes the whole list fail. */
  function SerializeBookings(db: Db, bs: seq<Booking>): (r: Result<seq<BookingView>, SerializeError>)
    requires Integrity(db) && GroupsResolve(db)
    requires forall b | b in bs :: b in db.bookings
    ensures r.Ok? <==> forall b | b in bs :: !OnUntypedHotel(db, b.room)
    ensures r.Ok? ==> |r.value| == |bs| && forall i | 0 <= i < |bs| :: r.value[i] == SerializeBooking(db, bs[i]).value
  {
    MapResults(bs, (b: Booking) requires Integrity(db) && GroupsResolve(db) && b in db.bookings => SerializeBooking(db, b))
  }

  /** `GET /bookings/me/`: the requester's own bookings, newest first, each
      showing the requester as its booker; a 500 when one of them is on a
      hotel without a type. */
  function MyBookings(db: Db, who: Requester): (r: Result<seq<BookingView>, ViewError>)
    requires Integrity(db) && GroupsResolve(db)
    ensures who.Anonymous? <==> r == Err(NotAuthenticated)
    ensures who.SignedIn? ==>
      (r == Err(ServerError) <==> exists b | b in db.bookings && b.user == who.user :: OnUntypedHotel(db, b.room))
    ensures r.Ok? ==>
      var rows := MyBookingRows(db, who.user);
      |r.value| == |rows| && forall i | 0 <= i < |rows| :: r.value[i] == SerializeBooking(db, rows[i]).value
    ensures r.Ok? ==> forall i | 0 <= i < |r.value| :: r.value[i].user.id == who.user
  {
    if who.Anonymous? then Err(NotAuthenticated)
    else
      var rows := MyBookingRows(db, who.user);
      OwnRowsSerialize(db, who.user);
      match SerializeBookings(db, rows)
      case Err(_) => Err(ServerError)
      case Ok(views) => Ok(views)
  }

  /** The serialised `me` rows fail exactly when one of the user's bookings
      is on an untyped hotel, and each one shows the user as the booker. */
  lemma OwnRowsSerialize(db: Db, u: Id)
    requires Integrity(db) && GroupsResolve(db)
    ensures var r := SerializeBookings(db, MyBookingRows(db, u));
      && (r.Ok? <==> !exists b | b in db.bookings && b.user == u :: OnUntypedHotel(db, b.room))
      && (r.Ok? ==> forall i | 0 <= i < |r.value| :: r.value[i].user.id == u)
  {
    var rows := MyBookingRows(db, u);
    var r := SerializeBookings(db, rows);
    if r.Ok? {
      forall i | 0 <= i < |r.value| ensures r.value[i].user.id == u {
        assert rows[i] in rows;
      }
    }
  }

  /** `GET /bookings/owner/`: the bookings on rooms of the requester's
      hotels, newest first; a 500 when one of them is on a hotel without a
      type. */
  function OwnerBookings(db: Db, who: Requester): (r: Result<seq<BookingView>, ViewError>)
    requires Integrity(db) && GroupsResolve(db)
    ensures who.Anonymous? <==> r == Err(NotAuthenticated)
    ensures who.SignedIn? ==>
      (r == Err(ServerError) <==> exists b | b in db.bookings && OnHotelOwnedBy(db, b, who.user) :: OnUntypedHotel(db, b.room))
    ensures r.Ok? ==>
      var rows := OwnerBookingRows(db, who.user);
      |r.value| == |rows| && forall i | 0 <= i < |rows| :: r.value[i] == SerializeBooking(db, rows[i]).value
  {
    if who.Anonymous? then Err(NotAuthenticated)
    else
      match SerializeBookings(db, OwnerBookingRows(db, who.user))
      case Err(_) => Err(ServerError)
      case Ok(views) => Ok(views)
  }

  /** Each booking appears in `me` of its booker, and in `owner` of its
      hotel's owner; no booking of another user leaks into `me`. */
  lemma MeAndOwnerPartitionByRole(db: Db, u: Id, v: Id, b: Booking)
    requires b in db.bookings
    ensures b in MyBookingRows(db, u) <==> b.user == u
    ensures u != v && b.user == u ==> b !in MyBookingRows(db, v)
    ensures b in OwnerBookingRows(db, u) <==> OnHotelOwnedBy(db, b, u)
  {
  }

  /** `POST /bookings/`: a signed-in requester gets exactly what the
      serializer decides. */
  function CreateEndpoint(v: Variant, db: Db, who: Requester, data: BookingData, now: Instant): (r: Result<Created, ViewError>)
    ensures who.Anonymous? ==> r == Err(NotAuthenticated)
    ensures who.SignedIn? ==> (r.Err? <==>
      || !FieldsValid(db, data, false)
      || data.startDate.value >= data.endDate.value
      || (v == Corrected && ClashesWithHeldStay(db, data)))
    ensures who.SignedIn? && r.Err? ==> r == Err(Invalid(CreateBooking(v, db, data, now).error))
    ensures r.Ok? ==> r.value == CreateBooking(v, db, data, now).value
    ensures r.Ok? ==> r.value.booking.user == data.userId.value && r.value.booking.room == data.roomId.value
  {
    if who.Anonymous? then Err(NotAuthenticated)
    else
      match CreateBooking(v, db, data, now)
      case Ok(c) => Ok(c)
      case Err(e) => Err(Invalid(e))
  }

  /** The booker is whoever `user_id` names: the outcome does not depend on
      which signed-in user sends the request. */
  lemma CreationIgnoresRequester(variant: Variant, db: Db, u: Id, v: Id, data: BookingData, now: Instant)
    ensures CreateEndpoint(variant, db, SignedIn(u), data, now) == CreateEndpoint(variant, db, SignedIn(v), data, now)
  {
  }

  /** `PUT`/`PATCH /bookings/<id>/`, partial in both cases. */
  function UpdateEndpoint(v: Variant, db: Db, who: Requester, id: Id, data: BookingData, now: Instant): (r: Result<Db, ViewError>)
    ensures who.Anonymous? ==> r == Err(NotAuthenticated)
    ensures who.SignedIn? ==> (r.Err? <==>
      || (forall b | b in db.bookings :: b.id != id)
      || !FieldsValid(db, data, true)
      || !DatesAdmitted(v, db, data))
    ensures r.Ok? ==> r.value == UpdateBooking(v, db, id, data, now).value
    ensures r.Ok? ==> |r.value.bookings| == |db.bookings|
    ensures r.Ok? ==> r.value.profiles == db.profiles && r.value.rooms == db.rooms
  {
    if who.Anonymous? then Err(NotAuthenticated)
    else
      match UpdateBooking(v, db, id, data, now)
      case Ok(d) => Ok(d)
      case Err(e) => Err(Invalid(e))
  }

  /** `DELETE /bookings/<id>/`: the row goes, and no counter goes down. */
  function DestroyEndpoint(db: Db, who: Requester, id: Id): (r: Result<Db, ViewError>)
    ensures who.Anonymous? ==> r == Err(NotAuthenticated)
    ensures who.SignedIn? && (forall b | b in db.bookings :: b.id != id) ==> r == Err(Invalid(NotFound))
    ensures who.SignedIn? && (exists b | b in db.bookings :: b.id == id) ==> r.Ok?
    ensures r.Ok? ==> forall b :: b in r.value.bookings <==> b in db.bookings && b.id != id
    ensures r.Ok? ==> r.value == db.(bookings := r.value.bookings)
  {
    if who.Anonymous? then Err(NotAuthenticated)
    else if Find(db.bookings, (b: Booking) => b.id, id).None? then Err(Invalid(NotFound))
    else Ok(db.(bookings := Filter(db.bookings, (b: Booking) => b.id != id)))
  }

  /** Deleting a booking keeps every key unique and every reference
      resolvable: nothing refers to a booking. */
  lemma DestroyKeepsIntegrity(db: Db, who: Requester, id: Id)
    requires Integrity(db)
    requires DestroyEndpoint(db, who, id).Ok?
    ensures Integrity(DestroyEndpoint(db, who, id).value)
  {
  }

  /** Once a booking is deleted, deleting it again finds nothing. */
  lemma DestroyTwiceNotFound(db: Db, who: Requester, id: Id)
    requires DestroyEndpoint(db, who, id).Ok?
    ensures DestroyEndpoint(DestroyEndpoint(db, who, id).value, who, id) == Err(Invalid(NotFound))
  {
  }
}
