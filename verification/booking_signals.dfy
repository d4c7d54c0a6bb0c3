/** The `post_save` receiver on bookings: a newly created booking adds one to
    its booker's profile counter and one to its room's counter. Re-saving an
    existing booking changes neither. */
module BookingSignals {

  import opened Wrappers
  import opened Seqs
  import opened Schema

  /** The bookings made by user `u`. */
  function BookingsBy(bs: seq<Booking>, u: Id): seq<Booking> {
    Filter(bs, (b: Booking) => b.user == u)
  }

  /** The bookings of room `room`. */
  function BookingsOn(bs: seq<Booking>, room: Id): seq<Booking> {
    Filter(bs, (b: Booking) => b.room == room)
  }

  /** Adds one to the counter of every profile of `user` (there is at most one). */
  function BumpProfiles(ps: seq<Profile>, user: Id): (r: seq<Profile>)
    ensures |r| == |ps|
    ensures forall i :: 0 <= i < |ps| ==> r[i].(totalBookings := ps[i].totalBookings) == ps[i]
    ensures forall i :: 0 <= i < |ps| ==>
      r[i].totalBookings == ps[i].totalBookings + (if ps[i].user == user then 1 else 0)
  {
    seq(|ps|, i requires 0 <= i < |ps| =>
      if ps[i].user == user then ps[i].(totalBookings := ps[i].totalBookings + 1) else ps[i])
  }

  /** Adds one to the counter of the room with id `room`. */
  function BumpRooms(rs: seq<Room>, room: Id): (r: seq<Room>)
    ensures |r| == |rs|
    ensures forall i :: 0 <= i < |rs| ==> r[i].(totalBookings := rs[i].totalBookings) == rs[i]
    ensures forall i :: 0 <= i < |rs| ==>
      r[i].totalBookings == rs[i].totalBookings + (if rs[i].id == room then 1 else 0)
  {
    seq(|rs|, i requires 0 <= i < |rs| =>
      if rs[i].id == room then rs[i].(totalBookings := rs[i].totalBookings + 1) else rs[i])
  }

  /** `update_user_profile`. The profile update and the room update are
      independent: a user without a profile is only logged, and the room's
      counter is still incremented. Counters only ever grow. */
  function OnBookingSaved(db: Db, b: Booking, created: bool): (r: Db)
    ensures !created ==> r == db
    ensures r.users == db.users && r.groups == db.groups && r.hotels == db.hotels
    ensures r.hotelTypes == db.hotelTypes && r.hotelImages == db.hotelImages
    ensures r.roomTypes == db.roomTypes && r.roomImages == db.roomImages && r.bookings == db.bookings
    ensures |r.profiles| == |db.profiles| && |r.rooms| == |db.rooms|
    ensures forall i :: 0 <= i < |db.profiles| ==>
      && r.profiles[i].(totalBookings := db.profiles[i].totalBookings) == db.profiles[i]
      && r.profiles[i].totalBookings == db.profiles[i].totalBookings + (if created && db.profiles[i].user == b.user then 1 else 0)
    ensures forall i :: 0 <= i < |db.rooms| ==>
      && r.rooms[i].(totalBookings := db.rooms[i].totalBookings) == db.rooms[i]
      && r.rooms[i].totalBookings == db.rooms[i].totalBookings + (if created && db.rooms[i].id == b.room then 1 else 0)
  {
    if !created then db
    else
      var profiles := if exists p | p in db.profiles :: p.user == b.user then BumpProfiles(db.profiles, b.user) else db.profiles;
      var rooms := if exists x | x in db.rooms :: x.id == b.room then BumpRooms(db.rooms, b.room) else db.rooms;
      db.(profiles := profiles, rooms := rooms)
  }

  /** Every profile's and room's counter equals the number of bookings made
      by that user / for that room. */
  predicate CountersMatch(db: Db) {
    && (forall p | p in db.profiles :: p.totalBookings == |BookingsBy(db.bookings, p.user)|)
    && (forall x | x in db.rooms :: x.totalBookings == |BookingsOn(db.bookings, x.id)|)
  }

  /** Storing a new booking and then firing the creation signal keeps every
      counter equal to its number of bookings. */
  lemma {:induction false} CreationKeepsCountersMatch(db: Db, b: Booking)
    requires CountersMatch(db)
    ensures CountersMatch(OnBookingSaved(db.(bookings := db.bookings + [b]), b, true))
  {
    var d := db.(bookings := db.bookings + [b]);
    var r := OnBookingSaved(d, b, true);
    forall p | p in r.profiles ensures p.totalBookings == |BookingsBy(r.bookings, p.user)| {
      var i :| 0 <= i < |r.profiles| && r.profiles[i] == p;
      assert db.profiles[i] in db.profiles;
      FilterAppend(db.bookings, b, (x: Booking) => x.user == p.user);
    }
    forall x | x in r.rooms ensures x.totalBookings == |BookingsOn(r.bookings, x.id)| {
      var i :| 0 <= i < |r.rooms| && r.rooms[i] == x;
      assert db.rooms[i] in db.rooms;
      FilterAppend(db.bookings, b, (y: Booking) => y.room == x.id);
    }
  }

  /** A room created with the defaults joins with a counter of zero, which
      is right: no booking can name a room id not yet in the table. */
  lemma NewRoomKeepsCountersMatch(db: Db, id: Id, hotel: Id, roomType: Option<Id>, name: string, price: Cents, previewImage: Option<string>)
    requires CountersMatch(db) && BookingsResolve(db)
    requires id !in RoomIds(db)
    ensures CountersMatch(db.(rooms := db.rooms + [NewRoom(id, hotel, roomType, name, price, previewImage)]))
  {
    var x := NewRoom(id, hotel, roomType, name, price, previewImage);
    var d := db.(rooms := db.rooms + [x]);
    assert BookingsOn(d.bookings, id) == [] by {
      forall b | b in db.bookings ensures b.room != id {
        assert b.room in RoomIds(db);
      }
    }
    assert forall y | y in d.rooms :: y in db.rooms || y == x;
  }

  /** A profile created with the defaults starts its counter at zero, so the
      counters still match exactly when its user has not booked yet; a
      profile added for a user who already booked undercounts from then on. */
  lemma NewProfileCountersMatchIff(db: Db, id: Id, user: Id, username: string)
    requires CountersMatch(db)
    ensures CountersMatch(db.(profiles := db.profiles + [NewProfile(id, user, username)]))
        <==> BookingsBy(db.bookings, user) == []
  {
    var p := NewProfile(id, user, username);
    var d := db.(profiles := db.profiles + [p]);
    assert p in d.profiles;
    assert forall q | q in d.profiles :: q in db.profiles || q == p;
  }
}
