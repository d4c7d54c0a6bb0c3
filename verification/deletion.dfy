/** Row deletion and its `on_delete` rules: CASCADE for owners, hotels, rooms
    and users (taking profiles, gallery images, rooms and bookings with them),
    SET_NULL for hotel and room types. Each deletion keeps the database's
    references resolvable. */
module Deletion {

  import opened Wrappers
  import opened Seqs
  import opened Schema

  /** Ids of the hotels owned by `u`. */
  function HotelsOwnedBy(db: Db, u: Id): set<Id> {
    set h | h in db.hotels && h.owner == u :: h.id
  }

  /** Ids of the rooms that belong to one of the hotels `hs`. */
  function RoomsOfHotels(db: Db, hs: set<Id>): set<Id> {
    set r | r in db.rooms && r.hotel in hs :: r.id
  }

  /** Deletes the rooms `gone`, their gallery images and their bookings. */
  function DeleteRooms(db: Db, gone: set<Id>): (r: Db)
    ensures forall x :: x in r.rooms <==> x in db.rooms && x.id !in gone
    ensures forall x :: x in r.roomImages <==> x in db.roomImages && x.room !in gone
    ensures forall x :: x in r.bookings <==> x in db.bookings && x.room !in gone
    ensures r.users == db.users && r.groups == db.groups && r.profiles == db.profiles
    ensures r.hotels == db.hotels && r.hotelImages == db.hotelImages
    ensures r.hotelTypes == db.hotelTypes && r.roomTypes == db.roomTypes
  {
    db.(rooms := Filter(db.rooms, (x: Room) => x.id !in gone),
        roomImages := Filter(db.roomImages, (x: RoomImage) => x.room !in gone),
        bookings := Filter(db.bookings, (x: Booking) => x.room !in gone))
  }

  /** Deletes the hotels `gone`, their gallery images and, by cascade, their
      rooms with everything that hangs off those rooms. */
  function DeleteHotels(db: Db, gone: set<Id>): (r: Db)
    ensures forall x :: x in r.hotels <==> x in db.hotels && x.id !in gone
    ensures forall x :: x in r.hotelImages <==> x in db.hotelImages && x.hotel !in gone
    ensures forall x :: x in r.rooms <==> x in db.rooms && x.hotel !in gone
    ensures forall x :: x in r.roomImages <==> x in db.roomImages && x.room !in RoomsOfHotels(db, gone)
    ensures forall x :: x in r.bookings <==> x in db.bookings && x.room !in RoomsOfHotels(db, gone)
    ensures r.users == db.users && r.groups == db.groups && r.profiles == db.profiles
    ensures r.hotelTypes == db.hotelTypes && r.roomTypes == db.roomTypes
  {
    var rooms := RoomsOfHotels(db, gone);
    db.(hotels := Filter(db.hotels, (x: Hotel) => x.id !in gone),
        hotelImages := Filter(db.hotelImages, (x: HotelImage) => x.hotel !in gone),
        rooms := Filter(db.rooms, (x: Room) => x.hotel !in gone),
        roomImages := Filter(db.roomImages, (x: RoomImage) => x.room !in rooms),
        bookings := Filter(db.bookings, (x: Booking) => x.room !in rooms))
  }

  /** Deleting a room deletes its gallery images and all of its bookings. */
  function DeleteRoom(db: Db, room: Id): (r: Db)
    ensures forall x :: x in r.rooms <==> x in db.rooms && x.id != room
    ensures forall x :: x in r.roomImages <==> x in db.roomImages && x.room != room
    ensures forall x :: x in r.bookings <==> x in db.bookings && x.room != room
    ensures r.users == db.users && r.groups == db.groups && r.profiles == db.profiles
    ensures r.hotels == db.hotels && r.hotelImages == db.hotelImages
    ensures r.hotelTypes == db.hotelTypes && r.roomTypes == db.roomTypes
  {
    DeleteRooms(db, {room})
  }

  /** Deleting a hotel deletes its gallery images and its rooms, and with
      them their images and bookings. */
  function DeleteHotel(db: Db, hotel: Id): (r: Db)
    ensures forall x :: x in r.hotels <==> x in db.hotels && x.id != hotel
    ensures forall x :: x in r.hotelImages <==> x in db.hotelImages && x.hotel != hotel
    ensures forall x :: x in r.rooms <==> x in db.rooms && x.hotel != hotel
    ensures forall x :: x in r.roomImages <==> x in db.roomImages && x.room !in RoomsOfHotels(db, {hotel})
    ensures forall x :: x in r.bookings <==> x in db.bookings && x.room !in RoomsOfHotels(db, {hotel})
    ensures r.users == db.users && r.groups == db.groups && r.profiles == db.profiles
    ensures r.hotelTypes == db.hotelTypes && r.roomTypes == db.roomTypes
  {
    DeleteHotels(db, {hotel})
  }

  /** Deleting a user deletes the user's profile, bookings and hotels, and
      through the hotels their rooms, images and the rooms' bookings. */
  function DeleteUser(db: Db, u: Id): (r: Db)
    ensures forall x :: x in r.users <==> x in db.users && x.id != u
    ensures forall x :: x in r.profiles <==> x in db.profiles && x.user != u
    ensures forall x :: x in r.hotels <==> x in db.hotels && x.owner != u
    ensures forall x :: x in r.hotelImages <==> x in db.hotelImages && x.hotel !in HotelsOwnedBy(db, u)
    ensures forall x :: x in r.rooms <==> x in db.rooms && x.hotel !in HotelsOwnedBy(db, u)
    ensures forall x :: x in r.roomImages <==> x in db.roomImages && x.room !in RoomsOfHotels(db, HotelsOwnedBy(db, u))
    ensures forall x :: x in r.bookings <==>
      x in db.bookings && x.user != u && x.room !in RoomsOfHotels(db, HotelsOwnedBy(db, u))
    ensures r.groups == db.groups && r.hotelTypes == db.hotelTypes && r.roomTypes == db.roomTypes
  {
    var owned := HotelsOwnedBy(db, u);
    var d := DeleteHotels(db, owned);
    d.(users := Filter(db.users, (x: User) => x.id != u),
       hotels := Filter(db.hotels, (x: Hotel) => x.owner != u),
       hotelImages := Filter(db.hotelImages, (x: HotelImage) => x.hotel !in owned),
       rooms := Filter(db.rooms, (x: Room) => x.hotel !in owned),
       profiles := Filter(db.profiles, (x: Profile) => x.user != u),
       bookings := Filter(d.bookings, (x: Booking) => x.user != u))
  }

  /** Deleting a hotel type keeps its hotels but leaves them without a type. */
  function DeleteHotelType(db: Db, t: Id): (r: Db)
    ensures forall x :: x in r.hotelTypes <==> x in db.hotelTypes && x.id != t
    ensures |r.hotels| == |db.hotels|
    ensures forall i :: 0 <= i < |db.hotels| ==>
      r.hotels[i] == if db.hotels[i].hotelType == Some(t) then db.hotels[i].(hotelType := None) else db.hotels[i]
    ensures r.users == db.users && r.profiles == db.profiles && r.hotelImages == db.hotelImages
    ensures r.rooms == db.rooms && r.roomImages == db.roomImages && r.bookings == db.bookings
    ensures r.groups == db.groups && r.roomTypes == db.roomTypes
  {
    db.(hotelTypes := Filter(db.hotelTypes, (x: HotelType) => x.id != t),
        hotels := seq(|db.hotels|, i requires 0 <= i < |db.hotels| =>
          if db.hotels[i].hotelType == Some(t) then db.hotels[i].(hotelType := None) else db.hotels[i]))
  }

  /** Deleting a room type keeps its rooms but leaves them without a type. */
  function DeleteRoomType(db: Db, t: Id): (r: Db)
    ensures forall x :: x in r.roomTypes <==> x in db.roomTypes && x.id != t
    ensures |r.rooms| == |db.rooms|
    ensures forall i :: 0 <= i < |db.rooms| ==>
      r.rooms[i] == if db.rooms[i].roomType == Some(t) then db.rooms[i].(roomType := None) else db.rooms[i]
    ensures r.users == db.users && r.profiles == db.profiles && r.hotels == db.hotels
    ensures r.hotelImages == db.hotelImages && r.roomImages == db.roomImages && r.bookings == db.bookings
    ensures r.groups == db.groups && r.hotelTypes == db.hotelTypes
  {
    db.(roomTypes := Filter(db.roomTypes, (x: RoomType) => x.id != t),
        rooms := seq(|db.rooms|, i requires 0 <= i < |db.rooms| =>
          if db.rooms[i].roomType == Some(t) then db.rooms[i].(roomType := None) else db.rooms[i]))
  }

  // ---------------------------------------------------------------------
  // Integrity is preserved

  lemma DeleteRoomsKeepsRefs(db: Db, gone: set<Id>)
    requires Integrity(db)
    ensures RoomsResolve(DeleteRooms(db, gone)) && RoomImagesResolve(DeleteRooms(db, gone))
    ensures BookingsResolve(DeleteRooms(db, gone))
  {
    var r := DeleteRooms(db, gone);
    assert UserIds(r) == UserIds(db);
    assert forall x | x in db.rooms && x.id !in gone :: x.id in RoomIds(r);
    assert RoomsResolve(r) by {
      assert HotelIds(r) == HotelIds(db) && RoomTypeIds(r) == RoomTypeIds(db);
    }
  }

  lemma DeleteRoomsKeepsIntegrity(db: Db, gone: set<Id>)
    requires Integrity(db)
    ensures Integrity(DeleteRooms(db, gone))
  {
    var r := DeleteRooms(db, gone);
    DeleteRoomsKeepsRefs(db, gone);
    assert UserIds(r) == UserIds(db);
    assert KeysUnique(r);
  }

  lemma DeleteRoomKeepsIntegrity(db: Db, room: Id)
    requires Integrity(db)
    ensures Integrity(DeleteRoom(db, room))
  {
    DeleteRoomsKeepsIntegrity(db, {room});
  }

  lemma DeleteHotelsKeepsRoomRefs(db: Db, gone: set<Id>)
    requires Integrity(db)
    ensures RoomImagesResolve(DeleteHotels(db, gone)) && BookingsResolve(DeleteHotels(db, gone))
  {
    var r := DeleteHotels(db, gone);
    var rooms := RoomsOfHotels(db, gone);
    assert UserIds(r) == UserIds(db);
    assert forall x | x in db.rooms && x.id !in rooms :: x.hotel !in gone;
    assert forall x | x in db.rooms && x.id !in rooms :: x.id in RoomIds(r);
  }

  lemma DeleteHotelsKeepsIntegrity(db: Db, gone: set<Id>)
    requires Integrity(db)
    ensures Integrity(DeleteHotels(db, gone))
  {
    var r := DeleteHotels(db, gone);
    DeleteHotelsKeepsRoomRefs(db, gone);
    assert UserIds(r) == UserIds(db);
    assert HotelTypeIds(r) == HotelTypeIds(db) && RoomTypeIds(r) == RoomTypeIds(db);
    assert forall x | x in db.hotels && x.id !in gone :: x.id in HotelIds(r);
    assert KeysUnique(r);
    assert HotelsResolve(r);
    assert HotelImagesResolve(r);
    assert RoomsResolve(r);
  }

  lemma DeleteHotelKeepsIntegrity(db: Db, hotel: Id)
    requires Integrity(db)
    ensures Integrity(DeleteHotel(db, hotel))
  {
    DeleteHotelsKeepsIntegrity(db, {hotel});
  }

  lemma DeleteUserKeepsKeys(db: Db, u: Id)
    requires KeysUnique(db) && OneProfilePerUser(db)
    ensures KeysUnique(DeleteUser(db, u)) && OneProfilePerUser(DeleteUser(db, u))
  {
  }

  lemma DeleteUserKeepsUserRefs(db: Db, u: Id)
    requires ProfilesResolve(db) && HotelsResolve(db)
    ensures ProfilesResolve(DeleteUser(db, u)) && HotelsResolve(DeleteUser(db, u))
  {
    var r := DeleteUser(db, u);
    assert forall x | x in db.users && x.id != u :: x.id in UserIds(r);
    assert HotelTypeIds(r) == HotelTypeIds(db);
  }

  lemma DeleteUserKeepsHotelRefs(db: Db, u: Id)
    requires HotelImagesResolve(db) && RoomsResolve(db)
    ensures HotelImagesResolve(DeleteUser(db, u)) && RoomsResolve(DeleteUser(db, u))
  {
    var owned := HotelsOwnedBy(db, u);
    var r := DeleteUser(db, u);
    assert RoomTypeIds(r) == RoomTypeIds(db);
    assert forall x | x in db.hotels && x.id !in owned :: x.owner != u;
    assert forall x | x in db.hotels && x.id !in owned :: x.id in HotelIds(r);
  }

  lemma DeleteUserKeepsRoomRefs(db: Db, u: Id)
    requires RoomImagesResolve(db) && BookingsResolve(db)
    ensures RoomImagesResolve(DeleteUser(db, u)) && BookingsResolve(DeleteUser(db, u))
  {
    var owned := HotelsOwnedBy(db, u);
    var rooms := RoomsOfHotels(db, owned);
    var r := DeleteUser(db, u);
    assert forall x | x in db.users && x.id != u :: x.id in UserIds(r);
    assert forall x | x in db.rooms && x.id !in rooms :: x.hotel !in owned;
    assert forall x | x in db.rooms && x.id !in rooms :: x.id in RoomIds(r);
  }

  lemma DeleteUserKeepsIntegrity(db: Db, u: Id)
    requires Integrity(db)
    ensures Integrity(DeleteUser(db, u))
  {
    DeleteUserKeepsKeys(db, u);
    DeleteUserKeepsUserRefs(db, u);
    DeleteUserKeepsHotelRefs(db, u);
    DeleteUserKeepsRoomRefs(db, u);
  }

  lemma DeleteHotelTypeKeepsHotelIds(db: Db, t: Id)
    ensures HotelIds(DeleteHotelType(db, t)) == HotelIds(db)
  {
    var r := DeleteHotelType(db, t);
    forall x | x in db.hotels ensures x.id in HotelIds(r) {
      var i :| 0 <= i < |db.hotels| && db.hotels[i] == x;
      assert r.hotels[i].id == x.id;
      assert r.hotels[i] in r.hotels;
    }
    forall x | x in r.hotels ensures x.id in HotelIds(db) {
      var i :| 0 <= i < |r.hotels| && r.hotels[i] == x;
      assert db.hotels[i] in db.hotels;
    }
  }

  lemma DeleteHotelTypeKeepsHotelKeys(db: Db, t: Id)
    requires forall a, b | a in db.hotels && b in db.hotels :: a.id == b.id ==> a == b
    ensures forall a, b | a in DeleteHotelType(db, t).hotels && b in DeleteHotelType(db, t).hotels :: a.id == b.id ==> a == b
  {
    var r := DeleteHotelType(db, t);
    forall a, b | a in r.hotels && b in r.hotels && a.id == b.id ensures a == b {
      var i :| 0 <= i < |r.hotels| && r.hotels[i] == a;
      var j :| 0 <= j < |r.hotels| && r.hotels[j] == b;
      assert db.hotels[i] in db.hotels && db.hotels[j] in db.hotels;
    }
  }

  lemma DeleteHotelTypeKeepsHotelRefs(db: Db, t: Id)
    requires HotelsResolve(db)
    ensures HotelsResolve(DeleteHotelType(db, t))
  {
    var r := DeleteHotelType(db, t);
    assert forall x | x in db.hotelTypes && x.id != t :: x.id in HotelTypeIds(r);
    forall x | x in r.hotels
      ensures x.owner in UserIds(r) && (x.hotelType.None? || x.hotelType.value in HotelTypeIds(r))
    {
      var i :| 0 <= i < |r.hotels| && r.hotels[i] == x;
      assert db.hotels[i] in db.hotels;
    }
  }

  lemma DeleteHotelTypeKeepsIntegrity(db: Db, t: Id)
    requires Integrity(db)
    ensures Integrity(DeleteHotelType(db, t))
  {
    var r := DeleteHotelType(db, t);
    DeleteHotelTypeKeepsHotelIds(db, t);
    DeleteHotelTypeKeepsHotelKeys(db, t);
    DeleteHotelTypeKeepsHotelRefs(db, t);
    assert KeysUnique(r);
    assert HotelImagesResolve(r);
    assert RoomsResolve(r);
  }

  lemma DeleteRoomTypeKeepsRoomIds(db: Db, t: Id)
    ensures RoomIds(DeleteRoomType(db, t)) == RoomIds(db)
  {
    var r := DeleteRoomType(db, t);
    forall x | x in db.rooms ensures x.id in RoomIds(r) {
      var i :| 0 <= i < |db.rooms| && db.rooms[i] == x;
      assert r.rooms[i].id == x.id;
      assert r.rooms[i] in r.rooms;
    }
    forall x | x in r.rooms ensures x.id in RoomIds(db) {
      var i :| 0 <= i < |r.rooms| && r.rooms[i] == x;
      assert db.rooms[i] in db.rooms;
    }
  }

  lemma DeleteRoomTypeKeepsRoomKeys(db: Db, t: Id)
    requires forall a, b | a in db.rooms && b in db.rooms :: a.id == b.id ==> a == b
    ensures forall a, b | a in DeleteRoomType(db, t).rooms && b in DeleteRoomType(db, t).rooms :: a.id == b.id ==> a == b
  {
    var r := DeleteRoomType(db, t);
    forall a, b | a in r.rooms && b in r.rooms && a.id == b.id ensures a == b {
      var i :| 0 <= i < |r.rooms| && r.rooms[i] == a;
      var j :| 0 <= j < |r.rooms| && r.rooms[j] == b;
      assert db.rooms[i] in db.rooms && db.rooms[j] in db.rooms;
    }
  }

  lemma DeleteRoomTypeKeepsRoomRefs(db: Db, t: Id)
    requires RoomsResolve(db)
    ensures RoomsResolve(DeleteRoomType(db, t))
  {
    var r := DeleteRoomType(db, t);
    assert forall x | x in db.roomTypes && x.id != t :: x.id in RoomTypeIds(r);
    forall x | x in r.rooms
      ensures x.hotel in HotelIds(r) && (x.roomType.None? || x.roomType.value in RoomTypeIds(r))
    {
      var i :| 0 <= i < |r.rooms| && r.rooms[i] == x;
      assert db.rooms[i] in db.rooms;
    }
  }

  lemma DeleteRoomTypeKeepsIntegrity(db: Db, t: Id)
    requires Integrity(db)
    ensures Integrity(DeleteRoomType(db, t))
  {
    var r := DeleteRoomType(db, t);
    DeleteRoomTypeKeepsRoomIds(db, t);
    DeleteRoomTypeKeepsRoomKeys(db, t);
    DeleteRoomTypeKeepsRoomRefs(db, t);
    assert KeysUnique(r);
    assert RoomImagesResolve(r);
    assert BookingsResolve(r);
  }
}
