/** `HotelSerializer` on the way out: the hotel's own fields, its type by
    name (null once the type is gone), and, nested, every room of the hotel
    through `RoomSerializer` and every gallery image. `rating` is not one of
    its fields. Because each nested room copies the hotel's type name, a
    hotel without a type that has at least one room cannot be serialised. */
module HotelSerializer {

  import opened Wrappers
  import opened Seqs
  import opened Schema
  import opened RoomSerializer

  /** `hotels.serializers.ImageSerializer` output. */
  datatype HotelImageView = HotelImageView(id: Id, image: string, uploadedAt: Instant, hotel: Id)

  /** `HotelSerializer` output. */
  datatype HotelView = HotelView(
    id: Id,
    name: string,
    owner: Id,
    address: string,
    city: string,
    country: string,
    description: Option<string>,
    hotelType: Option<string>,
    rooms: seq<RoomView>,
    images: seq<HotelImageView>,
    previewImage: Option<string>)

  function HotelImageViewOf(i: HotelImage): HotelImageView {
    HotelImageView(i.id, i.image, i.uploadedAt, i.hotel)
  }

  /** The gallery of hotel `hotel`, in table order. */
  function HotelImagesOf(db: Db, hotel: Id): (r: seq<HotelImageView>)
    ensures forall v | v in r :: v.hotel == hotel && exists i | i in db.hotelImages :: i.hotel == hotel && v == HotelImageViewOf(i)
    ensures forall i | i in db.hotelImages && i.hotel == hotel :: HotelImageViewOf(i) in r
  {
    var mine := Filter(db.hotelImages, (i: HotelImage) => i.hotel == hotel);
    var r := seq(|mine|, k requires 0 <= k < |mine| => HotelImageViewOf(mine[k]));
    assert forall k | 0 <= k < |mine| :: mine[k] in mine;
    forall i | i in db.hotelImages && i.hotel == hotel ensures HotelImageViewOf(i) in r {
      var k :| 0 <= k < |mine| && mine[k] == i;
      assert r[k] == HotelImageViewOf(i);
    }
    r
  }

  /** The name of hotel type `t`, or null. */
  function HotelTypeName(db: Db, t: Option<Id>): (r: Option<string>)
    requires t.Some? ==> t.value in HotelTypeIds(db)
    ensures t.None? <==> r.None?
    ensures t.Some? ==> exists x | x in db.hotelTypes :: x.id == t.value && r == Some(x.name)
  {
    if t.None? then None
    else
      var x := Find(db.hotelTypes, HotelTypeKey, t.value);
      if x.Some? then Some(x.value.name) else assert false; None
  }

  /** A hotel without a type that still has a room: the nested room
      serializer fails on it. */
  predicate UntypedWithRooms(db: Db, h: Hotel) {
    h.hotelType.None? && exists x | x in db.rooms :: x.hotel == h.id
  }

  /** Serialises hotel `h`; it fails exactly when `h` has no type and has a
      room. */
  function SerializeHotel(db: Db, h: Hotel): (r: Result<HotelView, SerializeError>)
    requires Integrity(db) && h in db.hotels
    ensures r.Err? <==> UntypedWithRooms(db, h)
    ensures r.Ok? ==>
      && r.value.id == h.id && r.value.name == h.name && r.value.owner == h.owner
      && r.value.address == h.address && r.value.city == h.city && r.value.country == h.country
      && r.value.description == h.description && r.value.previewImage == h.previewImage
      && r.value.hotelType == HotelTypeName(db, h.hotelType)
      && r.value.images == HotelImagesOf(db, h.id)
    ensures r.Ok? ==>
      var rooms := RoomsOf(db, h.id);
      |r.value.rooms| == |rooms| && forall i | 0 <= i < |rooms| :: r.value.rooms[i] == SerializeRoom(db, rooms[i]).value
  {
    var rooms := RoomsOf(db, h.id);
    assert forall x | x in rooms :: OnUntypedHotel(db, x.id) <==> h.hotelType.None? by {
      forall x | x in rooms ensures OnUntypedHotel(db, x.id) <==> h.hotelType.None? {
        if h.hotelType.None? {
          assert x in db.rooms && h in db.hotels;
        }
      }
    }
    assert h.hotelType.None? && rooms != [] ==> rooms[0] in rooms;
    match SerializeRooms(db, rooms)
    case Err(e) => Err(e)
    case Ok(views) =>
      Ok(HotelView(h.id, h.name, h.owner, h.address, h.city, h.country, h.description,
        HotelTypeName(db, h.hotelType), views, HotelImagesOf(db, h.id), h.previewImage))
  }

  /** Serialises each hotel in order; one that cannot be serialised makes
      the whole list fail. */
  function SerializeHotels(db: Db, hotels: seq<Hotel>): (r: Result<seq<HotelView>, SerializeError>)
    requires Integrity(db)
    requires forall h | h in hotels :: h in db.hotels
    ensures r.Ok? <==> forall h | h in hotels :: !UntypedWithRooms(db, h)
    ensures r.Ok? ==> |r.value| == |hotels| && forall i | 0 <= i < |hotels| :: r.value[i] == SerializeHotel(db, hotels[i]).value
  {
    MapResults(hotels, (h: Hotel) requires Integrity(db) && h in db.hotels => SerializeHotel(db, h))
  }
}
