/** `RoomSerializer`: how a room is shown to clients (fields copied from the
    parent hotel, the type by name, the gallery images) and how client input
    is applied to a room (read-only fields ignored, the type looked up by
    name, absent fields kept). */
module RoomSerializer {

  import opened Wrappers
  import opened Seqs
  import opened Text
  import opened Schema
  import opened Uploads

  /** `rooms.serializers.ImageSerializer` output. */
  datatype ImageView = ImageView(id: Id, image: string, uploadedAt: Instant, room: Id)

  /** `RoomSerializer` output. */
  datatype RoomView = RoomView(
    id: Id,
    name: string,
    pricePerNight: Cents,
    isAvailable: bool,
    roomType: Option<string>,
    hotel: Id,
    hotelName: string,
    hotelType: string,
    address: string,
    city: string,
    country: string,
    images: seq<ImageView>,
    previewImage: Option<string>,
    totalBookings: int)

  /** `get_hotel_type` reads `hotel.type.name`; once the hotel's type has
      been deleted (set to null) that raises. */
  datatype SerializeError = HotelTypeMissing

  function ImageViewOf(i: RoomImage): ImageView {
    ImageView(i.id, i.image, i.uploadedAt, i.room)
  }

  /** The gallery of room `room`, in table order. */
  function ImagesOf(db: Db, room: Id): (r: seq<ImageView>)
    ensures forall v | v in r :: v.room == room && exists i | i in db.roomImages :: i.room == room && v == ImageViewOf(i)
    ensures forall i | i in db.roomImages && i.room == room :: ImageViewOf(i) in r
  {
    var mine := Filter(db.roomImages, (i: RoomImage) => i.room == room);
    var r := seq(|mine|, k requires 0 <= k < |mine| => ImageViewOf(mine[k]));
    assert forall k | 0 <= k < |mine| :: mine[k] in mine;
    forall i | i in db.roomImages && i.room == room ensures ImageViewOf(i) in r {
      var k :| 0 <= k < |mine| && mine[k] == i;
      assert r[k] == ImageViewOf(i);
    }
    r
  }

  /** The name of type `t`, or null. */
  function RoomTypeName(db: Db, t: Option<Id>): (r: Option<string>)
    requires t.Some? ==> t.value in RoomTypeIds(db)
    ensures t.None? <==> r.None?
    ensures t.Some? ==> exists x | x in db.roomTypes :: x.id == t.value && r == Some(x.name)
  {
    if t.None? then None
    else
      var x := Find(db.roomTypes, RoomTypeKey, t.value);
      if x.Some? then Some(x.value.name) else assert false; None
  }

  /** The room with id `room` belongs to a hotel that has no type. */
  predicate OnUntypedHotel(db: Db, room: Id) {
    exists x, h | x in db.rooms && h in db.hotels :: x.id == room && h.id == x.hotel && h.hotelType.None?
  }

  /** Serialises `room`. The hotel fields are copied from its parent hotel;
      the hotel's type name is required and its absence is an error. */
  function SerializeRoom(db: Db, room: Room): (r: Result<RoomView, SerializeError>)
    requires Integrity(db) && room in db.rooms
    ensures forall h | h in db.hotels && h.id == room.hotel :: r.Err? <==> h.hotelType.None?
    ensures r.Err? <==> OnUntypedHotel(db, room.id)
    ensures r.Ok? ==> forall h | h in db.hotels && h.id == room.hotel ::
      && r.value.hotelName == h.name
      && r.value.address == h.address
      && r.value.city == h.city
      && r.value.country == h.country
      && exists t | t in db.hotelTypes :: Some(t.id) == h.hotelType && r.value.hotelType == t.name
    ensures r.Ok? ==>
      && r.value.id == room.id && r.value.name == room.name && r.value.hotel == room.hotel
      && r.value.pricePerNight == room.pricePerNight && r.value.isAvailable == room.isAvailable
      && r.value.previewImage == room.previewImage && r.value.totalBookings == room.totalBookings
      && r.value.roomType == RoomTypeName(db, room.roomType)
      && r.value.images == ImagesOf(db, room.id)
  {
    var h := Find(db.hotels, HotelKey, room.hotel);
    if h.None? then
      assert false; Err(HotelTypeMissing)
    else if h.value.hotelType.None? then
      assert OnUntypedHotel(db, room.id) by {
        assert room in db.rooms && h.value in db.hotels;
      }
      Err(HotelTypeMissing)
    else
      var t := Find(db.hotelTypes, HotelTypeKey, h.value.hotelType.value);
      if t.None? then
        assert false; Err(HotelTypeMissing)
      else
        assert !OnUntypedHotel(db, room.id);
        Ok(RoomView(room.id, room.name, room.pricePerNight, room.isAvailable,
          RoomTypeName(db, room.roomType), room.hotel, h.value.name, t.value.name,
          h.value.address, h.value.city, h.value.country, ImagesOf(db, room.id),
          room.previewImage, room.totalBookings))
  }

  /** Serialises each room in order; the first room whose hotel has no type
      makes the whole list fail. */
  function SerializeRooms(db: Db, rooms: seq<Room>): (r: Result<seq<RoomView>, SerializeError>)
    requires Integrity(db)
    requires forall x | x in rooms :: x in db.rooms
    ensures r.Ok? <==> forall x | x in rooms :: !OnUntypedHotel(db, x.id)
    ensures r.Ok? ==> |r.value| == |rooms| && forall i | 0 <= i < |rooms| :: r.value[i] == SerializeRoom(db, rooms[i]).value
  {
    MapResults(rooms, (x: Room) requires Integrity(db) && x in db.rooms => SerializeRoom(db, x))
  }

  /** The rooms of hotel `hotel`: the reverse relation `rooms`, in table order. */
  function RoomsOf(db: Db, hotel: Id): (r: seq<Room>)
    ensures forall x :: x in r <==> x in db.rooms && x.hotel == hotel
  {
    Filter(db.rooms, (x: Room) => x.hotel == hotel)
  }

  // ---------------------------------------------------------------------
  // Writing through the serializer

  /** Client input for a room. Every field is optional (updates are partial
      by default). `id`, `images` and `totalBookings` are read-only: they may
      be sent but are ignored. */
  datatype RoomInput = RoomInput(
    id: Option<Id>,
    name: Option<string>,
    pricePerNight: Option<Cents>,
    isAvailable: Option<bool>,
    roomType: Option<string>,
    hotel: Option<Id>,
    previewImage: Option<ImageUpload>,
    images: Option<seq<ImageView>>,
    totalBookings: Option<int>)

  datatype InputError =
    | RoomTypeNotFound
    | RoomTypeAmbiguous     // several types carry the name: a server error
    | HotelNotFound
    | NameInvalid
    | PriceInvalid
    | PreviewImageInvalid   // the preview image is not an uploaded image

  /** The room types called `name`. */
  function RoomTypesNamed(db: Db, name: string): (r: seq<RoomType>)
    ensures forall x :: x in r <==> x in db.roomTypes && x.name == name
  {
    Filter(db.roomTypes, (x: RoomType) => x.name == name)
  }

  /** A slug lookup: exactly one type must carry the name. An unknown name
      is a validation error (400). Several types with the name make the
      lookup raise `MultipleObjectsReturned`, which the slug field does not
      catch, so `RoomTypeAmbiguous` stands for a server error (500). */
  function ResolveRoomType(db: Db, name: string): (r: Result<Id, InputError>)
    ensures r.Ok? <==> |RoomTypesNamed(db, name)| == 1
    ensures r.Ok? ==> exists x | x in db.roomTypes :: x.name == name && x.id == r.value
  {
    var named := RoomTypesNamed(db, name);
    if |named| == 0 then Err(RoomTypeNotFound)
    else if |named| > 1 then Err(RoomTypeAmbiguous)
    else assert named[0] in named; Ok(named[0].id)
  }

  predicate InputValid(db: Db, input: RoomInput) {
    && (input.name.Some? ==> CharFieldAccepts(input.name.value, Some(ShortTextMaxLength)))
    && (input.pricePerNight.Some? ==> PriceOk(input.pricePerNight.value))
    && (input.roomType.Some? ==> |RoomTypesNamed(db, input.roomType.value)| == 1)
    && (input.hotel.Some? ==> input.hotel.value in HotelIds(db))
    && input.previewImage != Some(NotAnImage)
  }

  /** Applies client input to `room` the way a partial update does. Every
      field is validated, so an ambiguous type name raises whatever the other
      fields hold. An uploaded preview is stored under the path built from
      the name the room is saved with. */
  function ApplyRoomInput(db: Db, room: Room, input: RoomInput): (r: Result<Room, InputError>)
    ensures r.Ok? <==> InputValid(db, input)
    ensures r.Ok? ==> r.value.id == room.id && r.value.totalBookings == room.totalBookings
    ensures r.Ok? ==> r.value.name == (if input.name.Some? then Strip(input.name.value) else room.name)
    ensures r.Ok? ==> r.value.pricePerNight == input.pricePerNight.GetOr(room.pricePerNight)
    ensures r.Ok? ==> r.value.isAvailable == input.isAvailable.GetOr(room.isAvailable)
    ensures r.Ok? ==> r.value.hotel == input.hotel.GetOr(room.hotel)
    ensures r.Ok? && input.previewImage.None? ==> r.value.previewImage == room.previewImage
    ensures r.Ok? && input.previewImage == Some(NoImage) ==> r.value.previewImage.None?
    ensures r.Ok? && input.previewImage.Some? && input.previewImage.value.ImageFile? ==>
      r.value.previewImage == Some(UploadPath(RoomPreview(r.value.name), input.previewImage.value.filename))
    ensures input.roomType.Some? && |RoomTypesNamed(db, input.roomType.value)| > 1 ==> r == Err(RoomTypeAmbiguous)
    ensures r.Ok? && input.roomType.None? ==> r.value.roomType == room.roomType
    ensures r.Ok? && input.roomType.Some? ==>
      exists x | x in db.roomTypes :: x.name == input.roomType.value && r.value.roomType == Some(x.id)
  {
    if input.roomType.Some? && |RoomTypesNamed(db, input.roomType.value)| > 1 then Err(RoomTypeAmbiguous)
    else if input.name.Some? && !CharFieldAccepts(input.name.value, Some(ShortTextMaxLength)) then Err(NameInvalid)
    else if input.pricePerNight.Some? && !PriceOk(input.pricePerNight.value) then Err(PriceInvalid)
    else if input.hotel.Some? && input.hotel.value !in HotelIds(db) then Err(HotelNotFound)
    else
      var roomType :- if input.roomType.Some? then
          var t :- ResolveRoomType(db, input.roomType.value); Ok(Some(t))
        else Ok(room.roomType);
      if input.previewImage == Some(NotAnImage) then Err(PreviewImageInvalid)
      else
        var fields := room.(
          name := if input.name.Some? then Strip(input.name.value) else room.name,
          pricePerNight := input.pricePerNight.GetOr(room.pricePerNight),
          isAvailable := input.isAvailable.GetOr(room.isAvailable),
          roomType := roomType,
          hotel := input.hotel.GetOr(room.hotel));
        Ok(fields.(previewImage := match input.previewImage
          case None => room.previewImage
          case Some(NoImage) => None
          case Some(ImageFile(f)) => Some(RoomPreviewPath(fields, f))
          case Some(NotAnImage) => room.previewImage))
  }

  /** An uploaded room preview is stored where its path reads back as that
      room's preview with the file name sent, when neither the saved name nor
      the file name contains '/'. */
  lemma AppliedPreviewReadsBack(db: Db, room: Room, input: RoomInput, f: string)
    requires ApplyRoomInput(db, room, input).Ok?
    requires input.previewImage == Some(ImageFile(f))
    requires NoSlash(ApplyRoomInput(db, room, input).value.name) && NoSlash(f)
    ensures var x := ApplyRoomInput(db, room, input).value;
      x.previewImage.Some? && ParseUploadPath(x.previewImage.value) == Some((RoomPreview(x.name), f))
  {
    var x := ApplyRoomInput(db, room, input).value;
    ParseUploadPathRoundTrip(RoomPreview(x.name), f);
  }

  /** Read-only fields: whatever values the client sends for `id`, `images`
      and `total_bookings`, the outcome is the same as if it had sent none. */
  lemma ReadOnlyFieldsIgnored(db: Db, room: Room, input: RoomInput)
    ensures ApplyRoomInput(db, room, input)
         == ApplyRoomInput(db, room, input.(id := None, images := None, totalBookings := None))
  {
  }

  /** The type is written by name and read back by name: when type names are
      unique, sending back the name a room was shown with keeps its type. */
  lemma RoomTypeNameRoundTrip(db: Db, room: Room, t: RoomType)
    requires KeysUnique(db)
    requires t in db.roomTypes && room.roomType == Some(t.id)
    requires forall i, j | 0 <= i < j < |db.roomTypes| :: db.roomTypes[i].name != db.roomTypes[j].name
    ensures RoomTypeName(db, room.roomType) == Some(t.name)
    ensures ResolveRoomType(db, t.name) == Ok(t.id)
  {
    var named := RoomTypesNamed(db, t.name);
    assert t in named;
    if |named| > 1 {
      FilterTwo(db.roomTypes, (x: RoomType) => x.name == t.name);
    }
    assert named[0] in named;
  }
}
