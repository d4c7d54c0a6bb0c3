/** `HotelViewSet` write paths and `me`, through `HotelSerializer`: the
    owner is always the requester on creation, `me` is an exact filter, and
    updates are partial. The serializer exposes name, address, city,
    country, description, type (by name) and preview image for writing;
    id, owner, rooms and images are read-only, and `rating` is not one of
    its fields at all. */
module HotelViews {

  import opened Wrappers
  import opened Seqs
  import opened Text
  import opened Schema
  import opened HotelSerializer
  import opened Uploads

  /** A hotel request body; an absent key is `None`. `id`, `owner` and
      `rating` may be sent but are never written. */
  datatype HotelInput = HotelInput(
    id: Option<Id>,
    owner: Option<Id>,
    name: Option<string>,
    address: Option<string>,
    city: Option<string>,
    country: Option<string>,
    description: Option<string>,
    typeName: Option<string>,
    previewImage: Option<ImageUpload>,
    rating: Option<int>)

  datatype HotelError =
    | FieldRequired        // a required field is missing on creation
    | NameInvalid
    | AddressInvalid
    | CityInvalid
    | CountryInvalid
    | DescriptionInvalid   // holds a NUL character (blank is allowed)
    | HotelTypeNotFound    // no type carries the name
    | HotelTypeAmbiguous   // several types carry the name
    | PreviewImageInvalid  // the preview image is not an uploaded image
    | OwnerNotAUser        // saving with an anonymous requester as owner raises
    | NotFound
    | ServerError          // serialising the answer raised

  /** The hotel types called `name`. */
  function HotelTypesNamed(db: Db, name: string): (r: seq<HotelType>)
    ensures forall x :: x in r <==> x in db.hotelTypes && x.name == name
  {
    Filter(db.hotelTypes, (x: HotelType) => x.name == name)
  }

  /** The slug lookup behind `type`: exactly one type must carry the name.
      An unknown name is a validation error (400). Several types with the
      name make the lookup raise `MultipleObjectsReturned`, which the slug
      field does not catch, so `HotelTypeAmbiguous` stands for a server
      error (500). */
  function ResolveHotelType(db: Db, name: string): (r: Result<Id, HotelError>)
    ensures r.Ok? <==> |HotelTypesNamed(db, name)| == 1
    ensures r.Ok? ==> exists x | x in db.hotelTypes :: x.name == name && x.id == r.value
  {
    var named := HotelTypesNamed(db, name);
    if |named| == 0 then Err(HotelTypeNotFound)
    else if |named| > 1 then Err(HotelTypeAmbiguous)
    else assert named[0] in named; Ok(named[0].id)
  }

  predicate TextValid(v: Option<string>, maxLength: Option<nat>) {
    v.None? || CharFieldAccepts(v.value, maxLength)
  }

  /** The serializer's field checks; on creation the model's required
      fields must all be present. */
  predicate InputValid(db: Db, input: HotelInput, partial: bool) {
    && (!partial ==> input.name.Some? && input.address.Some? && input.city.Some? && input.country.Some? && input.typeName.Some?)
    && TextValid(input.name, Some(HotelNameMaxLength))
    && TextValid(input.address, None)
    && TextValid(input.city, Some(ShortTextMaxLength))
    && TextValid(input.country, Some(ShortTextMaxLength))
    && (input.description.Some? ==> NoNulCharacter(input.description.value))
    && (input.typeName.Some? ==> |HotelTypesNamed(db, input.typeName.value)| == 1)
    && input.previewImage != Some(NotAnImage)
  }

  function CheckInput(db: Db, input: HotelInput, partial: bool): (r: Result<Option<Id>, HotelError>)
    ensures r.Ok? <==> InputValid(db, input, partial)
    ensures r.Ok? ==> (r.value.None? <==> input.typeName.None?)
    ensures r.Ok? && input.typeName.Some? ==>
      exists x | x in db.hotelTypes :: x.name == input.typeName.value && r.value == Some(x.id)
    ensures input.typeName.Some? && |HotelTypesNamed(db, input.typeName.value)| > 1 ==> r == Err(HotelTypeAmbiguous)
  {
    // every field is validated, and the ambiguous slug lookup raises
    // whatever the other fields hold
    if input.typeName.Some? && |HotelTypesNamed(db, input.typeName.value)| > 1 then Err(HotelTypeAmbiguous)
    else if !partial && !(input.name.Some? && input.address.Some? && input.city.Some? && input.country.Some? && input.typeName.Some?) then
      Err(FieldRequired)
    else if !TextValid(input.name, Some(HotelNameMaxLength)) then Err(NameInvalid)
    else if !TextValid(input.address, None) then Err(AddressInvalid)
    else if !TextValid(input.city, Some(ShortTextMaxLength)) then Err(CityInvalid)
    else if !TextValid(input.country, Some(ShortTextMaxLength)) then Err(CountryInvalid)
    else if input.description.Some? && !NoNulCharacter(input.description.value) then Err(DescriptionInvalid)
    else
      var t :- if input.typeName.Some? then
          var x :- ResolveHotelType(db, input.typeName.value); Ok(Some(x))
        else Ok(None);
      if input.previewImage == Some(NotAnImage) then Err(PreviewImageInvalid) else Ok(t)
  }

  /** A present text value as stored: stripped. */
  function Stored(v: Option<string>, current: string): string {
    if v.Some? then Strip(v.value) else current
  }

  /** `h` with the present fields of `input` written to it; `t` is the
      resolved type when a type name was sent. An uploaded preview is stored
      under the path built from the name the hotel is saved with. */
  function Patched(h: Hotel, input: HotelInput, t: Option<Id>): (r: Hotel)
    ensures r.id == h.id && r.owner == h.owner && r.rating == h.rating
    ensures input.name.None? ==> r.name == h.name
    ensures input.address.None? ==> r.address == h.address
    ensures input.city.None? ==> r.city == h.city
    ensures input.country.None? ==> r.country == h.country
    ensures input.description.None? ==> r.description == h.description
    ensures t.None? ==> r.hotelType == h.hotelType
    ensures input.previewImage.None? ==> r.previewImage == h.previewImage
    ensures input.previewImage == Some(NoImage) ==> r.previewImage.None?
    ensures input.previewImage.Some? && input.previewImage.value.ImageFile? ==>
      r.previewImage == Some(UploadPath(HotelPreview(r.name), input.previewImage.value.filename))
  {
    var fields := h.(name := Stored(input.name, h.name),
       address := Stored(input.address, h.address),
       city := Stored(input.city, h.city),
       country := Stored(input.country, h.country),
       description := if input.description.Some? then Some(Strip(input.description.value)) else h.description,
       hotelType := if t.Some? then t else h.hotelType);
    fields.(previewImage := match input.previewImage
      case None => h.previewImage
      case Some(NoImage) => None
      case Some(ImageFile(f)) => Some(HotelPreviewPath(fields, f))
      case Some(NotAnImage) => h.previewImage)
  }

  /** An id above every existing hotel id. */
  function NextHotelId(hs: seq<Hotel>): (id: Id)
    ensures forall h | h in hs :: h.id < id
  {
    if hs == [] then 1
    else
      var rest := NextHotelId(hs[1..]);
      assert forall h | h in hs :: h == hs[0] || h in hs[1..];
      if hs[0].id + 1 > rest then hs[0].id + 1 else rest
  }

  datatype CreatedHotel = CreatedHotel(db: Db, hotel: Hotel)

  /** `POST /hotels/`: the serializer validates, then `perform_create` saves
      with the requester as owner. Any requester may call it; for an
      anonymous one the save raises. */
  function CreateHotel(db: Db, who: Requester, input: HotelInput): (r: Result<CreatedHotel, HotelError>)
    ensures r.Ok? <==> InputValid(db, input, false) && who.SignedIn?
    ensures InputValid(db, input, false) && who.Anonymous? ==> r == Err(OwnerNotAUser)
    ensures input.typeName.Some? && |HotelTypesNamed(db, input.typeName.value)| > 1 ==> r == Err(HotelTypeAmbiguous)
    ensures r.Ok? ==>
      && r.value.hotel.owner == who.user
      && r.value.db == db.(hotels := db.hotels + [r.value.hotel])
      && (forall h | h in db.hotels :: h.id != r.value.hotel.id)
      && r.value.hotel.name == Strip(input.name.value) && r.value.hotel.address == Strip(input.address.value)
      && r.value.hotel.city == Strip(input.city.value) && r.value.hotel.country == Strip(input.country.value)
      && r.value.hotel.description == (if input.description.Some? then Some(Strip(input.description.value)) else None)
      && (input.previewImage.None? || input.previewImage == Some(NoImage) ==> r.value.hotel.previewImage.None?)
      && (input.previewImage.Some? && input.previewImage.value.ImageFile? ==>
            r.value.hotel.previewImage == Some(UploadPath(HotelPreview(r.value.hotel.name), input.previewImage.value.filename)))
      && r.value.hotel.rating.None?
      && exists x | x in db.hotelTypes :: x.name == input.typeName.value && r.value.hotel.hotelType == Some(x.id)
  {
    var t :- CheckInput(db, input, false);
    if who.Anonymous? then Err(OwnerNotAUser)
    else
      var blank := Hotel(NextHotelId(db.hotels), who.user, "", "", "", "", None, None, None, None);
      var h := Patched(blank, input, t);
      Ok(CreatedHotel(db.(hotels := db.hotels + [h]), h))
  }

  /** An uploaded preview of a created hotel is stored where its path reads
      back as that hotel's preview with the file name sent, when neither the
      name nor the file name contains '/'. */
  lemma CreatedPreviewReadsBack(db: Db, who: Requester, input: HotelInput, f: string)
    requires CreateHotel(db, who, input).Ok?
    requires input.previewImage == Some(ImageFile(f))
    requires NoSlash(CreateHotel(db, who, input).value.hotel.name) && NoSlash(f)
    ensures var h := CreateHotel(db, who, input).value.hotel;
      h.previewImage.Some? && ParseUploadPath(h.previewImage.value) == Some((HotelPreview(h.name), f))
  {
    var h := CreateHotel(db, who, input).value.hotel;
    ParseUploadPathRoundTrip(HotelPreview(h.name), f);
  }

  /** Whatever owner the body names, the hotel belongs to the requester. */
  lemma OwnerInBodyIgnored(db: Db, u: Id, input: HotelInput, claimed: Id)
    ensures CreateHotel(db, SignedIn(u), input.(owner := Some(claimed)))
         == CreateHotel(db, SignedIn(u), input.(owner := None))
  {
    var a, b := input.(owner := Some(claimed)), input.(owner := None);
    CheckInputIgnoresOwner(db, input, claimed);
    if CheckInput(db, a, false).Ok? {
      var t := CheckInput(db, a, false).value;
      PatchedIgnoresOwner(Hotel(NextHotelId(db.hotels), u, "", "", "", "", None, None, None, None), input, claimed, t);
    }
  }

  lemma CheckInputIgnoresOwner(db: Db, input: HotelInput, claimed: Id)
    ensures CheckInput(db, input.(owner := Some(claimed)), false) == CheckInput(db, input.(owner := None), false)
  {
  }

  lemma PatchedIgnoresOwner(h: Hotel, input: HotelInput, claimed: Id, t: Option<Id>)
    ensures Patched(h, input.(owner := Some(claimed)), t) == Patched(h, input.(owner := None), t)
  {
  }

  /** Replacing the hotel table keeps integrity when no hotel id is lost,
      hotel ids stay unique and every hotel's references resolve. */
  lemma HotelTableReplaced(db: Db, d: Db)
    requires Integrity(db)
    requires d == db.(hotels := d.hotels)
    requires HotelIds(db) <= HotelIds(d)
    requires forall a, b | a in d.hotels && b in d.hotels :: a.id == b.id ==> a == b
    requires HotelsResolve(d)
    ensures Integrity(d)
  {
    assert UserIds(d) == UserIds(db) && RoomIds(d) == RoomIds(db) && RoomTypeIds(d) == RoomTypeIds(db);
    assert RoomsResolve(d) by {
      forall r | r in d.rooms ensures r.hotel in HotelIds(d) {
        assert r.hotel in HotelIds(db);
      }
    }
    assert HotelImagesResolve(d) by {
      forall i | i in d.hotelImages ensures i.hotel in HotelIds(d) {
        assert i.hotel in HotelIds(db);
      }
    }
  }

  /** Adding a hotel with a fresh id and resolvable references keeps
      integrity. */
  lemma AddHotelKeepsIntegrity(db: Db, h: Hotel)
    requires Integrity(db)
    requires forall x | x in db.hotels :: x.id != h.id
    requires h.owner in UserIds(db)
    requires h.hotelType.None? || h.hotelType.value in HotelTypeIds(db)
    ensures Integrity(db.(hotels := db.hotels + [h]))
  {
    var d := db.(hotels := db.hotels + [h]);
    assert forall x | x in d.hotels :: x in db.hotels || x == h;
    assert HotelIds(db) <= HotelIds(d) by {
      forall k | k in HotelIds(db) ensures k in HotelIds(d) {
        var x :| x in db.hotels && x.id == k;
        assert x in d.hotels;
      }
    }
    HotelTableReplaced(db, d);
  }

  /** Creation by an existing user keeps every key unique and every
      reference resolvable. */
  lemma CreateHotelKeepsIntegrity(db: Db, who: Requester, input: HotelInput)
    requires Integrity(db)
    requires who.SignedIn? ==> HasUser(db, who.user)
    requires CreateHotel(db, who, input).Ok?
    ensures Integrity(CreateHotel(db, who, input).value.db)
  {
    var c := CreateHotel(db, who, input).value;
    var x :| x in db.hotelTypes && x.name == input.typeName.value && c.hotel.hotelType == Some(x.id);
    assert c.hotel.hotelType.value in HotelTypeIds(db);
    AddHotelKeepsIntegrity(db, c.hotel);
  }

  /** The rows of `GET /hotels/me/`: exactly `u`'s hotels, in table order. */
  function MyHotelRows(db: Db, u: Id): (r: seq<Hotel>)
    ensures forall h :: h in r <==> h in db.hotels && h.owner == u
    ensures forall h :: multiset(r)[h] == if h.owner == u then multiset(db.hotels)[h] else 0
    ensures Subseq(r, db.hotels)
  {
    FilterExact(db.hotels, (h: Hotel) => h.owner == u);
    Filter(db.hotels, (h: Hotel) => h.owner == u)
  }

  /** `GET /hotels/me/`: the requester's hotels through `HotelSerializer`.
      The action declares no permission, and filtering by an anonymous
      requester raises; a hotel without a type that has rooms makes the
      serializer raise. */
  function MyHotels(db: Db, who: Requester): (r: Result<seq<HotelView>, HotelError>)
    requires Integrity(db)
    ensures r == Err(OwnerNotAUser) <==> who.Anonymous?
    ensures who.SignedIn? ==>
      (r == Err(ServerError) <==> exists h | h in db.hotels && h.owner == who.user :: UntypedWithRooms(db, h))
    ensures r.Ok? ==>
      var rows := MyHotelRows(db, who.user);
      |r.value| == |rows| && forall i | 0 <= i < |rows| :: r.value[i] == SerializeHotel(db, rows[i]).value
    ensures r.Ok? ==> forall i | 0 <= i < |r.value| :: r.value[i].owner == who.user
  {
    if who.Anonymous? then Err(OwnerNotAUser)
    else
      var rows := MyHotelRows(db, who.user);
      MyHotelRowsSerialize(db, who.user);
      match SerializeHotels(db, rows)
      case Err(_) => Err(ServerError)
      case Ok(views) => Ok(views)
  }

  /** `u`'s hotels serialise unless one of them has no type and has rooms;
      each serialised hotel is owned by `u`. */
  lemma MyHotelRowsSerialize(db: Db, u: Id)
    requires Integrity(db)
    ensures forall h | h in MyHotelRows(db, u) :: h in db.hotels
    ensures SerializeHotels(db, MyHotelRows(db, u)).Ok? <==>
      forall h | h in db.hotels && h.owner == u :: !UntypedWithRooms(db, h)
    ensures SerializeHotels(db, MyHotelRows(db, u)).Ok? ==>
      forall i | 0 <= i < |MyHotelRows(db, u)| :: SerializeHotels(db, MyHotelRows(db, u)).value[i].owner == u
  {
    var rows := MyHotelRows(db, u);
    assert forall i | 0 <= i < |rows| :: rows[i] in rows;
  }

  /** A hotel created by `u` is among `u`'s hotels. */
  lemma CreatedHotelIsMine(db: Db, u: Id, input: HotelInput)
    requires CreateHotel(db, SignedIn(u), input).Ok?
    ensures CreateHotel(db, SignedIn(u), input).value.hotel in
            MyHotelRows(CreateHotel(db, SignedIn(u), input).value.db, u)
  {
  }

  /** Rewrites every hotel whose id is `id`. */
  function PatchHotels(hs: seq<Hotel>, id: Id, input: HotelInput, t: Option<Id>): (r: seq<Hotel>)
    ensures |r| == |hs|
    ensures forall i | 0 <= i < |hs| :: r[i] == if hs[i].id == id then Patched(hs[i], input, t) else hs[i]
  {
    seq(|hs|, i requires 0 <= i < |hs| => if hs[i].id == id then Patched(hs[i], input, t) else hs[i])
  }

  /** `PUT`/`PATCH /hotels/<id>/`, partial in both cases and open to any
      requester: only the fields sent are checked and written. */
  function UpdateHotel(db: Db, who: Requester, id: Id, input: HotelInput): (r: Result<Db, HotelError>)
    ensures (forall h | h in db.hotels :: h.id != id) ==> r == Err(NotFound)
    ensures (exists h | h in db.hotels :: h.id == id) ==> (r.Ok? <==> InputValid(db, input, true))
    ensures r.Ok? ==> |r.value.hotels| == |db.hotels|
    ensures r.Ok? ==> forall i | 0 <= i < |db.hotels| ::
      var before, after := db.hotels[i], r.value.hotels[i];
      && after.id == before.id && after.owner == before.owner && after.rating == before.rating
      && (before.id != id ==> after == before)
      && (input.name.None? ==> after.name == before.name)
      && (input.address.None? ==> after.address == before.address)
      && (input.city.None? ==> after.city == before.city)
      && (input.country.None? ==> after.country == before.country)
      && (input.description.None? ==> after.description == before.description)
      && (input.typeName.None? ==> after.hotelType == before.hotelType)
      && (input.previewImage.None? ==> after.previewImage == before.previewImage)
    ensures r.Ok? ==> forall i | 0 <= i < |db.hotels| && db.hotels[i].id == id ::
      var after := r.value.hotels[i];
      && (input.name.Some? ==> after.name == Strip(input.name.value))
      && (input.address.Some? ==> after.address == Strip(input.address.value))
      && (input.city.Some? ==> after.city == Strip(input.city.value))
      && (input.country.Some? ==> after.country == Strip(input.country.value))
      && (input.description.Some? ==> after.description == Some(Strip(input.description.value)))
      && (input.previewImage == Some(NoImage) ==> after.previewImage.None?)
      && (input.previewImage.Some? && input.previewImage.value.ImageFile? ==>
            after.previewImage == Some(UploadPath(HotelPreview(after.name), input.previewImage.value.filename)))
      && (input.typeName.Some? ==>
            exists x | x in db.hotelTypes :: x.name == input.typeName.value && after.hotelType == Some(x.id))
    ensures r.Ok? ==> r.value == db.(hotels := r.value.hotels)
  {
    if Find(db.hotels, HotelKey, id).None? then Err(NotFound)
    else
      var t :- CheckInput(db, input, true);
      Ok(db.(hotels := PatchHotels(db.hotels, id, input, t)))
  }

  /** Updating an existing hotel with a type name that several types carry
      is a server error, whatever else the body holds. */
  lemma AmbiguousTypeFailsUpdate(db: Db, who: Requester, id: Id, input: HotelInput)
    requires exists h | h in db.hotels :: h.id == id
    requires input.typeName.Some? && |HotelTypesNamed(db, input.typeName.value)| > 1
    ensures UpdateHotel(db, who, id, input) == Err(HotelTypeAmbiguous)
  {
    var h :| h in db.hotels && h.id == id;
    assert Find(db.hotels, HotelKey, id).Some?;
  }

  /** The outcome of an update does not depend on who asks. */
  lemma UpdateIgnoresRequester(db: Db, a: Requester, b: Requester, id: Id, input: HotelInput)
    ensures UpdateHotel(db, a, id, input) == UpdateHotel(db, b, id, input)
  {
  }

  /** An update that sends no field leaves the database as it was. */
  lemma EmptyUpdateChangesNothing(db: Db, who: Requester, id: Id)
    requires exists h | h in db.hotels :: h.id == id
    ensures UpdateHotel(db, who, id, HotelInput(None, None, None, None, None, None, None, None, None, None)) == Ok(db)
  {
    var r := UpdateHotel(db, who, id, HotelInput(None, None, None, None, None, None, None, None, None, None));
    assert r.value.hotels == db.hotels;
  }

  /** Patching keeps the id of every row in place. */
  lemma PatchHotelsKeepsIds(db: Db, id: Id, input: HotelInput, t: Option<Id>)
    ensures HotelIds(db.(hotels := PatchHotels(db.hotels, id, input, t))) == HotelIds(db)
  {
    var d := db.(hotels := PatchHotels(db.hotels, id, input, t));
    forall k | k in HotelIds(d) ensures k in HotelIds(db) {
      var h :| h in d.hotels && h.id == k;
      var j :| 0 <= j < |d.hotels| && d.hotels[j] == h;
      assert db.hotels[j] in db.hotels;
    }
    forall k | k in HotelIds(db) ensures k in HotelIds(d) {
      var h :| h in db.hotels && h.id == k;
      var j :| 0 <= j < |db.hotels| && db.hotels[j] == h;
      assert d.hotels[j] in d.hotels;
    }
  }

  /** Patching rows that have unique ids leaves the ids unique. */
  lemma PatchHotelsKeepsKeysUnique(hs: seq<Hotel>, id: Id, input: HotelInput, t: Option<Id>)
    requires forall a, b | a in hs && b in hs :: a.id == b.id ==> a == b
    ensures var ps := PatchHotels(hs, id, input, t);
      forall a, b | a in ps && b in ps :: a.id == b.id ==> a == b
  {
    var ps := PatchHotels(hs, id, input, t);
    forall a, b | a in ps && b in ps && a.id == b.id ensures a == b {
      var i :| 0 <= i < |ps| && ps[i] == a;
      var j :| 0 <= j < |ps| && ps[j] == b;
      assert hs[i] in hs && hs[j] in hs;
    }
  }

  /** Patched rows keep their owner and get a type that exists. */
  lemma PatchHotelsKeepsReferences(db: Db, id: Id, input: HotelInput, t: Option<Id>)
    requires HotelsResolve(db)
    requires t.None? || t.value in HotelTypeIds(db)
    ensures HotelsResolve(db.(hotels := PatchHotels(db.hotels, id, input, t)))
  {
    var d := db.(hotels := PatchHotels(db.hotels, id, input, t));
    forall h | h in d.hotels ensures h.owner in UserIds(d) && (h.hotelType.None? || h.hotelType.value in HotelTypeIds(d)) {
      var j :| 0 <= j < |d.hotels| && d.hotels[j] == h;
      assert db.hotels[j] in db.hotels;
    }
  }

  /** Updates keep every key unique and every reference resolvable. */
  lemma UpdateHotelKeepsIntegrity(db: Db, who: Requester, id: Id, input: HotelInput)
    requires Integrity(db)
    requires UpdateHotel(db, who, id, input).Ok?
    ensures Integrity(UpdateHotel(db, who, id, input).value)
  {
    var t := CheckInput(db, input, true).value;
    if t.Some? {
      var x :| x in db.hotelTypes && x.name == input.typeName.value && t == Some(x.id);
      assert t.value in HotelTypeIds(db);
    }
    var d := db.(hotels := PatchHotels(db.hotels, id, input, t));
    assert UpdateHotel(db, who, id, input).value == d;
    PatchHotelsKeepsIds(db, id, input, t);
    PatchHotelsKeepsKeysUnique(db.hotels, id, input, t);
    PatchHotelsKeepsReferences(db, id, input, t);
    HotelTableReplaced(db, d);
  }
}
