/** The relational data model: one record per Django model of the core
    (users and groups, profiles, hotel types, hotels and their gallery images,
    room types, rooms and their gallery images, bookings), the field bounds the
    models declare, and referential integrity across tables. Foreign keys are
    ids; a nullable foreign key is an `Option`. */
module Schema {

  import opened Wrappers
  import opened Seqs
  import opened Text

  /** Primary keys are non-negative integers. */
  type Id = nat

  /** A calendar date, as a day number. */
  type Date = int

  /** A timestamp (`auto_now` / `auto_now_add`), as a monotone clock reading. */
  type Instant = int

  /** Who sends a request: nobody, or a signed-in user. */
  datatype Requester = Anonymous | SignedIn(user: Id)

  /** A decimal amount with two decimal places, as a whole number of cents. */
  type Cents = int

  datatype Group = Group(id: Id, name: string)

  /** `CustomUser`: `password` holds whatever `set_password` stored. */
  datatype User = User(id: Id, email: string, phone: string, password: string, groups: seq<Id>)

  datatype Profile = Profile(
    id: Id,
    user: Id,
    username: string,
    bio: Option<string>,
    birthDate: Option<Date>,
    location: Option<string>,
    totalBookings: int,
    profilePicture: Option<string>)

  datatype HotelType = HotelType(id: Id, name: string, description: Option<string>)

  datatype Hotel = Hotel(
    id: Id,
    owner: Id,
    name: string,
    address: string,
    city: string,
    country: string,
    description: Option<string>,
    rating: Option<int>,
    hotelType: Option<Id>,
    previewImage: Option<string>)

  datatype HotelImage = HotelImage(id: Id, hotel: Id, image: string, uploadedAt: Instant)

  datatype RoomType = RoomType(id: Id, name: string, description: Option<string>)

  datatype Room = Room(
    id: Id,
    hotel: Id,
    roomType: Option<Id>,
    name: string,
    pricePerNight: Cents,
    isAvailable: bool,
    previewImage: Option<string>,
    totalBookings: int)

  datatype RoomImage = RoomImage(id: Id, room: Id, image: string, uploadedAt: Instant)

  datatype Booking = Booking(
    id: Id,
    user: Id,
    room: Id,
    startDate: Date,
    endDate: Date,
    createdAt: Instant,
    updatedAt: Instant,
    status: string)

  /** The whole database, one sequence per table in table order. */
  datatype Db = Db(
    users: seq<User>,
    groups: seq<Group>,
    profiles: seq<Profile>,
    hotelTypes: seq<HotelType>,
    hotels: seq<Hotel>,
    hotelImages: seq<HotelImage>,
    roomTypes: seq<RoomType>,
    rooms: seq<Room>,
    roomImages: seq<RoomImage>,
    bookings: seq<Booking>)

  // ---------------------------------------------------------------------
  // Field bounds

  /** `price_per_night` is a decimal of at most 10 digits, 2 after the point:
      its magnitude in cents stays below 10^10. */
  const PriceCentsBound: int := 10_000_000_000

  const StatusMaxLength: nat := 50
  const HotelNameMaxLength: nat := 255
  const ShortTextMaxLength: nat := 100

  /** A hotel's rating is absent or an integer from 1 to 5. */
  predicate RatingOk(rating: Option<int>) {
    rating.None? || 1 <= rating.value <= 5
  }

  predicate PriceOk(price: Cents) {
    -PriceCentsBound < price < PriceCentsBound
  }

  /** A booking's status is any string of at most 50 characters: the model
      declares no set of allowed values. */
  predicate StatusOk(status: string) {
    |status| <= StatusMaxLength
  }

  /** The REST framework refuses any text holding a NUL character. */
  predicate NoNulCharacter(s: string) {
    '\0' !in s
  }

  /** A text field as the API accepts it: the value is stored stripped of
      surrounding spaces, must not be blank, must hold no NUL character, and
      must fit the column's bound when it has one. */
  predicate CharFieldAccepts(s: string, maxLength: Option<nat>) {
    Strip(s) != [] && NoNulCharacter(s) && (maxLength.None? || |Strip(s)| <= maxLength.value)
  }

  predicate HotelFieldsOk(h: Hotel) {
    && |h.name| <= HotelNameMaxLength
    && |h.city| <= ShortTextMaxLength
    && |h.country| <= ShortTextMaxLength
    && RatingOk(h.rating)
  }

  predicate RoomFieldsOk(r: Room) {
    |r.name| <= ShortTextMaxLength && PriceOk(r.pricePerNight)
  }

  predicate ProfileFieldsOk(p: Profile) {
    && |p.username| <= ShortTextMaxLength
    && (p.location.None? || |p.location.value| <= ShortTextMaxLength)
  }

  // ---------------------------------------------------------------------
  // Defaults

  /** A room as created when only its required fields are given. */
  function NewRoom(id: Id, hotel: Id, roomType: Option<Id>, name: string, price: Cents, previewImage: Option<string>): (r: Room)
    ensures r.isAvailable && r.totalBookings == 0
    ensures r.id == id && r.hotel == hotel && r.roomType == roomType && r.name == name
    ensures r.pricePerNight == price && r.previewImage == previewImage
    ensures RoomFieldsOk(r) <==> |name| <= ShortTextMaxLength && PriceOk(price)
  {
    Room(id, hotel, roomType, name, price, true, previewImage, 0)
  }

  /** A profile as created when only the user and username are given: every
      optional field is empty and the booking counter starts at zero. */
  function NewProfile(id: Id, user: Id, username: string): (p: Profile)
    ensures p.totalBookings == 0
    ensures p.bio.None? && p.birthDate.None? && p.location.None? && p.profilePicture.None?
    ensures p.id == id && p.user == user && p.username == username
  {
    Profile(id, user, username, None, None, None, 0, None)
  }

  // ---------------------------------------------------------------------
  // String forms

  /** `Room.__str__`: the hotel's name, " - ", then the room's name. */
  function RoomLabel(h: Hotel, r: Room): (s: string)
    requires r.hotel == h.id
    ensures |s| == |h.name| + 3 + |r.name|
    ensures s[..|h.name|] == h.name
    ensures s[|h.name|..|h.name| + 3] == " - "
    ensures s[|h.name| + 3..] == r.name
  {
    h.name + " - " + r.name
  }

  /** `Profile.__str__`: "Profile of " followed by the owner's email. */
  function ProfileLabel(p: Profile, u: User): (s: string)
    requires p.user == u.id
    ensures |s| == 11 + |u.email|
    ensures s[..11] == "Profile of "
    ensures s[11..] == u.email
  {
    "Profile of " + u.email
  }

  /** Within one hotel a room's label determines its name: two rooms of the
      same hotel share a label exactly when they share a name. */
  lemma RoomLabelsDistinguishNames(h: Hotel, r1: Room, r2: Room)
    requires r1.hotel == h.id && r2.hotel == h.id
    ensures RoomLabel(h, r1) == RoomLabel(h, r2) <==> r1.name == r2.name
  {
    if RoomLabel(h, r1) == RoomLabel(h, r2) {
      assert r1.name == RoomLabel(h, r1)[|h.name| + 3..];
    }
  }

  /** Profile labels are as distinct as the users' e-mails. */
  lemma ProfileLabelsDistinguishEmails(p1: Profile, u1: User, p2: Profile, u2: User)
    requires p1.user == u1.id && p2.user == u2.id
    ensures ProfileLabel(p1, u1) == ProfileLabel(p2, u2) <==> u1.email == u2.email
  {
    if ProfileLabel(p1, u1) == ProfileLabel(p2, u2) {
      assert u1.email == ProfileLabel(p1, u1)[11..];
    }
  }

  // ---------------------------------------------------------------------
  // Lookups and referential integrity

  function UserKey(u: User): nat { u.id }
  function GroupKey(g: Group): nat { g.id }
  function HotelKey(h: Hotel): nat { h.id }
  function RoomKey(r: Room): nat { r.id }
  function HotelTypeKey(t: HotelType): nat { t.id }
  function RoomTypeKey(t: RoomType): nat { t.id }

  function UserIds(db: Db): set<Id> {
    set u | u in db.users :: u.id
  }

  function HotelIds(db: Db): set<Id> {
    set h | h in db.hotels :: h.id
  }

  function RoomIds(db: Db): set<Id> {
    set r | r in db.rooms :: r.id
  }

  function HotelTypeIds(db: Db): set<Id> {
    set t | t in db.hotelTypes :: t.id
  }

  function RoomTypeIds(db: Db): set<Id> {
    set t | t in db.roomTypes :: t.id
  }

  predicate HasUser(db: Db, id: Id) {
    id in UserIds(db)
  }

  predicate HasRoom(db: Db, id: Id) {
    id in RoomIds(db)
  }

  /** No two distinct rows of one table share a primary key. */
  predicate KeysUnique(db: Db) {
    && (forall a, b | a in db.users && b in db.users :: a.id == b.id ==> a == b)
    && (forall a, b | a in db.profiles && b in db.profiles :: a.id == b.id ==> a == b)
    && (forall a, b | a in db.hotels && b in db.hotels :: a.id == b.id ==> a == b)
    && (forall a, b | a in db.rooms && b in db.rooms :: a.id == b.id ==> a == b)
    && (forall a, b | a in db.bookings && b in db.bookings :: a.id == b.id ==> a == b)
    && (forall a, b | a in db.groups && b in db.groups :: a.id == b.id ==> a == b)
    && (forall a, b | a in db.hotelTypes && b in db.hotelTypes :: a.id == b.id ==> a == b)
    && (forall a, b | a in db.roomTypes && b in db.roomTypes :: a.id == b.id ==> a == b)
  }

  /** `Profile.user` is one-to-one: at most one profile per user. */
  predicate OneProfilePerUser(db: Db) {
    forall a, b | a in db.profiles && b in db.profiles :: a.user == b.user ==> a == b
  }

  /** Every foreign key names an existing row; a nullable one may be empty. */
  predicate ProfilesResolve(db: Db) {
    forall p | p in db.profiles :: p.user in UserIds(db)
  }

  predicate HotelsResolve(db: Db) {
    forall h | h in db.hotels :: h.owner in UserIds(db) && (h.hotelType.None? || h.hotelType.value in HotelTypeIds(db))
  }

  predicate HotelImagesResolve(db: Db) {
    forall i | i in db.hotelImages :: i.hotel in HotelIds(db)
  }

  predicate RoomsResolve(db: Db) {
    forall r | r in db.rooms :: r.hotel in HotelIds(db) && (r.roomType.None? || r.roomType.value in RoomTypeIds(db))
  }

  predicate RoomImagesResolve(db: Db) {
    forall i | i in db.roomImages :: i.room in RoomIds(db)
  }

  predicate BookingsResolve(db: Db) {
    forall b | b in db.bookings :: b.user in UserIds(db) && b.room in RoomIds(db)
  }

  predicate ReferencesResolve(db: Db) {
    && ProfilesResolve(db) && HotelsResolve(db) && HotelImagesResolve(db)
    && RoomsResolve(db) && RoomImagesResolve(db) && BookingsResolve(db)
  }

  predicate Integrity(db: Db) {
    KeysUnique(db) && OneProfilePerUser(db) && ReferencesResolve(db)
  }

  // ---------------------------------------------------------------------
  // Profiles

  datatype ProfileError = UnknownUser | ProfileExists

  /** Saving a new profile: the user must exist and must not have one yet
      (the one-to-one key is unique). */
  function AddProfile(db: Db, p: Profile): (r: Result<Db, ProfileError>)
    ensures r.Err? <==> !HasUser(db, p.user) || (exists q | q in db.profiles :: q.user == p.user)
    ensures r.Ok? ==> r.value == db.(profiles := db.profiles + [p])
  {
    if !HasUser(db, p.user) then Err(UnknownUser)
    else if exists q | q in db.profiles :: q.user == p.user then Err(ProfileExists)
    else Ok(db.(profiles := db.profiles + [p]))
  }

  /** Adding a profile through `AddProfile` keeps every user at one profile
      at most and keeps every reference resolvable. */
  lemma AddProfileKeepsIntegrity(db: Db, p: Profile)
    requires Integrity(db)
    requires forall q | q in db.profiles :: q.id != p.id
    requires AddProfile(db, p).Ok?
    ensures Integrity(AddProfile(db, p).value)
  {
    var db' := AddProfile(db, p).value;
    assert forall q | q in db'.profiles :: q in db.profiles || q == p;
  }
}
