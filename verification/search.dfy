/** `search_accommodations`: a conjunction of optional criteria over hotels
    and rooms, rooms scoped to the hotels found, then an optional ordering.

    Query parameters arrive as strings. Text criteria are used as given; a
    non-empty price or date must be converted to a decimal or a date before
    the query runs, and a value that does not convert raises a validation
    error. The conversions themselves are parameters (`parsePrice`,
    `parseDate`). The date criterion is read as "some booking of this room
    overlaps the stay" (one booking satisfying both bounds). */
module Search {

  import opened Wrappers
  import opened Seqs
  import opened Text
  import opened Sorting
  import opened Schema
  import opened Bookings

  /** `request.GET` as a dictionary. */
  type Params = map<string, string>

  /** `params.get(key)`, with an absent key read as the empty string: both
      are falsy, and only a non-empty value is a criterion. */
  function Param(params: Params, key: string): string {
    if key in params then params[key] else ""
  }

  // ---------------------------------------------------------------------
  // Ordering

  /** The room fields an ordering may name. */
  datatype SortField = ById | ByName | ByPrice | ByAvailability | ByBookings | ByHotel

  datatype Ordering = Ordering(field: SortField, descending: bool)

  datatype SearchError =
    | BadValue(key: string)        // a value that does not convert (Django's ValidationError)
    | UnknownField(name: string)   // `order_by` on a name the model lacks (FieldError)

  function FieldNamed(name: string): Option<SortField> {
    if name == "id" || name == "pk" then Some(ById)
    else if name == "name" then Some(ByName)
    else if name == "price_per_night" then Some(ByPrice)
    else if name == "is_available" then Some(ByAvailability)
    else if name == "total_bookings" then Some(ByBookings)
    else if name == "hotel" || name == "hotel_id" then Some(ByHotel)
    else None
  }

  /** An `order_by` argument: a field name, descending when prefixed by "-". */
  function ParseOrdering(s: string): (r: Result<Ordering, SearchError>)
    ensures r.Ok? && !r.value.descending ==> FieldNamed(s) == Some(r.value.field)
    ensures r.Ok? && r.value.descending ==> s != [] && s[0] == '-' && FieldNamed(s[1..]) == Some(r.value.field)
    ensures r.Err? <==> if s != [] && s[0] == '-' then FieldNamed(s[1..]).None? else FieldNamed(s).None?
  {
    var descending := s != [] && s[0] == '-';
    var name := if descending then s[1..] else s;
    match FieldNamed(name)
    case Some(f) => Ok(Ordering(f, descending))
    case None => Err(UnknownField(s))
  }

  /** Code-point lexicographic order on strings. */
  predicate LexLe(a: string, b: string) {
    a == [] || (b != [] && (a[0] < b[0] || (a[0] == b[0] && LexLe(a[1..], b[1..]))))
  }

  lemma {:induction false} LexLeTotal(a: string, b: string)
    ensures LexLe(a, b) || LexLe(b, a)
  {
    if a != [] && b != [] && a[0] == b[0] {
      LexLeTotal(a[1..], b[1..]);
    }
  }

  lemma {:induction false} LexLeTransitive(a: string, b: string, c: string)
    requires LexLe(a, b) && LexLe(b, c)
    ensures LexLe(a, c)
  {
    if a != [] && b != [] && c != [] && a[0] == b[0] && b[0] == c[0] {
      LexLeTransitive(a[1..], b[1..], c[1..]);
    }
  }

  /** Strings that are each other's `LexLe` bound are equal. */
  lemma {:induction false} LexLeAntisymmetric(a: string, b: string)
    requires LexLe(a, b) && LexLe(b, a)
    ensures a == b
  {
    if a != [] && b != [] {
      LexLeAntisymmetric(a[1..], b[1..]);
      assert a == [a[0]] + a[1..] && b == [b[0]] + b[1..];
    }
  }

  /** Ascending comparison of two rooms on one field. */
  predicate FieldLe(f: SortField, a: Room, b: Room) {
    match f
    case ById => a.id <= b.id
    case ByName => LexLe(a.name, b.name)
    case ByPrice => a.pricePerNight <= b.pricePerNight
    case ByAvailability => !a.isAvailable || b.isAvailable
    case ByBookings => a.totalBookings <= b.totalBookings
    case ByHotel => a.hotel <= b.hotel
  }

  /** `a` may come before `b` under ordering `o`. */
  predicate RoomBefore(o: Ordering, a: Room, b: Room) {
    if o.descending then FieldLe(o.field, b, a) else FieldLe(o.field, a, b)
  }

  lemma FieldLeTotalPreorder(f: SortField, a: Room, b: Room, c: Room)
    ensures FieldLe(f, a, b) || FieldLe(f, b, a)
    ensures FieldLe(f, a, b) && FieldLe(f, b, c) ==> FieldLe(f, a, c)
  {
    if f == ByName {
      LexLeTotal(a.name, b.name);
      if LexLe(a.name, b.name) && LexLe(b.name, c.name) {
        LexLeTransitive(a.name, b.name, c.name);
      }
    }
  }

  lemma RoomBeforeIsTotalPreorder(s: seq<Room>, o: Ordering)
    ensures TotalPreorderOn(s, (a: Room, b: Room) => RoomBefore(o, a, b))
  {
    forall a, b | a in s && b in s
      ensures RoomBefore(o, a, b) || RoomBefore(o, b, a)
    {
      FieldLeTotalPreorder(o.field, a, b, a);
    }
    forall a, b, c | a in s && b in s && c in s
      ensures RoomBefore(o, a, b) && RoomBefore(o, b, c) ==> RoomBefore(o, a, c)
    {
      FieldLeTotalPreorder(o.field, a, b, c);
      FieldLeTotalPreorder(o.field, c, b, a);
    }
  }

  /** `rooms.order_by(...)`: the same rooms, ordered by the field,
      ascending unless the ordering is descending. */
  function OrderRooms(rooms: seq<Room>, o: Ordering): (r: seq<Room>)
    ensures multiset(r) == multiset(rooms)
    ensures forall i, j | 0 <= i < j < |r| :: RoomBefore(o, r[i], r[j])
  {
    RoomBeforeIsTotalPreorder(rooms, o);
    SortBy(rooms, (a: Room, b: Room) => RoomBefore(o, a, b))
  }

  // ---------------------------------------------------------------------
  // Criteria

  /** The criteria after conversion. Empty text imposes nothing; the stay
      is present only when both dates were given. */
  datatype Criteria = Criteria(
    hotel: string,
    hotelType: string,
    country: string,
    city: string,
    room: string,
    roomType: string,
    priceMin: Option<Cents>,
    priceMax: Option<Cents>,
    stay: Option<(Date, Date)>,
    sort: Option<Ordering>)

  /** Converts a non-empty value; an empty one is no criterion. */
  function Convert<T>(params: Params, key: string, parse: string -> Option<T>): (r: Result<Option<T>, SearchError>)
    ensures Param(params, key) == [] ==> r == Ok(None)
    ensures Param(params, key) != [] ==>
      (r.Err? <==> parse(Param(params, key)).None?) && (r.Ok? ==> r.value == parse(Param(params, key)))
  {
    var v := Param(params, key);
    if v == [] then Ok(None)
    else match parse(v)
      case Some(x) => Ok(Some(x))
      case None => Err(BadValue(key))
  }

  /** A non-empty price that does not convert. */
  predicate PriceFails(params: Params, key: string, parsePrice: string -> Option<Cents>) {
    Param(params, key) != [] && parsePrice(Param(params, key)).None?
  }

  /** Both dates are given and one of them does not convert. */
  predicate StayFails(params: Params, parseDate: string -> Option<Date>) {
    && Param(params, "startDate") != [] && Param(params, "endDate") != []
    && (parseDate(Param(params, "startDate")).None? || parseDate(Param(params, "endDate")).None?)
  }

  /** A non-empty ordering that names no field. */
  predicate SortFails(params: Params) {
    Param(params, "sort") != [] && ParseOrdering(Param(params, "sort")).Err?
  }

  /** The query cannot be built: some value does not convert, or the
      ordering is unknown. */
  predicate DecodeFails(params: Params, parsePrice: string -> Option<Cents>, parseDate: string -> Option<Date>) {
    PriceFails(params, "priceMin", parsePrice) || PriceFails(params, "priceMax", parsePrice)
    || StayFails(params, parseDate) || SortFails(params)
  }

  /** Reads the criteria from the query parameters. A price bound is the
      converted value itself; the stay is present only when both dates are
      given; conversions happen in the order the query is built (the minimum
      price, the maximum price, the end date, the start date), then the
      ordering is checked. */
  function Decode(params: Params, parsePrice: string -> Option<Cents>, parseDate: string -> Option<Date>): (r: Result<Criteria, SearchError>)
    ensures r.Err? <==> DecodeFails(params, parsePrice, parseDate)
    ensures r.Ok? ==>
      && r.value.hotel == Param(params, "hotel") && r.value.hotelType == Param(params, "hotel_type")
      && r.value.country == Param(params, "country") && r.value.city == Param(params, "city")
      && r.value.room == Param(params, "room") && r.value.roomType == Param(params, "room_type")
      && r.value.priceMin == (if Param(params, "priceMin") == [] then None else parsePrice(Param(params, "priceMin")))
      && r.value.priceMax == (if Param(params, "priceMax") == [] then None else parsePrice(Param(params, "priceMax")))
    ensures r.Ok? ==>
      if Param(params, "startDate") != [] && Param(params, "endDate") != [] then
        && parseDate(Param(params, "startDate")).Some? && parseDate(Param(params, "endDate")).Some?
        && r.value.stay == Some((parseDate(Param(params, "startDate")).value, parseDate(Param(params, "endDate")).value))
      else r.value.stay.None?
    ensures r.Ok? ==>
      if Param(params, "sort") == [] then r.value.sort.None?
      else ParseOrdering(Param(params, "sort")).Ok? && r.value.sort == Some(ParseOrdering(Param(params, "sort")).value)
    ensures PriceFails(params, "priceMin", parsePrice) ==> r == Err(BadValue("priceMin"))
    ensures !PriceFails(params, "priceMin", parsePrice) && PriceFails(params, "priceMax", parsePrice) ==> r == Err(BadValue("priceMax"))
    ensures !PriceFails(params, "priceMin", parsePrice) && !PriceFails(params, "priceMax", parsePrice) && StayFails(params, parseDate) ==>
      r == Err(BadValue(if parseDate(Param(params, "endDate")).None? then "endDate" else "startDate"))
    ensures r.Err? && !PriceFails(params, "priceMin", parsePrice) && !PriceFails(params, "priceMax", parsePrice) && !StayFails(params, parseDate) ==>
      r == Err(UnknownField(Param(params, "sort")))
  {
    var priceMin :- Convert(params, "priceMin", parsePrice);
    var priceMax :- Convert(params, "priceMax", parsePrice);
    var stay :- if Param(params, "startDate") != [] && Param(params, "endDate") != [] then
        var end :- Convert(params, "endDate", parseDate);
        var start :- Convert(params, "startDate", parseDate);
        Ok(Some((start.value, end.value)))
      else Ok(None);
    var sort :- if Param(params, "sort") == [] then Ok(None)
      else var o :- ParseOrdering(Param(params, "sort")); Ok(Some(o));
    Ok(Criteria(Param(params, "hotel"), Param(params, "hotel_type"), Param(params, "country"),
      Param(params, "city"), Param(params, "room"), Param(params, "room_type"), priceMin, priceMax, stay, sort))
  }

  /** The name `order_by` is given for a field. */
  function FieldText(f: SortField): (r: string)
    ensures FieldNamed(r) == Some(f)
    ensures r != [] && r[0] != '-'
  {
    match f
    case ById => "id"
    case ByName => "name"
    case ByPrice => "price_per_night"
    case ByAvailability => "is_available"
    case ByBookings => "total_bookings"
    case ByHotel => "hotel"
  }

  /** The `sort` value that asks for ordering `o`. */
  function OrderingText(o: Ordering): string {
    (if o.descending then "-" else "") + FieldText(o.field)
  }

  lemma ParseOrderingRoundTrip(o: Ordering)
    ensures ParseOrdering(OrderingText(o)) == Ok(o)
  {
    var s := OrderingText(o);
    if o.descending {
      assert s[0] == '-' && s[1..] == FieldText(o.field);
    } else {
      assert s == FieldText(o.field);
    }
  }

  /** The query string that asks for criteria `c`, given how a client prints
      prices and dates; an unset criterion is sent empty. */
  function Encode(c: Criteria, showPrice: Cents -> string, showDate: Date -> string): Params {
    map[
      "hotel" := c.hotel, "hotel_type" := c.hotelType, "country" := c.country, "city" := c.city,
      "room" := c.room, "room_type" := c.roomType,
      "priceMin" := (if c.priceMin.Some? then showPrice(c.priceMin.value) else ""),
      "priceMax" := (if c.priceMax.Some? then showPrice(c.priceMax.value) else ""),
      "startDate" := (if c.stay.Some? then showDate(c.stay.value.0) else ""),
      "endDate" := (if c.stay.Some? then showDate(c.stay.value.1) else ""),
      "sort" := (if c.sort.Some? then OrderingText(c.sort.value) else "")]
  }

  /** Each key of the encoded query string reads back its criterion. */
  lemma EncodeReadsBack(c: Criteria, showPrice: Cents -> string, showDate: Date -> string)
    ensures var params := Encode(c, showPrice, showDate);
      && Param(params, "hotel") == c.hotel && Param(params, "hotel_type") == c.hotelType
      && Param(params, "country") == c.country && Param(params, "city") == c.city
      && Param(params, "room") == c.room && Param(params, "room_type") == c.roomType
      && Param(params, "priceMin") == (if c.priceMin.Some? then showPrice(c.priceMin.value) else "")
      && Param(params, "priceMax") == (if c.priceMax.Some? then showPrice(c.priceMax.value) else "")
      && Param(params, "startDate") == (if c.stay.Some? then showDate(c.stay.value.0) else "")
      && Param(params, "endDate") == (if c.stay.Some? then showDate(c.stay.value.1) else "")
      && Param(params, "sort") == (if c.sort.Some? then OrderingText(c.sort.value) else "")
  {
  }

  /** Query parameters that carry printed prices and dates, and the text of
      an ordering, convert whenever the printed values convert back. */
  lemma PrintedValuesConvert(params: Params, c: Criteria, showPrice: Cents -> string, showDate: Date -> string,
                             parsePrice: string -> Option<Cents>, parseDate: string -> Option<Date>)
    requires forall x :: showPrice(x) != [] && parsePrice(showPrice(x)) == Some(x)
    requires forall d :: showDate(d) != [] && parseDate(showDate(d)) == Some(d)
    requires Param(params, "priceMin") == (if c.priceMin.Some? then showPrice(c.priceMin.value) else "")
    requires Param(params, "priceMax") == (if c.priceMax.Some? then showPrice(c.priceMax.value) else "")
    requires Param(params, "startDate") == (if c.stay.Some? then showDate(c.stay.value.0) else "")
    requires Param(params, "endDate") == (if c.stay.Some? then showDate(c.stay.value.1) else "")
    requires Param(params, "sort") == (if c.sort.Some? then OrderingText(c.sort.value) else "")
    ensures !DecodeFails(params, parsePrice, parseDate)
  {
    PrintedPriceConverts(params, "priceMin", c.priceMin, showPrice, parsePrice);
    PrintedPriceConverts(params, "priceMax", c.priceMax, showPrice, parsePrice);
    if c.stay.Some? {
      PrintedDateConverts(params, "startDate", c.stay.value.0, showDate, parseDate);
      PrintedDateConverts(params, "endDate", c.stay.value.1, showDate, parseDate);
    }
    if c.sort.Some? {
      ParseOrderingRoundTrip(c.sort.value);
    }
  }

  lemma PrintedPriceConverts(params: Params, key: string, v: Option<Cents>,
                             showPrice: Cents -> string, parsePrice: string -> Option<Cents>)
    requires forall x :: showPrice(x) != [] && parsePrice(showPrice(x)) == Some(x)
    requires Param(params, key) == (if v.Some? then showPrice(v.value) else "")
    ensures !PriceFails(params, key, parsePrice)
  {
    if v.Some? {
      var p: Cents := v.value;
      assert showPrice(p) != [] && parsePrice(showPrice(p)) == Some(p);
    }
  }

  lemma PrintedDateConverts(params: Params, key: string, d: Date,
                            showDate: Date -> string, parseDate: string -> Option<Date>)
    requires forall d :: showDate(d) != [] && parseDate(showDate(d)) == Some(d)
    requires Param(params, key) == showDate(d)
    ensures parseDate(Param(params, key)) == Some(d)
  {
  }

  /** Every set of criteria can be asked for: reading back the query string
      that encodes it gives the same criteria, whenever the printed prices
      and dates convert back to themselves. */
  lemma DecodeEncodeRoundTrip(c: Criteria, showPrice: Cents -> string, showDate: Date -> string,
                              parsePrice: string -> Option<Cents>, parseDate: string -> Option<Date>)
    requires forall x :: showPrice(x) != [] && parsePrice(showPrice(x)) == Some(x)
    requires forall d :: showDate(d) != [] && parseDate(showDate(d)) == Some(d)
    ensures Decode(Encode(c, showPrice, showDate), parsePrice, parseDate) == Ok(c)
  {
    EncodeReadsBack(c, showPrice, showDate);
    PrintedValuesConvert(Encode(c, showPrice, showDate), c, showPrice, showDate, parsePrice, parseDate);
    if c.sort.Some? {
      ParseOrderingRoundTrip(c.sort.value);
    }
    if c.priceMin.Some? {
      assert parsePrice(showPrice(c.priceMin.value)) == Some(c.priceMin.value);
    }
    if c.priceMax.Some? {
      assert parsePrice(showPrice(c.priceMax.value)) == Some(c.priceMax.value);
    }
    if c.stay.Some? {
      assert parseDate(showDate(c.stay.value.0)) == Some(c.stay.value.0);
      assert parseDate(showDate(c.stay.value.1)) == Some(c.stay.value.1);
    }
  }

  /** The row's type exists and its name contains `needle`, ignoring case:
      `type__name__icontains`, an inner join. */
  predicate HotelTypeNameContains(db: Db, t: Option<Id>, needle: string) {
    t.Some? && exists ht | ht in db.hotelTypes :: ht.id == t.value && IContains(ht.name, needle)
  }

  predicate RoomTypeNameContains(db: Db, t: Option<Id>, needle: string) {
    t.Some? && exists rt | rt in db.roomTypes :: rt.id == t.value && IContains(rt.name, needle)
  }

  predicate HotelMatches(db: Db, c: Criteria, h: Hotel) {
    && (c.hotel == [] || IContains(h.name, c.hotel))
    && (c.hotelType == [] || HotelTypeNameContains(db, h.hotelType, c.hotelType))
    && (c.country == [] || IContains(h.country, c.country))
    && (c.city == [] || IContains(h.city, c.city))
  }

  /** Some booking of the room that holds it overlaps the stay. */
  predicate HeldDuring(db: Db, room: Room, start: Date, end: Date) {
    exists b | b in db.bookings :: b.room == room.id && HoldsRoom(b.status) && StaysOverlap(b.startDate, b.endDate, start, end)
  }

  /** As written: some booking of the room overlaps the stay, whatever its status. */
  predicate BookedDuringAsWritten(db: Db, room: Room, start: Date, end: Date) {
    exists b | b in db.bookings :: b.room == room.id && StaysOverlap(b.startDate, b.endDate, start, end)
  }

  /** The room is taken for the stay: as written, by any booking of the room
      that overlaps it; corrected, only by one that holds the room. */
  predicate TakenDuring(v: Variant, db: Db, room: Room, start: Date, end: Date) {
    if v == AsWritten then BookedDuringAsWritten(db, room, start, end) else HeldDuring(db, room, start, end)
  }

  /** Every room criterion except availability. */
  predicate RoomFieldsMatch(db: Db, c: Criteria, r: Room) {
    && (c.room == [] || IContains(r.name, c.room))
    && (c.roomType == [] || RoomTypeNameContains(db, r.roomType, c.roomType))
    && (c.priceMin.None? || c.priceMin.value <= r.pricePerNight)
    && (c.priceMax.None? || r.pricePerNight <= c.priceMax.value)
  }

  predicate RoomMatches(v: Variant, db: Db, c: Criteria, r: Room) {
    RoomFieldsMatch(db, c, r) && (c.stay.None? || !TakenDuring(v, db, r, c.stay.value.0, c.stay.value.1))
  }

  function FindHotels(db: Db, c: Criteria): (r: seq<Hotel>)
    ensures forall h :: h in r <==> h in db.hotels && HotelMatches(db, c, h)
    ensures forall h :: multiset(r)[h] == if HotelMatches(db, c, h) then multiset(db.hotels)[h] else 0
    ensures Subseq(r, db.hotels)
  {
    FilterExact(db.hotels, (h: Hotel) => HotelMatches(db, c, h));
    Filter(db.hotels, (h: Hotel) => HotelMatches(db, c, h))
  }

  /** Room `x` matches the room criteria and its hotel is among `hotels`. */
  predicate RoomFound(v: Variant, db: Db, c: Criteria, hotels: seq<Hotel>, x: Room) {
    RoomMatches(v, db, c, x) && exists h | h in hotels :: h.id == x.hotel
  }

  /** The rooms matching the room criteria whose hotel is among `hotels`,
      in table order. */
  function FindRooms(v: Variant, db: Db, c: Criteria, hotels: seq<Hotel>): (r: seq<Room>)
    ensures forall x :: x in r <==> x in db.rooms && RoomMatches(v, db, c, x) && exists h | h in hotels :: h.id == x.hotel
    ensures forall x :: multiset(r)[x] == if RoomFound(v, db, c, hotels, x) then multiset(db.rooms)[x] else 0
    ensures Subseq(r, db.rooms)
  {
    FilterExact(db.rooms, (x: Room) => RoomFound(v, db, c, hotels, x));
    Filter(db.rooms, (x: Room) => RoomFound(v, db, c, hotels, x))
  }

  datatype Found = Found(hotels: seq<Hotel>, rooms: seq<Room>)

  /** The hotels and rooms a search returns. */
  function SearchAccommodations(v: Variant, db: Db, c: Criteria): (r: Found)
    ensures forall h :: h in r.hotels <==> h in db.hotels && HotelMatches(db, c, h)
    ensures forall h :: multiset(r.hotels)[h] == if HotelMatches(db, c, h) then multiset(db.hotels)[h] else 0
    ensures Subseq(r.hotels, db.hotels)
    ensures forall x :: x in r.rooms <==> x in db.rooms && RoomMatches(v, db, c, x) && exists h | h in r.hotels :: h.id == x.hotel
    ensures multiset(r.rooms) == multiset(FindRooms(v, db, c, r.hotels))
    ensures c.sort.Some? ==> forall i, j | 0 <= i < j < |r.rooms| :: RoomBefore(c.sort.value, r.rooms[i], r.rooms[j])
    ensures c.sort.None? ==> r.rooms == FindRooms(v, db, c, r.hotels) && Subseq(r.rooms, db.rooms)
  {
    var hotels := FindHotels(db, c);
    var rooms := FindRooms(v, db, c, hotels);
    if c.sort.Some? then
      var sorted := OrderRooms(rooms, c.sort.value);
      SameMultisetSameElements(sorted, rooms);
      Found(hotels, sorted)
    else Found(hotels, rooms)
  }

  // ---------------------------------------------------------------------
  // Properties

  /** Criteria with nothing set. */
  function NoCriteria(): Criteria {
    Criteria([], [], [], [], [], [], None, None, None, None)
  }

  lemma NoCriteriaFindsAllHotels(db: Db)
    ensures FindHotels(db, NoCriteria()) == db.hotels
  {
    FilterKeepsAll(db.hotels, (h: Hotel) => HotelMatches(db, NoCriteria(), h));
  }

  lemma NoCriteriaFindsAllRooms(v: Variant, db: Db)
    requires RoomsResolve(db)
    ensures FindRooms(v, db, NoCriteria(), db.hotels) == db.rooms
  {
    var c := NoCriteria();
    forall i | 0 <= i < |db.rooms|
      ensures RoomFound(v, db, c, db.hotels, db.rooms[i])
    {
      var x := db.rooms[i];
      assert x in db.rooms && x.hotel in HotelIds(db);
      var h :| h in db.hotels && h.id == x.hotel;
    }
    FilterKeepsAll(db.rooms, (x: Room) => RoomFound(v, db, c, db.hotels, x));
  }

  /** With no criteria, every hotel is returned, and every room whose hotel
      exists. */
  lemma NoCriteriaReturnsEverything(v: Variant, db: Db)
    requires RoomsResolve(db)
    ensures SearchAccommodations(v, db, NoCriteria()).hotels == db.hotels
    ensures SearchAccommodations(v, db, NoCriteria()).rooms == db.rooms
  {
    NoCriteriaFindsAllHotels(db);
    NoCriteriaFindsAllRooms(v, db);
  }

  /** `c2` sets every criterion `c1` sets, to the same value, and may set more. */
  predicate Stricter(c2: Criteria, c1: Criteria) {
    && (c1.hotel == [] || c2.hotel == c1.hotel)
    && (c1.hotelType == [] || c2.hotelType == c1.hotelType)
    && (c1.country == [] || c2.country == c1.country)
    && (c1.city == [] || c2.city == c1.city)
    && (c1.room == [] || c2.room == c1.room)
    && (c1.roomType == [] || c2.roomType == c1.roomType)
    && (c1.priceMin.None? || c2.priceMin == c1.priceMin)
    && (c1.priceMax.None? || c2.priceMax == c1.priceMax)
    && (c1.stay.None? || c2.stay == c1.stay)
  }

  lemma StricterHotelMatches(db: Db, c2: Criteria, c1: Criteria, h: Hotel)
    requires Stricter(c2, c1)
    ensures HotelMatches(db, c2, h) ==> HotelMatches(db, c1, h)
  {
  }

  lemma StricterRoomMatches(v: Variant, db: Db, c2: Criteria, c1: Criteria, x: Room)
    requires Stricter(c2, c1)
    ensures RoomMatches(v, db, c2, x) ==> RoomMatches(v, db, c1, x)
  {
  }

  /** Adding a criterion never enlarges either result, in either variant. */
  lemma StricterCriteriaNarrowResults(v: Variant, db: Db, c2: Criteria, c1: Criteria)
    requires Stricter(c2, c1)
    ensures forall h | h in SearchAccommodations(v, db, c2).hotels :: h in SearchAccommodations(v, db, c1).hotels
    ensures forall x | x in SearchAccommodations(v, db, c2).rooms :: x in SearchAccommodations(v, db, c1).rooms
  {
    var r1 := SearchAccommodations(v, db, c1);
    var r2 := SearchAccommodations(v, db, c2);
    forall h | h in r2.hotels ensures h in r1.hotels {
      StricterHotelMatches(db, c2, c1, h);
    }
    forall x | x in r2.rooms ensures x in r1.rooms {
      var h :| h in r2.hotels && h.id == x.hotel;
      StricterHotelMatches(db, c2, c1, h);
      StricterRoomMatches(v, db, c2, c1, x);
    }
  }

  /** Price bounds are inclusive: a room priced exactly at a bound passes it. */
  lemma PriceBoundsInclusive(db: Db, c: Criteria, r: Room)
    requires c.room == [] && c.roomType == []
    requires c.priceMin.Some? && c.priceMax.Some?
    requires r.pricePerNight == c.priceMin.value || r.pricePerNight == c.priceMax.value
    ensures RoomFieldsMatch(db, c, r) <==> c.priceMin.value <= r.pricePerNight <= c.priceMax.value
  {
  }

  /** The search as written hides every room the corrected search hides, and
      possibly more: its date filter counts bookings of any status. */
  lemma AsWrittenSearchIsStricter(db: Db, c: Criteria, x: Room)
    ensures RoomMatches(AsWritten, db, c, x) ==> RoomMatches(Corrected, db, c, x)
  {
    if RoomMatches(AsWritten, db, c, x) && c.stay.Some? && HeldDuring(db, x, c.stay.value.0, c.stay.value.1) {
      var b :| b in db.bookings && b.room == x.id && HoldsRoom(b.status)
        && StaysOverlap(b.startDate, b.endDate, c.stay.value.0, c.stay.value.1);
      assert BookedDuringAsWritten(db, x, c.stay.value.0, c.stay.value.1);
    }
  }

  /** A room that passes the search's room criteria for a stay, as every
      room the search offers does, can be booked for that stay, in either
      variant and even by the corrected booking check. */
  lemma OfferedRoomCanBeBooked(v: Variant, db: Db, c: Criteria, x: Room, data: BookingData)
    requires RoomMatches(v, db, c, x) && c.stay.Some?
    requires data.roomId == Some(x.id)
    requires data.startDate == Some(c.stay.value.0) && data.endDate == Some(c.stay.value.1)
    requires c.stay.value.0 < c.stay.value.1
    ensures Validate(db, data).Ok?
    ensures ValidateBy(v, db, data).Ok?
  {
    AsWrittenSearchIsStricter(db, c, x);
    assert !HeldDuring(db, x, c.stay.value.0, c.stay.value.1);
    forall b | b in db.bookings
      ensures !(data.roomId == Some(b.room) && HoldsRoom(b.status)
                && StaysOverlap(b.startDate, b.endDate, data.startDate.value, data.endDate.value))
    {
    }
  }

  /** Corrected, the search's date filter and the booking check agree: a
      room that passes the other room criteria is offered for a well-ordered
      stay exactly when a request for that room and stay passes `validate`. */
  lemma OfferedExactlyWhenBookable(db: Db, c: Criteria, x: Room, data: BookingData)
    requires RoomFieldsMatch(db, c, x) && c.stay.Some?
    requires data.roomId == Some(x.id)
    requires data.startDate == Some(c.stay.value.0) && data.endDate == Some(c.stay.value.1)
    requires c.stay.value.0 < c.stay.value.1
    ensures RoomMatches(Corrected, db, c, x) <==> Validate(db, data).Ok?
  {
    if RoomMatches(Corrected, db, c, x) {
      OfferedRoomCanBeBooked(Corrected, db, c, x, data);
    } else {
      var b :| b in db.bookings && b.room == x.id && HoldsRoom(b.status)
        && StaysOverlap(b.startDate, b.endDate, c.stay.value.0, c.stay.value.1);
      assert ClashesWithHeldStay(db, data);
    }
  }

  /** As written, a cancelled booking hides its room from a search for the
      same dates, although the booking check would accept that stay; the
      corrected search offers it. */
  lemma AsWrittenHidesRoomsFreedByCancellation()
    ensures
      var room := Room(1, 1, None, "Suite", 10000, true, None, 1);
      var db := Db([], [], [], [], [], [], [], [room], [], [Booking(1, 1, 1, 10, 20, 0, 0, "cancelled")]);
      var c := NoCriteria().(stay := Some((12, 15)));
      && !RoomMatches(AsWritten, db, c, room)
      && RoomMatches(Corrected, db, c, room)
      && Validate(db, BookingData(Some(1), Some(1), Some(12), Some(15), Some("active"))).Ok?
  {
    var room := Room(1, 1, None, "Suite", 10000, true, None, 1);
    var cancelled := Booking(1, 1, 1, 10, 20, 0, 0, "cancelled");
    var db := Db([], [], [], [], [], [], [], [room], [], [cancelled]);
    assert cancelled in db.bookings;
  }
}
