/** `search_view`: takes the `show_rooms_only` flag out of the query
    parameters, runs the search on the rest, serialises the result (rooms
    with `RoomSerializer`, hotels with `HotelSerializer`, which nests every
    room of each hotel) and maps each outcome to a JSON response. The
    `Variant` selects the search's date filter and the error mapping as
    written or corrected. */
module SearchView {

  import opened Wrappers
  import opened Text
  import opened Seqs
  import opened Schema
  import opened Bookings
  import opened Search
  import opened RoomSerializer
  import opened HotelSerializer

  const FlagKey: string := "show_rooms_only"

  /** `params.pop("show_rooms_only", "false").lower() == "true"`. */
  function ShowRoomsOnly(params: Params): bool {
    Lower(if FlagKey in params then params[FlagKey] else "false") == "true"
  }

  /** The flag is set exactly by "true" in any mix of cases; an absent flag
      is unset. */
  lemma ShowRoomsOnlyValues(params: Params)
    ensures FlagKey !in params ==> !ShowRoomsOnly(params)
    ensures FlagKey in params ==>
      var v := params[FlagKey];
      ShowRoomsOnly(params) <==>
        |v| == 4 && (v[0] == 't' || v[0] == 'T') && (v[1] == 'r' || v[1] == 'R')
        && (v[2] == 'u' || v[2] == 'U') && (v[3] == 'e' || v[3] == 'E')
  {
    if FlagKey !in params {
      assert Lower("false")[0] == 'f';
    } else {
      var v := params[FlagKey];
      if |v| == 4 {
        assert Lower(v) == [LowerChar(v[0]), LowerChar(v[1]), LowerChar(v[2]), LowerChar(v[3])];
      }
    }
  }

  /** What the handler caught. */
  datatype Raised =
    | ValidationRaised(key: string)   // django.core.exceptions.ValidationError
    | DatabaseRaised                  // django.db.DatabaseError
    | OtherRaised                     // any other exception

  datatype Payload =
    | RoomsOnly(rooms: seq<RoomView>)
    | HotelsAndRooms(hotels: seq<HotelView>, rooms: seq<RoomView>)
    | Problem(error: string, details: Option<string>)

  /** A JSON response, or the framework's own error page when the handler
      itself raises. */
  datatype Response = Json(status: int, payload: Payload) | ServerErrorPage

  /** The top-level keys of a JSON body. */
  function Keys(p: Payload): set<string> {
    match p
    case RoomsOnly(_) => {"rooms"}
    case HotelsAndRooms(_, _) => {"hotels", "rooms"}
    case Problem(_, details) => if details.Some? then {"error", "details"} else {"error"}
  }

  const UnexpectedError: string := "An unexpected error occurred. Please try again later."

  /** Maps an exception to its response. A validation error is a client
      error whose details name the parameter that did not convert (the
      model's stand-in for the error's messages); anything else is a server
      error. */
  function ErrorResponse(e: Raised): (r: Response)
    ensures r.Json? && r.payload.Problem?
    ensures r.status == 400 <==> e.ValidationRaised?
    ensures r.status == 500 <==> !e.ValidationRaised?
    ensures e.ValidationRaised? ==> Keys(r.payload) == {"error", "details"}
    ensures !e.ValidationRaised? ==> Keys(r.payload) == {"error"}
  {
    match e
    case ValidationRaised(key) => Json(400, Problem("Invalid input parameters", Some(key)))
    case DatabaseRaised => Json(500, Problem("Internal server error. Please try again later.", None))
    case OtherRaised => Json(500, Problem(UnexpectedError, None))
  }

  /** The handler as written reads `ve.detail`, an attribute Django's
      `ValidationError` does not have, so the 400 branch itself raises. */
  function ErrorResponseAsWritten(e: Raised): (r: Response)
    ensures e.ValidationRaised? <==> r.ServerErrorPage?
    ensures !e.ValidationRaised? ==> r == ErrorResponse(e)
  {
    match e
    case ValidationRaised(_) => ServerErrorPage
    case _ => ErrorResponse(e)
  }

  /** Serialising the search result fails: a returned room, or (unless only
      rooms are shown) a returned hotel that still has rooms, belongs to a
      hotel without a type. */
  predicate SerializationFails(db: Db, found: Found, roomsOnly: bool) {
    || (exists x | x in found.rooms :: OnUntypedHotel(db, x.id))
    || (!roomsOnly && exists h | h in found.hotels :: UntypedWithRooms(db, h))
  }

  /** The response body of a search result: the rooms alone, or the hotels
      and the rooms. It fails exactly when serialising the result fails. */
  function Serialized(db: Db, found: Found, roomsOnly: bool): (r: Result<Payload, SerializeError>)
    requires Integrity(db)
    requires forall h | h in found.hotels :: h in db.hotels
    requires forall x | x in found.rooms :: x in db.rooms
    ensures r.Err? <==> SerializationFails(db, found, roomsOnly)
    ensures r.Ok? && roomsOnly ==> r.value == RoomsOnly(SerializeRooms(db, found.rooms).value)
    ensures r.Ok? && !roomsOnly ==>
      r.value == HotelsAndRooms(SerializeHotels(db, found.hotels).value, SerializeRooms(db, found.rooms).value)
  {
    if roomsOnly then
      var rooms :- SerializeRooms(db, found.rooms);
      Ok(RoomsOnly(rooms))
    else
      var hotels :- SerializeHotels(db, found.hotels);
      var rooms :- SerializeRooms(db, found.rooms);
      Ok(HotelsAndRooms(hotels, rooms))
  }

  /** The body answering a search for criteria `c`. */
  function SearchBody(v: Variant, db: Db, c: Criteria, roomsOnly: bool): (r: Result<Payload, SerializeError>)
    requires Integrity(db)
    ensures r.Err? <==> SerializationFails(db, SearchAccommodations(v, db, c), roomsOnly)
    ensures r.Ok? ==> if roomsOnly then r.value.RoomsOnly? else r.value.HotelsAndRooms?
  {
    Serialized(db, SearchAccommodations(v, db, c), roomsOnly)
  }

  /** The search as the handler runs it on the parameters without the flag:
      the serialised payload, or what was raised. A value that does not
      convert raises a validation error; an unknown ordering field and a
      failed serialisation raise something else; nothing raises a database
      error. */
  function Run(v: Variant, db: Db, params: Params, roomsOnly: bool,
               parsePrice: string -> Option<Cents>, parseDate: string -> Option<Date>)
    : (r: Result<Payload, Raised>)
    requires Integrity(db)
    ensures var d := Decode(params, parsePrice, parseDate);
      r.Err? && r.error.ValidationRaised? <==> d.Err? && d.error.BadValue?
    ensures var d := Decode(params, parsePrice, parseDate);
      d.Err? && d.error.BadValue? ==> r == Err(ValidationRaised(d.error.key))
    ensures var d := Decode(params, parsePrice, parseDate);
      r.Err? && r.error.OtherRaised? <==>
        || (d.Err? && d.error.UnknownField?)
        || (d.Ok? && SerializationFails(db, SearchAccommodations(v, db, d.value), roomsOnly))
    ensures !(r.Err? && r.error.DatabaseRaised?)
    ensures var d := Decode(params, parsePrice, parseDate);
      r.Ok? <==> d.Ok? && !SerializationFails(db, SearchAccommodations(v, db, d.value), roomsOnly)
    ensures var d := Decode(params, parsePrice, parseDate);
      r.Ok? ==> r.value == SearchBody(v, db, d.value, roomsOnly).value
  {
    match Decode(params, parsePrice, parseDate)
    case Err(BadValue(key)) => Err(ValidationRaised(key))
    case Err(UnknownField(_)) => Err(OtherRaised)
    case Ok(c) =>
      match SearchBody(v, db, c, roomsOnly)
      case Err(_) => Err(OtherRaised)
      case Ok(p) => Ok(p)
  }

  /** `GET /hotels/search/`. A 200 carries exactly the serialised search
      result under the keys the flag selects. As written, a value that does
      not convert gets the framework's error page; corrected, a JSON 400. An
      unknown ordering field or a result that cannot be serialised is a 500. */
  function HandleSearch(v: Variant, db: Db, params: Params,
                        parsePrice: string -> Option<Cents>, parseDate: string -> Option<Date>)
    : (r: Response)
    requires Integrity(db)
    ensures var d := Decode(params - {FlagKey}, parsePrice, parseDate);
      r.ServerErrorPage? <==> v == AsWritten && d.Err? && d.error.BadValue?
    ensures r.Json? ==> r.status == 200 || r.status == 400 || r.status == 500
    ensures var d := Decode(params - {FlagKey}, parsePrice, parseDate);
      r.Json? && r.status == 400 <==> v == Corrected && d.Err? && d.error.BadValue?
    ensures var d := Decode(params - {FlagKey}, parsePrice, parseDate);
      r.Json? && r.status == 400 ==> r.payload == Problem("Invalid input parameters", Some(d.error.key))
    ensures var d := Decode(params - {FlagKey}, parsePrice, parseDate);
      r.Json? && r.status == 500 <==>
        || (d.Err? && d.error.UnknownField?)
        || (d.Ok? && SearchBody(v, db, d.value, ShowRoomsOnly(params)).Err?)
    ensures r.Json? && r.status == 500 ==> r.payload == Problem(UnexpectedError, None)
    ensures var d := Decode(params - {FlagKey}, parsePrice, parseDate);
      r.Json? && r.status == 200 <==>
        d.Ok? && SearchBody(v, db, d.value, ShowRoomsOnly(params)).Ok?
    ensures var d := Decode(params - {FlagKey}, parsePrice, parseDate);
      r.Json? && r.status == 200 ==>
        r.payload == SearchBody(v, db, d.value, ShowRoomsOnly(params)).value
    ensures r.Json? && r.status == 200 ==> if ShowRoomsOnly(params) then r.payload.RoomsOnly? else r.payload.HotelsAndRooms?
  {
    var d := Decode(params - {FlagKey}, parsePrice, parseDate);
    var run := Run(v, db, params - {FlagKey}, ShowRoomsOnly(params), parsePrice, parseDate);
    assert d.Err? && d.error.BadValue? ==> run == Err(ValidationRaised(d.error.key));
    assert run.Err? ==> !run.error.DatabaseRaised?;
    if run.Ok? then
      Json(200, run.value)
    else if v == AsWritten then ErrorResponseAsWritten(run.error)
    else ErrorResponse(run.error)
  }

  /** A successful answer has the key "rooms" alone when the flag is set,
      and the keys "hotels" and "rooms" otherwise. */
  lemma SuccessKeys(v: Variant, db: Db, params: Params,
                    parsePrice: string -> Option<Cents>, parseDate: string -> Option<Date>)
    requires Integrity(db)
    ensures var r := HandleSearch(v, db, params, parsePrice, parseDate);
      r.Json? && r.status == 200 ==> Keys(r.payload) == if ShowRoomsOnly(params) then {"rooms"} else {"hotels", "rooms"}
  {
  }

  /** A price that does not convert gets the framework's error page as
      written, and a JSON 400 once the handler reports the error's messages. */
  lemma UnconvertiblePriceCrashesAsWritten(db: Db, parsePrice: string -> Option<Cents>, parseDate: string -> Option<Date>)
    requires Integrity(db)
    requires parsePrice("abc").None?
    ensures HandleSearch(AsWritten, db, map["priceMin" := "abc"], parsePrice, parseDate) == ServerErrorPage
    ensures HandleSearch(Corrected, db, map["priceMin" := "abc"], parsePrice, parseDate)
      == Json(400, Problem("Invalid input parameters", Some("priceMin")))
  {
    var params := map["priceMin" := "abc"];
    assert params - {FlagKey} == params;
    assert Param(params, "priceMin") == "abc";
  }

  /** A found hotel without a type that has a room turns the whole answer
      into a 500 when hotels are shown, even if none of its rooms matched. */
  lemma UntypedHotelFailsSearch(v: Variant, db: Db, params: Params, h: Hotel,
                                parsePrice: string -> Option<Cents>, parseDate: string -> Option<Date>)
    requires Integrity(db)
    requires !ShowRoomsOnly(params)
    requires Decode(params - {FlagKey}, parsePrice, parseDate).Ok?
    requires h in SearchAccommodations(v, db, Decode(params - {FlagKey}, parsePrice, parseDate).value).hotels
    requires UntypedWithRooms(db, h)
    ensures HandleSearch(v, db, params, parsePrice, parseDate) == Json(500, Problem(UnexpectedError, None))
  {
  }

  /** The hotel from the example: no type, one room at 100.00. */
  function UntypedHotelExample(): Db {
    Db([User(1, "owner@example.com", "", "", [])], [], [], [],
       [Hotel(1, 1, "Inn", "Main St", "Oslo", "Norway", None, None, None, None)], [], [],
       [Room(1, 1, None, "Single", 10000, true, None, 0)], [], [])
  }

  /** The example database is consistent. */
  lemma UntypedHotelExampleIsConsistent()
    ensures Integrity(UntypedHotelExample())
  {
    var db := UntypedHotelExample();
    assert UserIds(db) == {1} by { assert db.users[0] in db.users; }
    assert HotelIds(db) == {1} by { assert db.hotels[0] in db.hotels; }
    assert RoomIds(db) == {1} by { assert db.rooms[0] in db.rooms; }
  }

  /** `?priceMin=200` decodes to a lower price bound of 200.00 and nothing
      else. */
  lemma PriceMinExampleDecodes(parsePrice: string -> Option<Cents>, parseDate: string -> Option<Date>)
    requires parsePrice("200") == Some(20000)
    ensures Decode(map["priceMin" := "200"], parsePrice, parseDate) == Ok(NoCriteria().(priceMin := Some(20000)))
  {
    assert Param(map["priceMin" := "200"], "priceMin") == "200";
  }

  /** Asking for rooms from 200.00 matches no room, but the untyped hotel is
      still found and cannot be serialised: the answer is a 500 in either
      variant. */
  lemma PriceFilterStillServesUntypedHotel(v: Variant, parsePrice: string -> Option<Cents>, parseDate: string -> Option<Date>)
    requires parsePrice("200") == Some(20000)
    ensures Integrity(UntypedHotelExample())
    ensures var d := Decode(map["priceMin" := "200"], parsePrice, parseDate);
      d.Ok? && SearchAccommodations(v, UntypedHotelExample(), d.value).rooms == []
    ensures HandleSearch(v, UntypedHotelExample(), map["priceMin" := "200"], parsePrice, parseDate)
      == Json(500, Problem(UnexpectedError, None))
  {
    var db := UntypedHotelExample();
    var params := map["priceMin" := "200"];
    UntypedHotelExampleIsConsistent();
    PriceMinExampleDecodes(parsePrice, parseDate);
    assert params - {FlagKey} == params;
    ShowRoomsOnlyValues(params);
    var found := SearchAccommodations(v, db, NoCriteria().(priceMin := Some(20000)));
    assert db.hotels[0] in found.hotels;
    assert db.rooms[0] in db.rooms;
    assert UntypedWithRooms(db, db.hotels[0]);
    UntypedHotelFailsSearch(v, db, params, db.hotels[0], parsePrice, parseDate);
  }

  /** The flag never acts as a filter: whatever its value, the search runs on
      the other parameters alone. */
  lemma FlagNeverFilters(v: Variant, db: Db, params: Params, s: string, roomsOnly: bool,
                         parsePrice: string -> Option<Cents>, parseDate: string -> Option<Date>)
    requires Integrity(db)
    requires FlagKey !in params
    ensures Run(v, db, params[FlagKey := s] - {FlagKey}, roomsOnly, parsePrice, parseDate)
         == Run(v, db, params, roomsOnly, parsePrice, parseDate)
  {
    assert params[FlagKey := s] - {FlagKey} == params;
  }
}
