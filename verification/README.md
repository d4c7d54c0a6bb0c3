# Hotel booking service — a verified model of its core rules

This project models the rule-bearing core of a hotel booking application in
Dafny. The application has a Django REST backend and a React client. The
model keeps the database as immutable records held in sequences, one
sequence per table. Every endpoint and every client handler is a pure
function from its inputs (and the outcome of the calls it awaits) to its
result.

Backend, one module per component:

- `Schema`: the records (users, groups, profiles, hotel types, hotels,
  hotel images, room types, rooms, room images, bookings), field bounds,
  defaults, string forms and referential integrity. Dates are day numbers;
  prices are whole cents.
- `Uploads`: the `upload_to` path builders, and the proof that a stored
  path determines its owner and file name.
- `Deletion`: the `on_delete` rules, CASCADE and SET_NULL, and the proof
  that every deletion keeps references resolvable.
- `Bookings`: `BookingSerializer`, which covers the field checks, date
  order, the overlap check on half-open stays, creation and partial update.
  It also holds the invariant that no two bookings holding one room
  overlap.
- `BookingSignals`: the `post_save` counter increments. Each profile and
  room counter equals its number of bookings.
- `BookingViews`: `BookingViewSet`, with authentication, newest-first lists
  and the exact `me` / `owner` filters.
- `Search`: `search_accommodations`, a conjunction of optional criteria
  followed by an optional ordering.
- `SearchView`: `search_view`, which covers the `show_rooms_only` flag,
  the response shapes and the mapping from exceptions to statuses.
- `RoomSerializer`: the fields a room copies from its hotel, read-only
  fields, and type lookup by name.
- `HotelSerializer`: a hotel with its type name, its nested rooms and its
  gallery, as the hotel `me` list and the search answer show it.
- `HotelViews`: `HotelViewSet` create, update and `me`.
- `Accounts`: the ordered registration checks, login, logout, `me` and
  the user serializer.

Client:

- `Gateway` (the axios client): CSRF token injection by the request
  interceptor, the token fetch, and the three account calls.
- `Session`: the authentication context's state machine.
- `ProfilePage`: its loading, its status buttons and its three
  status-update handlers.
- `RegistrationPage`: the form, the change handler and the submit handler.

Shared helpers sit in `Wrappers` (`Option`, `Result`), `Seqs` (filtering,
lookup, mapping with failure), `Sorting` (a stable insertion sort proved
to be a sorted permutation) and `Text` (ASCII lower-casing, `icontains`, and
`str.strip()` over every character Python's `str.isspace` accepts).

Things the model takes as parameters instead of computing:

- Everything outside the visible source: password hashing, `authenticate`,
  the e-mail format check, the user model's remaining field checks, and the
  conversion of query strings into decimals and dates.
- The clock: `now`.
- The client's transport: a function from the request that leaves the
  client to the outcome it meets.
- Each awaited call's outcome.

Where the code does something other than it evidently means to (see
"Findings"), the operations concerned take a `Variant`: `AsWritten` is the
code as it stands and `Corrected` is the intended behaviour. The endpoint
members (`BookingViews.CreateEndpoint`, `BookingViews.UpdateEndpoint`,
`SearchView.Run`, `SearchView.HandleSearch`) take the variant too, so every
contract about them holds of the code as written; the invariants that only
the fix provides (no double booking) are proved for `Corrected` alone, and
their failure for `AsWritten` is proved as well.

Where the code and its documentation disagree, the model follows the code:

- A failed user refresh in the client leaves the previous user and flag in
  place; it does not sign the user out.
- The login payload check "Both email and password are required." can never
  fire, because the field checks run first (`Accounts.LoginEmptinessCheckUnreachable`).

## Model

| member | source | states |
|---|---|---|
| `Schema.NewRoom` | backend_service/rooms/models.py:21-28 | a room created with only its required fields is available and has zero bookings; it fits the model's bounds exactly when its name has at most 100 characters and its price stays below 10^10 cents in magnitude |
| `Schema.NewProfile` | backend_service/profiles/models.py:9-26 | a new profile's booking counter starts at 0, and bio, birth date, location and picture are all empty |
| `Schema.RoomLabel` | backend_service/rooms/models.py:30-31 | a room's string form is its hotel's name, then " - ", then the room's name, each at its exact position |
| `Schema.RoomLabelsDistinguishNames` | backend_service/rooms/models.py:30-31 | two rooms of one hotel have the same string form exactly when they have the same name |
| `Schema.ProfileLabel` | backend_service/profiles/models.py:28-29 | a profile's string form is "Profile of " followed by its user's e-mail |
| `Schema.ProfileLabelsDistinguishEmails` | backend_service/profiles/models.py:28-29 | two profiles have the same string form exactly when their users have the same e-mail |
| `Schema.AddProfile` | backend_service/profiles/models.py:10-15 | saving a profile fails exactly when its user does not exist or already has a profile (the one-to-one key) |
| `Schema.AddProfileKeepsIntegrity` | backend_service/profiles/models.py:10-15 | a profile added this way keeps every user at one profile at most and every reference resolvable |
| `Uploads.HotelPreviewPath` | backend_service/hotels/models.py:6-7 | a hotel preview is stored under "pictures/hotels/", then the hotel's name, then "/preview/", then the file name |
| `Uploads.HotelGalleryPath` | backend_service/hotels/models.py:10-11 | a hotel gallery image is stored under the parent hotel's name, in "/images/" |
| `Uploads.RoomPreviewPath` | backend_service/rooms/models.py:5-6 | a room preview is stored under "pictures/rooms/", then the room's name, then "/preview/" |
| `Uploads.RoomGalleryPath` | backend_service/rooms/models.py:9-10 | a room gallery image is stored under the parent room's name, in "/images/" |
| `Uploads.ProfilePicturePath` | backend_service/profiles/models.py:5-6 | a profile picture is stored under "pictures/profiles/", then the owner's e-mail, then "/" and the file name |
| `Uploads.HotelPreviewAndGalleryDiffer` | backend_service/hotels/models.py:6-11 | for one hotel name and file name, the preview path and the gallery path differ |
| `Uploads.RoomPreviewAndGalleryDiffer` | backend_service/rooms/models.py:5-10 | for one room name and file name, the preview path and the gallery path differ |
| `Uploads.ParseUploadPathRoundTrip` | backend_service/hotels/models.py:6-11 | when names and file names hold no '/', reading a stored path back gives the owner kind, the name and the file name it was built from |
| `Uploads.UploadPathInjective` | backend_service/rooms/models.py:5-10 | two uploads share a path only when they are for the same kind of owner, the same name and the same file, so no upload overwrites another kind's file |
| `Deletion.DeleteRooms` | backend_service/rooms/models.py:35 | deleting rooms removes exactly those rooms, their gallery images and their bookings, and no other table changes |
| `Deletion.DeleteRoom` | backend_service/bookings/models.py:13-18 | deleting one room removes exactly it, its gallery images and every booking of it; users, groups, profiles, hotels, hotel images and both type tables are unchanged |
| `Deletion.DeleteHotels` | backend_service/rooms/models.py:22 | deleting hotels cascades to their images and rooms, and on through those rooms to their images and bookings |
| `Deletion.DeleteHotel` | backend_service/hotels/models.py:43 | deleting one hotel removes exactly it, its gallery images, its rooms and those rooms' images and bookings; users, groups, profiles and both type tables are unchanged |
| `Deletion.DeleteUser` | backend_service/hotels/models.py:23-28 | deleting a user removes exactly the user, the profile, the user's bookings and hotels, those hotels' images and rooms, and those rooms' images and bookings; groups and types stay |
| `Deletion.DeleteHotelType` | backend_service/hotels/models.py:35 | deleting a hotel type keeps every hotel in place and clears the type of exactly the hotels that had it |
| `Deletion.DeleteRoomType` | backend_service/rooms/models.py:23 | deleting a room type keeps every room in place and clears the type of exactly the rooms that had it |
| `Deletion.DeleteRoomsKeepsIntegrity` | backend_service/rooms/models.py:35 | after rooms are deleted, every key is still unique and every reference still resolves |
| `Deletion.DeleteRoomKeepsIntegrity` | backend_service/bookings/models.py:13-18 | deleting a room leaves no booking or image pointing at it |
| `Deletion.DeleteHotelsKeepsIntegrity` | backend_service/rooms/models.py:22 | after hotels are deleted, no room, image or booking points at a deleted row |
| `Deletion.DeleteHotelKeepsIntegrity` | backend_service/hotels/models.py:43 | deleting one hotel keeps the database consistent |
| `Deletion.DeleteUserKeepsIntegrity` | backend_service/profiles/models.py:10-15 | deleting a user leaves no profile, hotel, room, image or booking pointing at a deleted row |
| `Deletion.DeleteHotelTypeKeepsIntegrity` | backend_service/hotels/models.py:35 | clearing a deleted type from hotels keeps the database consistent |
| `Deletion.DeleteRoomTypeKeepsIntegrity` | backend_service/rooms/models.py:23 | clearing a deleted type from rooms keeps the database consistent |
| `BookingSignals.BumpProfiles` | backend_service/bookings/signals.py:15-18 | the booker's profile counter goes up by exactly one; every other profile and every other field is unchanged |
| `BookingSignals.BumpRooms` | backend_service/bookings/signals.py:23-27 | the booked room's counter goes up by exactly one; every other room and every other field is unchanged |
| `BookingSignals.OnBookingSaved` | backend_service/bookings/signals.py:11-29 | a re-save changes nothing; a creation adds one to the booker's profile and one to the room, independently of each other; no counter goes down and no other table changes |
| `BookingSignals.CreationKeepsCountersMatch` | backend_service/bookings/signals.py:11-27 | when every counter equals its number of bookings, storing a booking and firing the signal keeps that true |
| `BookingSignals.NewRoomKeepsCountersMatch` | backend_service/rooms/models.py:21-28 | a room created with the defaults (available, zero bookings) under a fresh id keeps every counter equal to its number of bookings |
| `BookingSignals.NewProfileCountersMatchIff` | backend_service/profiles/models.py:9-26 | a profile created with the defaults (every optional field empty, counter 0) keeps the counters matching exactly when its user has made no booking yet |
| `Bookings.BackToBackStaysDoNotOverlap` | backend_service/bookings/serializers.py:35-38 | a stay ending on the day another starts does not conflict with it, in either order |
| `Bookings.CheckFields` | backend_service/bookings/serializers.py:10-22 | the field checks pass exactly when the required fields are present, `user_id` and `room_id` name existing rows and the status is non-blank and at most 50 characters; the status comes out stripped |
| `Bookings.Conflicts` | backend_service/bookings/serializers.py:35-40 | the overlap query returns exactly the bookings of the given room that hold it and overlap the half-open stay |
| `Bookings.ValidateAsWritten` | backend_service/bookings/serializers.py:24-46 | as written, validation fails only on a backwards or empty stay: the overlap query, scoped to the absent key `room`, never finds a conflict |
| `Bookings.Validate` | backend_service/bookings/serializers.py:24-46 | with both dates present, an empty or backwards stay gets "End date must be after start date." and a stay clashing with a held stay of the same room gets "already booked" (iff); otherwise the data passes unchanged, and without both dates it always passes |
| `Bookings.ValidateBy` | backend_service/bookings/serializers.py:24-46 | validation in either variant passes the data unchanged exactly when the dates are admitted: well ordered when both are sent, and, once corrected, clear of every held stay of the room |
| `Bookings.ClashIgnoresStatus` | backend_service/bookings/serializers.py:35-40 | whether a request clashes does not depend on the status it asks for: the query looks only at the held bookings of the room |
| `Bookings.OnlyHeldStaysBlock` | backend_service/bookings/serializers.py:39 | a booking that is neither active nor confirmed never makes a stay fail: a stay accepted without it is accepted with it |
| `Bookings.Insert` | backend_service/bookings/serializers.py:48-52 | the new booking carries exactly the user and room named by `user_id` and `room_id` and the validated dates and status, has a fresh id, and its save fires the creation signal |
| `Bookings.CreateBooking` | backend_service/bookings/serializers.py:24-52 | creation fails exactly when the field checks fail, the stay is empty or backwards, or, once corrected, it clashes with a held stay; on success one booking is appended with a fresh id, the requested user, room and dates, the stripped status and `now` as both timestamps, and exactly the booker's profile and the room gain one booking |
| `Bookings.CreateKeepsNoDoubleBooking` | backend_service/bookings/serializers.py:35-44 | a creation admitted by the scoped check never makes two held bookings of one room overlap |
| `Bookings.HeldRoomExampleIsConsistent` | backend_service/bookings/models.py:6-18 | the example database is consistent: its room belongs to an existing hotel, and its hotel and booking to an existing user |
| `Bookings.OneRowEachConsistent` | backend_service/bookings/models.py:6-18 | a user, a hotel they own, a room in it and a booking of theirs on that room, with no types, satisfy every key and reference constraint |
| `Bookings.HeldRoomExampleHasNoDoubleBooking` | backend_service/bookings/serializers.py:35-44 | the example database, one room held on days 10 to 20, satisfies the no-double-booking invariant |
| `Bookings.ExampleRequestIsWellFormed` | backend_service/bookings/serializers.py:10-17 | the example request (same room, days 12 to 15, "active") passes every field check unchanged |
| `Bookings.ExampleRequestClashes` | backend_service/bookings/serializers.py:27-44 | the example request is well ordered, asks for a holding status and overlaps the held stay of its room |
| `Bookings.AsWrittenAdmitsDoubleBooking` | backend_service/bookings/serializers.py:27-44 | as written, any well-formed request for a holding status whose stay overlaps a held stay of the same room is accepted, and the stored bookings then double-book the room |
| `Bookings.ScopedCheckRefusesDoubleBooking` | backend_service/bookings/serializers.py:35-44 | with the query scoped to `room_id`, every such request is refused with "already booked" |
| `Bookings.CreateAllKeepsInvariants` | backend_service/bookings/serializers.py:24-52 | over any sequence of booking requests, in either variant, every counter equals its number of bookings; once corrected, the held bookings of one room never overlap |
| `Bookings.CountersCountCreations` | backend_service/bookings/signals.py:11-27 | from an empty booking table with every counter at 0, each counter ends equal to the number of bookings created for its profile or room |
| `Bookings.CreationKeepsIds` | backend_service/bookings/serializers.py:48-52 | a creation adds no room and no user and removes none |
| `Bookings.AsWrittenRepeatDoubleBooks` | backend_service/bookings/serializers.py:27-44 | as written, posting the same well-formed request for a holding status twice stores two bookings that double-book the room, on any database |
| `Bookings.Patched` | backend_service/bookings/views.py:33-41 | a partial update writes exactly the fields sent; id and creation time are kept and the update time becomes now |
| `Bookings.UpdateBooking` | backend_service/bookings/views.py:33-41 | an unknown id gets "not found"; the update succeeds exactly when the booking exists, the sent fields pass and the dates are admitted; then only the named booking changes, to its patched form, and no other table changes |
| `Bookings.StatusOnlyUpdate` | backend_service/bookings/serializers.py:29-46 | a request carrying only a valid status always succeeds, in either variant, because the date and overlap checks need both dates; user, room and dates of every booking stay as they were |
| `Bookings.RoomOnlyUpdateMovesBooking` | backend_service/bookings/views.py:33-41 | a request carrying only an existing `room_id` succeeds and moves the named booking to that room, touching nothing else of it but the update time |
| `Bookings.ClashBreaksNoDoubleBooking` | backend_service/bookings/serializers.py:35-39 | two distinct held bookings of one room with overlapping stays violate the invariant, whichever is stored first |
| `Bookings.StatusRequestKeepsStay` | backend_service/bookings/views.py:33-41 | a status-only PATCH of a booking with a unique id succeeds, sets that booking's stripped status, keeps its room and dates, and changes no other booking |
| `Bookings.ReactivationCanDoubleBook` | backend_service/bookings/serializers.py:29 | because a status-only update skips the overlap check, setting a booking back to a holding status inside another held stay of its room succeeds and double-books the room |
| `BookingViews.NewestFirst` | backend_service/bookings/models.py:25-26 | a list holds the same bookings, with multiplicity, ordered by creation time, newest first |
| `BookingViews.ListBookings` | backend_service/bookings/views.py:15-19 | an anonymous requester is refused; anyone signed in gets every booking, newest first |
| `BookingViews.MyBookingRows` | backend_service/bookings/views.py:49-52 | the rows of `me` are exactly the requester's bookings, each as often as in the table, newest first |
| `BookingViews.SerializeBooking` | backend_service/bookings/serializers.py:55-62 | a booking is shown with its id, dates, timestamps and status, its room as the room serializer shows it and its booker as the user serializer shows it; it fails exactly when the room's hotel has no type |
| `BookingViews.MyBookings` | backend_service/bookings/views.py:49-54 | `me` is refused to anonymous requesters; it answers 500 exactly when one of the requester's bookings is on a hotel without a type; otherwise it is exactly the serialised rows of the requester's bookings, newest first, each naming the requester |
| `BookingViews.OwnerBookingRows` | backend_service/bookings/views.py:56-59 | the rows of `owner` are exactly the bookings on rooms of hotels the requester owns, each as often as in the table, newest first |
| `BookingViews.OwnerBookings` | backend_service/bookings/views.py:56-61 | `owner` is refused to anonymous requesters; it answers 500 exactly when one of those bookings is on a hotel without a type; otherwise it is exactly the serialised rows, newest first |
| `BookingViews.MeAndOwnerPartitionByRole` | backend_service/bookings/views.py:49-61 | a booking is in `me` exactly for its booker, never for another user, and in `owner` exactly for the owner of its room's hotel |
| `BookingViews.CreateEndpoint` | backend_service/bookings/views.py:27-31 | creation is refused to anonymous requesters; otherwise it fails exactly when the fields fail, the stay is empty or backwards or, once corrected, it clashes, reporting the serializer's error, and a created booking carries the requested user and room |
| `BookingViews.CreationIgnoresRequester` | backend_service/bookings/serializers.py:14-17 | the booker is whoever `user_id` names: two signed-in requesters sending the same data get the same outcome |
| `BookingViews.UpdateEndpoint` | backend_service/bookings/views.py:33-41 | updates are refused to anonymous requesters; otherwise they fail exactly for an unknown id, failing fields or unadmitted dates, and keep the table size and every counter |
| `BookingViews.DestroyEndpoint` | backend_service/bookings/views.py:43-47 | deletion is refused to anonymous requesters and reports an unknown id; a signed-in requester naming an existing id always succeeds; then exactly the bookings with that id go and nothing else in the database changes, so no counter goes down |
| `BookingViews.DestroyKeepsIntegrity` | backend_service/bookings/views.py:43-47 | a deletion keeps every key unique and every reference resolvable |
| `BookingViews.DestroyTwiceNotFound` | backend_service/bookings/views.py:43-47 | once a booking is deleted, deleting it again reports "not found" |
| `Seqs.FilterExact` | backend_service/hotels/filters.py:20 | a filtered table keeps each matching row exactly as often as the table holds it, drops every other row, and keeps table order |
| `Sorting.SortBy` | backend_service/hotels/filters.py:48-50 | for any total preorder, the result is a permutation of the input ordered by it |
| `Search.ParseOrdering` | backend_service/hotels/filters.py:48-50 | an ordering names a room field and is descending exactly when it starts with "-"; any other name is an error |
| `Search.OrderRooms` | backend_service/hotels/filters.py:48-50 | ordering returns the same rooms, with multiplicity, ascending on the field or descending when asked |
| `Search.Convert` | backend_service/hotels/filters.py:30-35 | an empty value is no criterion; a non-empty one is converted, and a value that does not convert is an error |
| `Search.Decode` | backend_service/hotels/filters.py:8-50 | text criteria are taken as given; each price bound is the converted value itself, and absent when the value is empty; the stay is the pair of converted dates exactly when both dates are given; the ordering is the parsed `sort` value; decoding fails exactly when a non-empty price, one of two given dates, or a non-empty ordering does not convert, and names the first failure in the order the query is built (minimum price, maximum price, end date, start date, ordering) |
| `Search.ParseOrderingRoundTrip` | backend_service/hotels/filters.py:48-50 | the text of every ordering parses back to that ordering |
| `Search.DecodeEncodeRoundTrip` | backend_service/hotels/filters.py:8-43 | every set of criteria can be asked for: the query string that encodes it decodes to exactly those criteria whenever printed prices and dates convert back to themselves |
| `Search.FindHotels` | backend_service/hotels/filters.py:6-20 | returns exactly the hotels whose name, type name, country and city contain, ignoring case, every non-empty hotel criterion, each as often as in the table and in table order |
| `Search.FindRooms` | backend_service/hotels/filters.py:22-46 | returns exactly the rooms of the found hotels that match every room criterion and that are not taken during the stay (as written, by any overlapping booking; once corrected, by an active or confirmed one), each as often as in the table and in table order |
| `Search.SearchAccommodations` | backend_service/hotels/filters.py:5-52 | in either variant, the hotels are exactly the matching ones, each as often as in the table and in table order; the rooms are exactly the matching rooms of returned hotels, in table order without a sort and ordered by the sort when one is given |
| `Search.NoCriteriaReturnsEverything` | backend_service/hotels/filters.py:6-46 | with no criterion set, every hotel is returned, and every room, in table order |
| `Search.StricterCriteriaNarrowResults` | backend_service/hotels/filters.py:6-46 | in either variant, adding criteria never adds a hotel or a room to the result |
| `Search.PriceBoundsInclusive` | backend_service/hotels/filters.py:30-35 | a room priced exactly at either bound passes the price criteria |
| `Search.AsWrittenSearchIsStricter` | backend_service/hotels/filters.py:40-43 | every room the search as written offers is offered by the corrected search too |
| `Search.OfferedRoomCanBeBooked` | backend_service/hotels/filters.py:37-43 | a room that passes the room criteria for a well-ordered stay in either variant, as every room the search returns does, passes the booking validation for that stay |
| `Search.OfferedExactlyWhenBookable` | backend_service/hotels/filters.py:37-43 | for a room meeting the other criteria and a well-ordered stay, the corrected search offers it exactly when the booking check would accept that stay for it |
| `Search.AsWrittenHidesRoomsFreedByCancellation` | backend_service/hotels/filters.py:40-43 | as written, a cancelled booking hides its room from a search for overlapping dates, although the booking check accepts that stay |
| `RoomSerializer.ImagesOf` | backend_service/rooms/serializers.py:6-10 | a room's images are exactly its gallery rows, each showing id, image, upload time and room |
| `RoomSerializer.RoomTypeName` | backend_service/rooms/serializers.py:20-23 | a room's type is shown by its name, and is null exactly when the room has no type |
| `RoomSerializer.SerializeRoom` | backend_service/rooms/serializers.py:19-50 | serialising fails exactly when the parent hotel has no type; otherwise hotel name, address, city, country and type name are the parent hotel's, and the room's own fields are copied |
| `RoomSerializer.SerializeRooms` | backend_service/rooms/serializers.py:19-50 | a room list serialises exactly when no room is on a hotel without a type, element by element in order |
| `RoomSerializer.ResolveRoomType` | backend_service/rooms/serializers.py:20-23 | a type name is accepted exactly when one room type carries it, and resolves to that type |
| `RoomSerializer.ApplyRoomInput` | backend_service/rooms/serializers.py:19-35 | a type name carried by several types is a server error whatever the other fields hold; otherwise input is accepted exactly when the sent fields are valid and a sent preview is an image; then sent fields are written (the name stripped, the type by name), a null preview clears it, an uploaded preview is stored under "pictures/rooms/<saved name>/preview/<file>", absent fields are kept, and id and booking count never change |
| `RoomSerializer.AppliedPreviewReadsBack` | backend_service/rooms/models.py:5-6 | an uploaded room preview's stored path reads back as that room's preview with the file name sent |
| `RoomSerializer.ReadOnlyFieldsIgnored` | backend_service/rooms/serializers.py:35 | whatever a client sends for id, images and total_bookings, the outcome is as if it had sent none |
| `RoomSerializer.RoomTypeNameRoundTrip` | backend_service/rooms/serializers.py:20-23 | with unique type names, sending back the type name a room is shown with resolves to its own type |
| `HotelSerializer.HotelImagesOf` | backend_service/hotels/serializers.py:6-10 | a hotel's images are exactly its gallery rows, each showing id, image, upload time and hotel |
| `HotelSerializer.HotelTypeName` | backend_service/hotels/serializers.py:21-24 | a hotel's type is shown by its name, and is null exactly when the hotel has no type |
| `HotelSerializer.SerializeHotel` | backend_service/hotels/serializers.py:20-31 | serialising a hotel fails exactly when it has no type and has a room; otherwise it shows the hotel's own fields, its type name, its gallery and, nested, every one of its rooms as the room serializer shows it |
| `HotelSerializer.SerializeHotels` | backend_service/hotels/serializers.py:20-31 | a hotel list serialises exactly when no hotel in it is untyped with rooms, element by element in order |
| `SearchView.ShowRoomsOnlyValues` | backend_service/hotels/views.py:26 | the flag is set exactly by "true" in any mix of letter cases; an absent flag is unset |
| `SearchView.ErrorResponse` | backend_service/hotels/views.py:50-60 | a validation error is a 400 with "error" and "details"; a database error or any other error is a 500 with "error" only |
| `SearchView.ErrorResponseAsWritten` | backend_service/hotels/views.py:50-52 | as written, the validation-error branch itself raises, so that error gets the framework's error page; the others map as intended |
| `SearchView.Serialized` | backend_service/hotels/views.py:31-48 | the search answer body is the rooms alone when the flag is set and the hotels and rooms otherwise, each list as its serializer shows it; it fails exactly when one of the returned rooms, or one of the returned hotels when hotels are shown, cannot be serialised |
| `SearchView.Run` | backend_service/hotels/views.py:23-48 | a validation error arises exactly from a parameter that does not convert, naming it; any other error arises exactly from an unknown ordering or a failed serialisation; no database error arises; otherwise the body is the serialised search over the decoded criteria |
| `SearchView.HandleSearch` | backend_service/hotels/views.py:17-60 | as written an unconvertible parameter gets the framework's error page, and once corrected a JSON 400 naming it; a 500 "An unexpected error occurred" comes exactly for an unknown ordering or a failed serialisation; otherwise a 200 whose body is the serialised search over the parameters without the flag, holding the rooms alone when the flag is set and the hotels and rooms otherwise |
| `SearchView.SuccessKeys` | backend_service/hotels/views.py:36-48 | a 200 answer has the key "rooms" alone when the flag is set, and the keys "hotels" and "rooms" otherwise |
| `SearchView.UnconvertiblePriceCrashesAsWritten` | backend_service/hotels/views.py:50-52 | a price that does not convert gets the error page as written, and a JSON 400 naming the parameter once corrected |
| `SearchView.UntypedHotelFailsSearch` | backend_service/hotels/views.py:36-48 | when hotels are shown and a found hotel has no type but has rooms, the whole search answers 500, in either variant |
| `SearchView.PriceFilterStillServesUntypedHotel` | backend_service/hotels/views.py:36-60 | on a database with one untyped hotel and one room priced 100.00, a search from 200.00 finds no room yet answers 500 |
| `SearchView.FlagNeverFilters` | backend_service/hotels/views.py:26-29 | whatever the flag's value, the search runs on the other parameters alone |
| `HotelViews.ResolveHotelType` | backend_service/hotels/serializers.py:21-24 | a hotel type name is accepted exactly when one type carries it, and resolves to that type |
| `HotelViews.CheckInput` | backend_service/hotels/models.py:29-36 | a type name carried by several types is a server error whatever the other fields hold; otherwise hotel input passes exactly when the required fields are present on creation, the text fields are non-blank, free of NUL characters and within their lengths, a sent description holds no NUL character, a sent type name names exactly one type, and a sent preview is an image |
| `HotelViews.Patched` | backend_service/hotels/views.py:126-134 | absent fields keep their values; id, owner and rating never change; a null preview clears it and an uploaded one is stored under the path built from the name the hotel is saved with |
| `HotelViews.CreateHotel` | backend_service/hotels/views.py:116-124 | an ambiguous type name is a server error before the owner is looked at; creation succeeds exactly for valid input from a signed-in requester; the new hotel has a fresh id, the requester as owner, the stripped name, address, city, country and description, the named type and no rating, and an uploaded preview is stored under "pictures/hotels/<saved name>/preview/<file>" |
| `HotelViews.CreatedPreviewReadsBack` | backend_service/hotels/models.py:6-7 | an uploaded preview of a created hotel is stored at a path that reads back as that hotel's preview with the file name sent |
| `HotelViews.OwnerInBodyIgnored` | backend_service/hotels/views.py:122-124 | whatever owner the body names, the created hotel belongs to the requester |
| `HotelViews.CreateHotelKeepsIntegrity` | backend_service/hotels/models.py:23-35 | a hotel created by an existing user keeps every key unique and every reference resolvable |
| `HotelViews.MyHotelRows` | backend_service/hotels/views.py:142-145 | the rows of `me` are exactly the requester's hotels, each as often as in the table and in table order |
| `HotelViews.MyHotels` | backend_service/hotels/views.py:142-147 | `me` fails for an anonymous requester; it answers 500 exactly when one of the requester's hotels has no type but has rooms; otherwise it is exactly the serialised rows of the requester's hotels, each owned by the requester |
| `HotelViews.CreatedHotelIsMine` | backend_service/hotels/views.py:122-147 | a hotel a user creates is among that user's hotels afterwards |
| `HotelViews.UpdateHotel` | backend_service/hotels/views.py:126-134 | an unknown id gets "not found"; otherwise the update succeeds exactly when the sent fields pass; only the named hotel changes, each sent text field stripped, a null preview clearing it, an uploaded preview stored under the path built from the saved name, a sent type resolved by name, every absent field kept, and id, owner and rating never change |
| `HotelViews.AmbiguousTypeFailsUpdate` | backend_service/hotels/serializers.py:21-24 | updating an existing hotel with a type name that several types carry is a server error, whatever else the body holds |
| `HotelViews.UpdateIgnoresRequester` | backend_service/hotels/views.py:101-104 | the viewset declares no permission, so the outcome of an update does not depend on who asks |
| `HotelViews.EmptyUpdateChangesNothing` | backend_service/hotels/views.py:126-134 | an update of an existing hotel that sends no field leaves the database as it was |
| `HotelViews.UpdateHotelKeepsIntegrity` | backend_service/hotels/views.py:126-134 | a successful update keeps every key unique and every reference resolvable |
| `Accounts.GroupName` | backend_service/auth_app/serializers.py:15-16 | a group id has a name exactly when a group with that id exists, and the name is that group's |
| `Accounts.GroupNames` | backend_service/auth_app/serializers.py:15-16 | a user's groups are shown as one name per membership, in order |
| `Accounts.SerializeUser` | backend_service/auth_app/serializers.py:6-16 | a serialised user carries the id, e-mail, phone and group names |
| `Accounts.PasswordNeverSerialized` | backend_service/auth_app/serializers.py:8 | users differing only in their stored password serialise alike, so the password never reaches the output |
| `Accounts.GroupNamed` | backend_service/auth_app/views.py:107-114 | a group name is found exactly when some group carries it, and the group found carries it |
| `Accounts.Register` | backend_service/auth_app/views.py:82-130 | the checks run in order (e-mail key, password key, e-mail in use, group name, group exists) and the first failure decides; a user is created exactly when all pass and the serializer accepts, with a fresh id, the stripped e-mail, the phone as the user model stores it, the hashed password and exactly the named group |
| `Accounts.RegisterKeepsEmailsUnique` | backend_service/auth_app/views.py:96-97 | a registration keeps e-mails unique among users |
| `Accounts.RegisterAllKeepsEmailsUnique` | backend_service/auth_app/views.py:96-97 | over any sequence of registrations, no two users share an e-mail |
| `Accounts.ValidateLogin` | backend_service/auth_app/serializers.py:30-39 | login data passes exactly when both e-mail and password are non-empty, and is returned unchanged |
| `Accounts.LoginEmptinessCheckUnreachable` | backend_service/auth_app/serializers.py:26-39 | once the field checks pass, the emptiness check cannot fail |
| `Accounts.LoginPost` | backend_service/auth_app/views.py:28-45 | an invalid body gets 400 and credentials that do not authenticate get 401, both leaving the session; otherwise 200 with the authenticated user signed in |
| `Accounts.LogoutPost` | backend_service/auth_app/views.py:52-61 | 200 exactly when someone is signed in, 401 otherwise; no one is signed in afterwards |
| `Accounts.LoginThenLogout` | backend_service/auth_app/views.py:28-61 | a successful login followed by a logout answers 200 and ends signed out |
| `Accounts.Me` | backend_service/auth_app/views.py:148-152 | `me` answers exactly for a signed-in requester, and the answer is that user as the user serializer shows it |
| `Accounts.RegisteredUserReadsBack` | backend_service/auth_app/views.py:82-152 | after a registration, `me` as the new user shows the stored e-mail, the stored phone and exactly the one group named in the request |
| `Accounts.AddingUserKeepsKeysUnique` | backend_service/auth_app/views.py:116-121 | a user created under a fresh id keeps every table's ids unique |
| `Accounts.SingleGroupName` | backend_service/auth_app/serializers.py:15-16 | with unique group ids, a one-group membership is shown as that group's name |
| `Gateway.GetCsrfToken` | frontend_service/src/api.js:40-50 | the token fetch sends a plain GET of the token endpoint and yields the reply body's token, or fails with the same error |
| `Gateway.InterceptRequest` | frontend_service/src/api.js:13-22 | a request that carries a token goes out untouched; otherwise it fails exactly when the token fetch fails, with that error, and else carries the fetched token; no other header or field of the request changes |
| `Gateway.Send` | frontend_service/src/api.js:13-33 | a request is not sent exactly when it lacks a token and the fetch fails, and the caller then sees the fetch's error; a sent request has a token header, and the caller sees exactly the server's answer |
| `Gateway.EveryVerbCarriesToken` | frontend_service/src/api.js:14-19 | with a non-empty token fetched, every request, GET included, is sent with a non-empty token |
| `Gateway.SendAll` | frontend_service/src/api.js:15-17 | a batch of requests makes exactly one token fetch per request lacking a token |
| `Gateway.SendAllFetchesAfresh` | frontend_service/src/api.js:15-17 | each request is served by the fetch numbered after the earlier requests lacking a token: tokens are never cached |
| `Gateway.FetchesNotShared` | frontend_service/src/api.js:15-17 | two different requests lacking a token are served by two different fetches |
| `Gateway.Login` | frontend_service/src/api.js:52-57 | `login` fails with the token error when the fetch fails; otherwise it returns the body of the server's reply to a token-bearing POST of e-mail and password |
| `Gateway.Logout` | frontend_service/src/api.js:59-64 | `logout` fails with the token error when the fetch fails; otherwise it returns the reply body of a token-bearing POST |
| `Gateway.FetchCurrentUser` | frontend_service/src/api.js:66-71 | `fetchCurrentUser` fetches a token even for its GET, and returns the reply body |
| `Session.Initial` | frontend_service/src/context/AuthContext.js:13-15 | the provider starts signed out, consistent, and loading the user |
| `Session.Login` | frontend_service/src/context/AuthContext.js:17-29 | login ends signed in with the fetched user exactly when both calls succeed; any failure rethrows that call's error and leaves the state as it was |
| `Session.Logout` | frontend_service/src/context/AuthContext.js:31-41 | a successful logout clears the user and the flag; a failure is swallowed and changes nothing |
| `Session.FetchUser` | frontend_service/src/context/AuthContext.js:43-56 | loading always ends; success signs the fetched user in; failure keeps the previous user and flag |
| `Session.Mount` | frontend_service/src/context/AuthContext.js:58-61 | after mounting, loading is over, and the user is signed in exactly when the fetch succeeded |
| `Session.RunKeepsConsistent` | frontend_service/src/context/AuthContext.js:17-56 | any sequence of logins and logouts keeps "signed in" paired with "a user is held", and never reopens loading |
| `Session.LifetimeConsistent` | frontend_service/src/context/AuthContext.js:58-61 | at every point of a session after mount, the pairing holds and loading is over |
| `Session.LoginThenLogoutClears` | frontend_service/src/context/AuthContext.js:17-41 | a successful logout after a successful login leaves no one signed in |
| `Session.TokenFailureBlocksLogin` | frontend_service/src/context/AuthContext.js:19-28 | when the login request cannot get a token, login rethrows that error and the session is unchanged |
| `ProfilePage.Load` | frontend_service/src/pages/ProfilePage.js:18-40 | loading ends; the error is "Failed to load data" exactly when a needed call failed; the profile is the profile call's body when it succeeded; the own list is the own-bookings body when both calls before it succeeded, else empty; the owner list is the owner body only when the user known at mount is a tenant and all three calls succeeded, else empty |
| `ProfilePage.LoadStopsAtFirstFailure` | frontend_service/src/pages/ProfilePage.js:20-36 | the calls run in order and the first failure stops them: later outcomes never matter, and the owner outcome never matters for a user who is not a tenant at mount |
| `ProfilePage.LateUserEmptiesOwnerSection` | frontend_service/src/pages/ProfilePage.js:27-40 | when the signed-in tenant is known only after mount, the owner section is shown, without an error, and is empty whatever the owner endpoint holds |
| `ProfilePage.ButtonsByStatus` | frontend_service/src/pages/ProfilePage.js:147-194 | the cancel button on the user's own rows (line 147) is offered unless the booking is cancelled or rejected; confirm and reject on the owner rows (line 194) only while it is active; so a confirmed row offers cancel only, and a cancelled or rejected row offers nothing on either list |
| `ProfilePage.SetStatus` | frontend_service/src/pages/ProfilePage.js:47-51 | the rows with the given id take the new status and change in nothing else; all other rows, the length and the order stay |
| `ProfilePage.SetStatusIdempotent` | frontend_service/src/pages/ProfilePage.js:48-50 | applying a status change twice gives what applying it once gives |
| `ProfilePage.SetStatusAbsentId` | frontend_service/src/pages/ProfilePage.js:48-50 | an id that is not on the list leaves the list as it was |
| `ProfilePage.HandleAsWritten` | frontend_service/src/pages/ProfilePage.js:44-81 | as written, a failed PATCH changes nothing, and every successful action, cancel included, updates only the owner list |
| `ProfilePage.Handle` | frontend_service/src/pages/ProfilePage.js:44-81 | the lists change only after the PATCH succeeds; cancel updates the user's own list, and confirm and reject update the owner list |
| `ProfilePage.ActionRetiresItsButton` | frontend_service/src/pages/ProfilePage.js:147-194 | after a successful action, the button that caused it is no longer offered on that row |
| `ProfilePage.CancelAsWrittenKeepsOwnRow` | frontend_service/src/pages/ProfilePage.js:44-55 | as written, cancelling one's own booking leaves that row, and its cancel button, exactly as they were |
| `ProfilePage.CancelExample` | frontend_service/src/pages/ProfilePage.js:44-55 | on a page with one own active booking, the as-written cancel changes nothing while the corrected one marks it cancelled |
| `RegistrationPage.InitialForm` | frontend_service/src/pages/RegistrationPage.js:6-11 | the form starts empty with the group "User", one of the offered groups |
| `RegistrationPage.HandleChange` | frontend_service/src/pages/RegistrationPage.js:33-35 | a change sets the named field to the new value and leaves every other field |
| `RegistrationPage.GroupStaysOffered` | frontend_service/src/pages/RegistrationPage.js:77-85 | whatever the user types or picks, the group stays "User" or "Tenant" |
| `RegistrationPage.Payload` | frontend_service/src/pages/RegistrationPage.js:23 | the posted body has exactly the keys email, password and group_name, with the form's values; the repeated password is left out |
| `RegistrationPage.Submit` | frontend_service/src/pages/RegistrationPage.js:15-31 | differing passwords show "Passwords do not match." and send nothing; otherwise the payload is posted, success moves to /login and failure shows "Registration failed. Please try again."; the form is never touched |
| `RegistrationPage.PagePayloadPassesPresenceChecks` | frontend_service/src/pages/RegistrationPage.js:23-26 | a body the page posts always passes the endpoint's e-mail, password and group-name presence checks |

## Left out

- Search: the date filter is read as "one booking of the room overlaps the
  stay". The ORM may evaluate the negated condition over two different
  bookings; that reading is not modelled.
- Search.Decode: turning a query string into a price or a date is a
  parameter, and a price is a whole number of cents. A bound with more than
  two decimal places (`?priceMin=100.005`) is a valid decimal bound in the
  source, but no single conversion to cents can stand for it under both
  `gte` and `lte`, so the model loses the sub-cent part. Text criteria are
  matched with ASCII-only case folding.
- Search.ParseOrdering: only orderings by one of the room's own scalar
  fields are modelled. Django's `order_by` also accepts the room's type
  relation (`type`, `type_id`), `preview_image`, `?` (random order),
  and related-field lookups (`hotel__name`); the model treats all of these
  as unknown names, which answer 500. Ordering by name compares code
  points; the database's collation is not part of this model.
- Accounts: password hashing, `authenticate`, the e-mail format check and
  the user model's remaining field checks are parameters. Their code is not
  part of this model.
- Accounts.Register: the user model is not part of this model, so how it
  stores `phone` (trimming, a default when the key is absent) is the
  parameter `storedPhone`; the contract promises only that the user keeps
  that value.
- HotelViews.CreateHotel, HotelViews.UpdateHotel, RoomSerializer.ApplyRoomInput:
  an upload is reduced to its file name and stored at the path
  `upload_to` builds. The storage's file-name cleaning and its suffix for
  a name already taken are not modelled, and whether a value is an image
  is a constructor of the input (`NotAnImage`) rather than a decoding of
  the file.
- Accounts.Register: the 500 reply when saving the user or adding the group
  raises (backend_service/auth_app/views.py:119-128) is not produced,
  because the database never fails in this model.
- SearchView.Run: a database error is never produced, for the same
  reason. Only the mapping of one is modelled.
- `request.GET.dict()` keeps the last of repeated query values. The model
  takes the dictionary as given.
- The pass-through list and retrieve endpoints, `HotelViewSet.bookings`,
  the CSRF view, the hotel-type and image viewsets, and user update and
  destroy are plain framework behaviour and are not modelled.
- The profile endpoints and serializer are not part of this model. The
  client treats the profile as an opaque body.
- Bookings.UpdateBooking: `NoDoubleBooking` is proved for creations only.
  Updates do not keep it (`Bookings.ReactivationCanDoubleBook` shows how),
  and the counters are not adjusted when an update moves a booking.
- Fresh ids are chosen above every existing id. The database's own
  sequence is not modelled.
- Timestamps are a `now` parameter; time zones and date formatting are
  not modelled.
- HotelViews.UpdateHotel: the reply re-serialises the saved hotel. A hotel
  whose type was deleted and that has rooms is saved and then answered
  with a 500; the model gives the saved database and not the reply body.
- Client: React's pending renders, rendering itself, navigation beyond
  the target path, console logging and the total-price computation (a
  floating-point day count) are not modelled.
- Client: concurrent or overlapping calls are not modelled. Each handler
  maps the state before it to the state after it.
- Gateway.GetCsrfToken: a reply whose body lacks `csrfToken` would yield
  `undefined` in the client. The model always has a string token.
- Gateway.InterceptResponse: it only logs and passes the outcome on, and
  has no contract of its own. `Gateway.Send` states that the caller sees
  the server's answer unchanged.

## Findings

| source | as written | input that shows it | evidently intended | confidence | as-written member | corrected member |
|---|---|---|---|---|---|---|
| backend_service/bookings/serializers.py:27 | the overlap query takes its room from the key `room`, but the writable field is `room_id` (line 10). The query is therefore scoped to "no room" and never finds a conflict. | room 1 held by an "active" booking on days 10 to 20; a request for room 1, days 12 to 15, status "active" (`Bookings.HeldRoomExample`, `Bookings.OverlappingRequestExample`) | scope the query to the room named by `room_id`, so the request is refused with "This room is already booked for the selected dates." | not executed; high | `Bookings.AsWrittenAdmitsDoubleBooking`, `Bookings.AsWrittenRepeatDoubleBooks` | `Bookings.ScopedCheckRefusesDoubleBooking`, `Bookings.CreateAllKeepsInvariants` |
| backend_service/hotels/filters.py:40-43 | the availability filter drops a room with any overlapping booking, whatever its status | room 1 whose only booking, days 10 to 20, is "cancelled"; a search for days 12 to 15 | only "active" and "confirmed" bookings make a room unavailable, as in the admission check (backend_service/bookings/serializers.py:39) | not executed; medium | `Search.AsWrittenHidesRoomsFreedByCancellation` | `Search.OfferedExactlyWhenBookable` |
| frontend_service/src/pages/ProfilePage.js:47 | a successful cancel updates the owner list, while the cancel button sits on the user's own list | a user's own active booking 7, not on any hotel of theirs; the cancel PATCH succeeds | update the user's own list, so the row shows "cancelled" and loses its button | not executed; high | `ProfilePage.CancelAsWrittenKeepsOwnRow` | `ProfilePage.ActionRetiresItsButton` |
| backend_service/hotels/views.py:52 | the handler for Django's `ValidationError` reads `ve.detail`, an attribute only the REST framework's error has. The handler itself raises, so the client gets the framework's error page. | `GET /hotels/search/?priceMin=abc` | a JSON 400 "Invalid input parameters"; its "details" is modelled as the name of the parameter that did not convert, a stand-in for the error's messages | not executed; medium | `SearchView.UnconvertiblePriceCrashesAsWritten` | `SearchView.HandleSearch` |
