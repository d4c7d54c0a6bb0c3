/** Where uploaded pictures are stored: the `upload_to` path builders of the
    hotel, room and profile models, and the fact that, for names and file
    names without a slash, a path determines what it belongs to. */
module Uploads {

  import opened Wrappers
  import opened Schema

  /** A value sent for an image field: `null`, which clears the field, an
      uploaded image with its file name, or anything that is not an image
      (the field refuses it with a 400). */
  datatype ImageUpload = NoImage | ImageFile(filename: string) | NotAnImage

  /** What an uploaded file is attached to, with the name its path uses. */
  datatype UploadTarget =
    | HotelPreview(name: string)
    | HotelGallery(name: string)
    | RoomPreview(name: string)
    | RoomGallery(name: string)
    | ProfilePicture(name: string)

  /** The storage path for `filename` uploaded for `t`. */
  function UploadPath(t: UploadTarget, filename: string): string {
    match t
    case HotelPreview(n) => "pictures/hotels/" + n + "/preview/" + filename
    case HotelGallery(n) => "pictures/hotels/" + n + "/images/" + filename
    case RoomPreview(n) => "pictures/rooms/" + n + "/preview/" + filename
    case RoomGallery(n) => "pictures/rooms/" + n + "/images/" + filename
    case ProfilePicture(n) => "pictures/profiles/" + n + "/" + filename
  }

  /** `hotels.models.preview_image_upload_path`: keyed by the hotel's name. */
  function HotelPreviewPath(h: Hotel, filename: string): (p: string)
    ensures p == UploadPath(HotelPreview(h.name), filename)
    ensures p[..16] == "pictures/hotels/" && p[16..16 + |h.name|] == h.name
    ensures p[16 + |h.name|..] == "/preview/" + filename
  {
    "pictures/hotels/" + h.name + "/preview/" + filename
  }

  /** `hotels.models.images_upload_path`: keyed by the parent hotel's name. */
  function HotelGalleryPath(h: Hotel, img: HotelImage, filename: string): (p: string)
    requires img.hotel == h.id
    ensures p == UploadPath(HotelGallery(h.name), filename)
    ensures p[..16] == "pictures/hotels/" && p[16..16 + |h.name|] == h.name
    ensures p[16 + |h.name|..] == "/images/" + filename
  {
    "pictures/hotels/" + h.name + "/images/" + filename
  }

  /** `rooms.models.preview_image_upload_path`: keyed by the room's name. */
  function RoomPreviewPath(r: Room, filename: string): (p: string)
    ensures p == UploadPath(RoomPreview(r.name), filename)
    ensures p[..15] == "pictures/rooms/" && p[15..15 + |r.name|] == r.name
    ensures p[15 + |r.name|..] == "/preview/" + filename
  {
    "pictures/rooms/" + r.name + "/preview/" + filename
  }

  /** `rooms.models.images_upload_path`: keyed by the parent room's name. */
  function RoomGalleryPath(r: Room, img: RoomImage, filename: string): (p: string)
    requires img.room == r.id
    ensures p == UploadPath(RoomGallery(r.name), filename)
    ensures p[..15] == "pictures/rooms/" && p[15..15 + |r.name|] == r.name
    ensures p[15 + |r.name|..] == "/images/" + filename
  {
    "pictures/rooms/" + r.name + "/images/" + filename
  }

  /** `profiles.models.profile_picture_upload_path`: keyed by the owner's email. */
  function ProfilePicturePath(p: Profile, u: User, filename: string): (path: string)
    requires p.user == u.id
    ensures path == UploadPath(ProfilePicture(u.email), filename)
    ensures path[..18] == "pictures/profiles/" && path[18..18 + |u.email|] == u.email
    ensures path[18 + |u.email|..] == "/" + filename
  {
    "pictures/profiles/" + u.email + "/" + filename
  }

  /** For one hotel name and file name, the preview and the gallery paths differ. */
  lemma HotelPreviewAndGalleryDiffer(name: string, filename: string)
    ensures UploadPath(HotelPreview(name), filename) != UploadPath(HotelGallery(name), filename)
  {
    assert |UploadPath(HotelPreview(name), filename)| == |UploadPath(HotelGallery(name), filename)| + 1;
  }

  /** For one room name and file name, the preview and the gallery paths differ. */
  lemma RoomPreviewAndGalleryDiffer(name: string, filename: string)
    ensures UploadPath(RoomPreview(name), filename) != UploadPath(RoomGallery(name), filename)
  {
    assert |UploadPath(RoomPreview(name), filename)| == |UploadPath(RoomGallery(name), filename)| + 1;
  }

  // ---------------------------------------------------------------------
  // Reading a path back

  predicate NoSlash(s: string) {
    '/' !in s
  }

  /** `s` cut at every '/'. */
  function Split(s: string): (r: seq<string>)
    ensures |r| >= 1
  {
    if s == [] then [[]]
    else
      var rest := Split(s[1..]);
      if s[0] == '/' then [[]] + rest else [[s[0]] + rest[0]] + rest[1..]
  }

  lemma {:induction false} SplitNoSlash(s: string)
    requires NoSlash(s)
    ensures Split(s) == [s]
  {
    if s != [] {
      assert NoSlash(s[1..]) by { assert forall c | c in s[1..] :: c in s; }
      SplitNoSlash(s[1..]);
      assert [s[0]] + s[1..] == s;
    }
  }

  lemma {:induction false} SplitJoin(a: string, b: string)
    requires NoSlash(a)
    ensures Split(a + "/" + b) == [a] + Split(b)
  {
    if a == [] {
      assert (a + "/" + b)[1..] == b;
    } else {
      assert NoSlash(a[1..]) by { assert forall c | c in a[1..] :: c in a; }
      SplitJoin(a[1..], b);
      assert (a + "/" + b)[1..] == a[1..] + "/" + b;
      assert [a[0]] + a[1..] == a;
    }
  }

  /** The path components `UploadPath(t, filename)` is made of. */
  function Segments(t: UploadTarget, filename: string): seq<string> {
    match t
    case HotelPreview(n) => ["pictures", "hotels", n, "preview", filename]
    case HotelGallery(n) => ["pictures", "hotels", n, "images", filename]
    case RoomPreview(n) => ["pictures", "rooms", n, "preview", filename]
    case RoomGallery(n) => ["pictures", "rooms", n, "images", filename]
    case ProfilePicture(n) => ["pictures", "profiles", n, filename]
  }

  lemma {:induction false} SplitFour(a: string, b: string, c: string, d: string)
    requires NoSlash(a) && NoSlash(b) && NoSlash(c) && NoSlash(d)
    ensures Split(a + "/" + b + "/" + c + "/" + d) == [a, b, c, d]
  {
    SplitNoSlash(d);
    SplitJoin(c, d);
    SplitJoin(b, c + "/" + d);
    assert a + "/" + b + "/" + c + "/" + d == a + "/" + (b + "/" + (c + "/" + d));
    SplitJoin(a, b + "/" + (c + "/" + d));
  }

  lemma {:induction false} SplitFive(a: string, b: string, c: string, d: string, e: string)
    requires NoSlash(a) && NoSlash(b) && NoSlash(c) && NoSlash(d) && NoSlash(e)
    ensures Split(a + "/" + b + "/" + c + "/" + d + "/" + e) == [a, b, c, d, e]
  {
    SplitFour(b, c, d, e);
    assert a + "/" + b + "/" + c + "/" + d + "/" + e == a + "/" + (b + "/" + c + "/" + d + "/" + e);
    SplitJoin(a, b + "/" + c + "/" + d + "/" + e);
  }

  lemma SplitHotelPreview(n: string, filename: string)
    requires NoSlash(n) && NoSlash(filename)
    ensures Split(UploadPath(HotelPreview(n), filename)) == Segments(HotelPreview(n), filename)
  {
    assert "pictures/hotels/" == "pictures" + "/" + "hotels" + "/";
    assert "/preview/" == "/" + "preview" + "/";
    assert UploadPath(HotelPreview(n), filename) == "pictures" + "/" + "hotels" + "/" + n + "/" + "preview" + "/" + filename;
    SplitFive("pictures", "hotels", n, "preview", filename);
  }

  lemma SplitHotelGallery(n: string, filename: string)
    requires NoSlash(n) && NoSlash(filename)
    ensures Split(UploadPath(HotelGallery(n), filename)) == Segments(HotelGallery(n), filename)
  {
    assert "pictures/hotels/" == "pictures" + "/" + "hotels" + "/";
    assert "/images/" == "/" + "images" + "/";
    assert UploadPath(HotelGallery(n), filename) == "pictures" + "/" + "hotels" + "/" + n + "/" + "images" + "/" + filename;
    SplitFive("pictures", "hotels", n, "images", filename);
  }

  lemma SplitRoomPreview(n: string, filename: string)
    requires NoSlash(n) && NoSlash(filename)
    ensures Split(UploadPath(RoomPreview(n), filename)) == Segments(RoomPreview(n), filename)
  {
    assert "pictures/rooms/" == "pictures" + "/" + "rooms" + "/";
    assert "/preview/" == "/" + "preview" + "/";
    assert UploadPath(RoomPreview(n), filename) == "pictures" + "/" + "rooms" + "/" + n + "/" + "preview" + "/" + filename;
    SplitFive("pictures", "rooms", n, "preview", filename);
  }

  lemma SplitRoomGallery(n: string, filename: string)
    requires NoSlash(n) && NoSlash(filename)
    ensures Split(UploadPath(RoomGallery(n), filename)) == Segments(RoomGallery(n), filename)
  {
    assert "pictures/rooms/" == "pictures" + "/" + "rooms" + "/";
    assert "/images/" == "/" + "images" + "/";
    assert UploadPath(RoomGallery(n), filename) == "pictures" + "/" + "rooms" + "/" + n + "/" + "images" + "/" + filename;
    SplitFive("pictures", "rooms", n, "images", filename);
  }

  lemma SplitProfilePicture(n: string, filename: string)
    requires NoSlash(n) && NoSlash(filename)
    ensures Split(UploadPath(ProfilePicture(n), filename)) == Segments(ProfilePicture(n), filename)
  {
    assert "pictures/profiles/" == "pictures" + "/" + "profiles" + "/";
    assert UploadPath(ProfilePicture(n), filename) == "pictures" + "/" + "profiles" + "/" + n + "/" + filename;
    SplitFour("pictures", "profiles", n, filename);
  }

  lemma SplitUploadPath(t: UploadTarget, filename: string)
    requires NoSlash(t.name) && NoSlash(filename)
    ensures Split(UploadPath(t, filename)) == Segments(t, filename)
  {
    match t
    case HotelPreview(n) => SplitHotelPreview(n, filename);
    case HotelGallery(n) => SplitHotelGallery(n, filename);
    case RoomPreview(n) => SplitRoomPreview(n, filename);
    case RoomGallery(n) => SplitRoomGallery(n, filename);
    case ProfilePicture(n) => SplitProfilePicture(n, filename);
  }

  /** Recovers the owner and file name from a stored path, when the path has
      one of the five shapes above. */
  function ParseUploadPath(p: string): Option<(UploadTarget, string)> {
    var s := Split(p);
    if |s| == 5 && s[0] == "pictures" && s[1] == "hotels" && s[3] == "preview" then Some((HotelPreview(s[2]), s[4]))
    else if |s| == 5 && s[0] == "pictures" && s[1] == "hotels" && s[3] == "images" then Some((HotelGallery(s[2]), s[4]))
    else if |s| == 5 && s[0] == "pictures" && s[1] == "rooms" && s[3] == "preview" then Some((RoomPreview(s[2]), s[4]))
    else if |s| == 5 && s[0] == "pictures" && s[1] == "rooms" && s[3] == "images" then Some((RoomGallery(s[2]), s[4]))
    else if |s| == 4 && s[0] == "pictures" && s[1] == "profiles" then Some((ProfilePicture(s[2]), s[3]))
    else None
  }

  /** A path built for a name and file name free of '/' reads back as them. */
  lemma ParseUploadPathRoundTrip(t: UploadTarget, filename: string)
    requires NoSlash(t.name) && NoSlash(filename)
    ensures ParseUploadPath(UploadPath(t, filename)) == Some((t, filename))
  {
    SplitUploadPath(t, filename);
  }

  /** Uploads never share a path unless they are for the same kind of owner,
      the same name and the same file name: no hotel picture can overwrite a
      room or profile picture, and a preview never overwrites a gallery image. */
  lemma UploadPathInjective(t1: UploadTarget, f1: string, t2: UploadTarget, f2: string)
    requires NoSlash(t1.name) && NoSlash(f1) && NoSlash(t2.name) && NoSlash(f2)
    requires UploadPath(t1, f1) == UploadPath(t2, f2)
    ensures t1 == t2 && f1 == f2
  {
    ParseUploadPathRoundTrip(t1, f1);
    ParseUploadPathRoundTrip(t2, f2);
  }
}
