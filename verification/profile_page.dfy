/** The profile page: what it loads on mount, which status buttons it
    shows on each booking row, and how its three status handlers update
    the lists it holds.

    Each handler sends a PATCH of the booking's status; its outcome is a
    parameter. Rendering, navigation and the price shown per row are not
    modelled. */
module ProfilePage {

  import opened Wrappers
  import opened Gateway
  import Accounts

  /** A booking as the page holds it, from the booking serializer. */
  datatype BookingRow = BookingRow(
    id: nat,
    status: string,
    startDate: string,
    endDate: string,
    roomId: nat,
    bookerEmail: string)

  datatype PageState = PageState(
    profile: Option<Accounts.Body>,
    bookings: seq<BookingRow>,          // the user's own bookings
    ownerBookings: seq<BookingRow>,     // bookings on the user's hotels
    loading: bool,
    error: string)

  const TenantGroup := "Tenant"
  const LoadFailed := "Failed to load data"

  /** Whether the signed-in user's groups include "Tenant". */
  predicate IsTenant(user: Option<Accounts.UserView>) {
    user.Some? && TenantGroup in user.value.groups
  }

  // ---------------------------------------------------------------------
  // Loading

  function Initial(): PageState {
    PageState(None, [], [], true, "")
  }

  /** `fetchData`: profile, then own bookings, then, when the user known at
      mount time is a tenant, the owner bookings; the first failure sets the
      error and stops. The effect runs once, on mount, so `mountUser` is the
      user the auth context held then, which is still null while its own
      `/users/me/` request is in flight. */
  function Load(
    mountUser: Option<Accounts.UserView>,
    profileCall: Outcome<Accounts.Body>,
    mineCall: Outcome<seq<BookingRow>>,
    ownerCall: Outcome<seq<BookingRow>>): (r: PageState)
    ensures !r.loading
    ensures r.error == "" <==>
      (profileCall.Resolved? && mineCall.Resolved? && (IsTenant(mountUser) ==> ownerCall.Resolved?))
    ensures r.error != "" ==> r.error == LoadFailed
    ensures r.profile == (if profileCall.Resolved? then Some(profileCall.value) else None)
    ensures r.bookings == (if profileCall.Resolved? && mineCall.Resolved? then mineCall.value else [])
    // the owner list is fetched and filled only for a tenant known at mount
    ensures r.ownerBookings ==
      (if profileCall.Resolved? && mineCall.Resolved? && IsTenant(mountUser) && ownerCall.Resolved?
       then ownerCall.value else [])
  {
    var s := Initial();
    match profileCall
    case Rejected(_) => s.(loading := false, error := LoadFailed)
    case Resolved(p) =>
      var s := s.(profile := Some(p));
      match mineCall
      case Rejected(_) => s.(loading := false, error := LoadFailed)
      case Resolved(mine) =>
        var s := s.(bookings := mine);
        if !IsTenant(mountUser) then s.(loading := false)
        else
          match ownerCall
          case Rejected(_) => s.(loading := false, error := LoadFailed)
          case Resolved(theirs) => s.(ownerBookings := theirs, loading := false)
  }

  /** The calls run in order and stop at the first failure: once the profile
      call fails the other two outcomes are irrelevant, once the own-bookings
      call fails the owner outcome is, and for a user who is not a tenant at
      mount the owner call is never made. */
  lemma LoadStopsAtFirstFailure(
    mountUser: Option<Accounts.UserView>,
    profileCall: Outcome<Accounts.Body>,
    mineCall: Outcome<seq<BookingRow>>, mineCall': Outcome<seq<BookingRow>>,
    ownerCall: Outcome<seq<BookingRow>>, ownerCall': Outcome<seq<BookingRow>>)
    ensures profileCall.Rejected? ==>
      Load(mountUser, profileCall, mineCall, ownerCall) == Load(mountUser, profileCall, mineCall', ownerCall')
    ensures mineCall.Rejected? ==>
      Load(mountUser, profileCall, mineCall, ownerCall) == Load(mountUser, profileCall, mineCall, ownerCall')
    ensures !IsTenant(mountUser) ==>
      Load(mountUser, profileCall, mineCall, ownerCall) == Load(mountUser, profileCall, mineCall, ownerCall')
  {
  }

  /** The owner section is rendered from the user the auth context holds at
      render time, which may differ from the one seen at mount. */
  predicate ShowsOwnerSection(renderUser: Option<Accounts.UserView>) {
    IsTenant(renderUser)
  }

  /** When the auth context's user arrives only after mount, a tenant sees
      the owner section, and it is empty whatever the owner endpoint would
      have answered, with no error shown. */
  lemma LateUserEmptiesOwnerSection(
    renderUser: Option<Accounts.UserView>,
    profileCall: Outcome<Accounts.Body>,
    mineCall: Outcome<seq<BookingRow>>,
    ownerCall: Outcome<seq<BookingRow>>)
    requires IsTenant(renderUser)
    requires profileCall.Resolved? && mineCall.Resolved?
    ensures ShowsOwnerSection(renderUser)
    ensures Load(None, profileCall, mineCall, ownerCall).error == ""
    ensures Load(None, profileCall, mineCall, ownerCall).ownerBookings == []
  {
  }

  // ---------------------------------------------------------------------
  // Buttons

  /** "Cancel Booking" is offered on the user's own rows. */
  predicate CancelOffered(b: BookingRow) {
    b.status != "cancelled" && b.status != "rejected"
  }

  /** "Confirm" and "Reject" are offered on the owner rows. */
  predicate ConfirmRejectOffered(b: BookingRow) {
    b.status == "active"
  }

  lemma ButtonsByStatus(b: BookingRow)
    ensures ConfirmRejectOffered(b) ==> CancelOffered(b)
    ensures b.status == "confirmed" ==> CancelOffered(b) && !ConfirmRejectOffered(b)
    ensures b.status in {"cancelled", "rejected"} ==> !CancelOffered(b) && !ConfirmRejectOffered(b)
  {
  }

  // ---------------------------------------------------------------------
  // Status updates

  /** The rows with the given id take the new status; nothing else moves. */
  function SetStatus(rows: seq<BookingRow>, id: nat, status: string): (r: seq<BookingRow>)
    ensures |r| == |rows|
    ensures forall i | 0 <= i < |rows| && rows[i].id == id ::
      r[i].status == status && r[i].(status := rows[i].status) == rows[i]
    ensures forall i | 0 <= i < |rows| && rows[i].id != id :: r[i] == rows[i]
  {
    seq(|rows|, i requires 0 <= i < |rows| =>
      if rows[i].id == id then rows[i].(status := status) else rows[i])
  }

  lemma SetStatusIdempotent(rows: seq<BookingRow>, id: nat, status: string)
    ensures SetStatus(SetStatus(rows, id, status), id, status) == SetStatus(rows, id, status)
  {
    var once := SetStatus(rows, id, status);
    var twice := SetStatus(once, id, status);
    assert |twice| == |once|;
    forall i | 0 <= i < |once|
      ensures twice[i] == once[i]
    {
      if rows[i].id == id {
        assert once[i].id == id;
      }
    }
  }

  /** Ids that are not on the list leave it as it was. */
  lemma {:induction false} SetStatusAbsentId(rows: seq<BookingRow>, id: nat, status: string)
    requires forall i | 0 <= i < |rows| :: rows[i].id != id
    ensures SetStatus(rows, id, status) == rows
  {
    var r := SetStatus(rows, id, status);
    assert forall i | 0 <= i < |rows| :: r[i] == rows[i];
  }

  datatype StatusAction = Cancel | Confirm | Reject

  function Target(a: StatusAction): string {
    match a
    case Cancel => "cancelled"
    case Confirm => "confirmed"
    case Reject => "rejected"
  }

  /** The three handlers as written: every one of them, "Cancel" included,
      updates the owner list. */
  function HandleAsWritten(p: PageState, a: StatusAction, id: nat, patch: Outcome<Accounts.Body>): (r: PageState)
    ensures patch.Rejected? ==> r == p
    ensures r.bookings == p.bookings
    ensures patch.Resolved? ==> r == p.(ownerBookings := SetStatus(p.ownerBookings, id, Target(a)))
  {
    match patch
    case Rejected(_) => p
    case Resolved(_) => p.(ownerBookings := SetStatus(p.ownerBookings, id, Target(a)))
  }

  /** The handlers with "Cancel" updating the list its button sits on. */
  function Handle(p: PageState, a: StatusAction, id: nat, patch: Outcome<Accounts.Body>): (r: PageState)
    // the lists change only after the PATCH succeeds
    ensures patch.Rejected? ==> r == p
    ensures patch.Resolved? && a == Cancel ==>
      r == p.(bookings := SetStatus(p.bookings, id, "cancelled"))
    ensures patch.Resolved? && a != Cancel ==>
      r == p.(ownerBookings := SetStatus(p.ownerBookings, id, Target(a)))
  {
    match patch
    case Rejected(_) => p
    case Resolved(_) =>
      if a == Cancel then p.(bookings := SetStatus(p.bookings, id, "cancelled"))
      else p.(ownerBookings := SetStatus(p.ownerBookings, id, Target(a)))
  }

  /** After a successful action the button that caused it is no longer
      offered on that row. */
  lemma ActionRetiresItsButton(p: PageState, a: StatusAction, id: nat, ok: Accounts.Body, i: nat)
    ensures a == Cancel && i < |p.bookings| && p.bookings[i].id == id ==>
      !CancelOffered(Handle(p, a, id, Resolved(ok)).bookings[i])
    ensures a != Cancel && i < |p.ownerBookings| && p.ownerBookings[i].id == id ==>
      !ConfirmRejectOffered(Handle(p, a, id, Resolved(ok)).ownerBookings[i])
  {
  }

  /** As written, cancelling one's own booking leaves that row, and its
      "Cancel Booking" button, exactly as they were. */
  lemma CancelAsWrittenKeepsOwnRow(p: PageState, id: nat, ok: Accounts.Body, i: nat)
    requires i < |p.bookings| && p.bookings[i].id == id && CancelOffered(p.bookings[i])
    ensures HandleAsWritten(p, Cancel, id, Resolved(ok)).bookings[i] == p.bookings[i]
    ensures CancelOffered(HandleAsWritten(p, Cancel, id, Resolved(ok)).bookings[i])
  {
  }

  /** A concrete page: a user's own active booking 7, not on any hotel of
      theirs. */
  function OwnActiveBookingPage(): PageState {
    PageState(Some(map[]), [BookingRow(7, "active", "2024-05-01", "2024-05-03", 1, "a@b.c")], [], false, "")
  }

  /** On that page the as-written cancel changes nothing at all, while the
      corrected one marks the row cancelled. */
  lemma CancelExample(ok: Accounts.Body)
    ensures HandleAsWritten(OwnActiveBookingPage(), Cancel, 7, Resolved(ok)) == OwnActiveBookingPage()
    ensures Handle(OwnActiveBookingPage(), Cancel, 7, Resolved(ok)).bookings[0].status == "cancelled"
  {
    SetStatusAbsentId([], 7, "cancelled");
  }
}
