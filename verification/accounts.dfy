/** Accounts: registration through `CustomUserViewSet.create`, the login and
    logout endpoints, `me`, and the user serializer.

    Password hashing, `authenticate`, the e-mail format check and the user
    model's own field checks are not visible here and are parameters. The
    user model's e-mail is its login key and therefore unique; the
    serializer's uniqueness check on the stored (stripped) e-mail reflects
    that. */
module Accounts {

  import opened Wrappers
  import opened Seqs
  import opened Text
  import opened Schema

  /** A request body: keys to string values. */
  type Body = map<string, string>

  function Field(body: Body, key: string): string {
    if key in body then body[key] else ""
  }

  // ---------------------------------------------------------------------
  // User serialisation

  /** `CustomUserSerializer` output: no password. */
  datatype UserView = UserView(id: Id, email: string, phone: string, groups: seq<string>)

  /** The name of the group with id `g`, if there is one. */
  function GroupName(db: Db, g: Id): (r: Option<string>)
    ensures r.Some? <==> exists x | x in db.groups :: x.id == g
    ensures r.Some? ==> exists x | x in db.groups :: x.id == g && r.value == x.name
  {
    match Find(db.groups, GroupKey, g)
    case Some(x) => Some(x.name)
    case None => None
  }

  /** `get_groups`: the names of the user's groups, one per membership. */
  function GroupNames(db: Db, gs: seq<Id>): (r: seq<string>)
    requires forall g | g in gs :: GroupName(db, g).Some?
    ensures |r| == |gs|
    ensures forall i | 0 <= i < |gs| :: exists x | x in db.groups :: x.id == gs[i] && r[i] == x.name
  {
    if gs == [] then []
    else
      [GroupName(db, gs[0]).value] + GroupNames(db, gs[1..])
  }

  /** Every group a user belongs to exists. */
  predicate MembershipsResolve(db: Db, u: User) {
    forall g | g in u.groups :: GroupName(db, g).Some?
  }

  function SerializeUser(db: Db, u: User): (r: UserView)
    requires MembershipsResolve(db, u)
    ensures r.id == u.id && r.email == u.email && r.phone == u.phone
    ensures |r.groups| == |u.groups|
    ensures forall i | 0 <= i < |u.groups| :: exists x | x in db.groups :: x.id == u.groups[i] && r.groups[i] == x.name
  {
    UserView(u.id, u.email, u.phone, GroupNames(db, u.groups))
  }

  /** The password never reaches the output: users that differ only in
      their stored password serialise alike. */
  lemma PasswordNeverSerialized(db: Db, u: User, password: string)
    requires MembershipsResolve(db, u)
    ensures SerializeUser(db, u) == SerializeUser(db, u.(password := password))
  {
  }

  // ---------------------------------------------------------------------
  // Registration

  datatype RegisterError =
    | EmailMissing            // "Email is required."
    | PasswordMissing         // "Password is required."
    | EmailInUse              // "Email is already in use."
    | GroupNameMissing        // "Group name is required."
    | GroupUnknown(name: string)   // "Group '<name>' does not exist."
    | Rejected                // the serializer's field errors

  predicate EmailTaken(db: Db, email: string) {
    exists u | u in db.users :: u.email == email
  }

  /** The group named `name`. Group names are unique in Django's auth model,
      so the first match is the only one. */
  function GroupNamed(db: Db, name: string): (r: Option<Group>)
    ensures r.Some? ==> r.value in db.groups && r.value.name == name
    ensures r.None? ==> forall g | g in db.groups :: g.name != name
  {
    var named := Filter(db.groups, (g: Group) => g.name == name);
    if named == [] then None else assert named[0] in named; Some(named[0])
  }

  /** `CustomUserSerializer.is_valid`: e-mail and password are trimmed and
      must not be blank, the stored e-mail must be unused, and the remaining
      model field checks (`fieldsValid`) pass. */
  predicate SerializerAccepts(db: Db, body: Body, fieldsValid: Body -> bool) {
    && CharFieldAccepts(Field(body, "email"), None)
    && CharFieldAccepts(Field(body, "password"), None)
    && !EmailTaken(db, Strip(Field(body, "email")))
    && fieldsValid(body)
  }

  datatype Registered = Registered(db: Db, user: User)

  /** An id above every existing user id. */
  function NextUserId(us: seq<User>): (id: Id)
    ensures forall u | u in us :: u.id < id
  {
    if us == [] then 1
    else
      var rest := NextUserId(us[1..]);
      assert forall u | u in us :: u == us[0] || u in us[1..];
      if us[0].id + 1 > rest then us[0].id + 1 else rest
  }

  /** `POST /users/`: the checks run in a fixed order and the first failure
      decides the reply; only when all pass is one user created, with the
      hashed password, in exactly the named group. The user model's phone
      field is not part of this model: `storedPhone` is the value it keeps
      for the body's `phone`. */
  function Register(db: Db, body: Body, fieldsValid: Body -> bool, storedPhone: Body -> string, hash: string -> string): (r: Result<Registered, RegisterError>)
    ensures "email" !in body ==> r == Err(EmailMissing)
    ensures "email" in body && "password" !in body ==> r == Err(PasswordMissing)
    ensures "email" in body && "password" in body && EmailTaken(db, body["email"]) ==> r == Err(EmailInUse)
    ensures "email" in body && "password" in body && !EmailTaken(db, body["email"]) && Field(body, "group_name") == [] ==>
      r == Err(GroupNameMissing)
    ensures ("email" in body && "password" in body && !EmailTaken(db, body["email"]) && Field(body, "group_name") != []
             && GroupNamed(db, body["group_name"]).None?) ==> r == Err(GroupUnknown(body["group_name"]))
    ensures r.Ok? <==>
      && "email" in body && "password" in body && !EmailTaken(db, body["email"])
      && Field(body, "group_name") != [] && GroupNamed(db, body["group_name"]).Some?
      && SerializerAccepts(db, body, fieldsValid)
    ensures r.Ok? ==>
      && r.value.db == db.(users := db.users + [r.value.user])
      && (forall u | u in db.users :: u.id != r.value.user.id)
      && r.value.user.email == Strip(body["email"])
      && r.value.user.phone == storedPhone(body)
      && r.value.user.password == hash(Strip(body["password"]))
      && r.value.user.groups == [GroupNamed(db, body["group_name"]).value.id]
  {
    if "email" !in body then Err(EmailMissing)
    else if "password" !in body then Err(PasswordMissing)
    else if EmailTaken(db, body["email"]) then Err(EmailInUse)
    else if Field(body, "group_name") == [] then Err(GroupNameMissing)
    else
      match GroupNamed(db, body["group_name"])
      case None => Err(GroupUnknown(body["group_name"]))
      case Some(g) =>
        if !SerializerAccepts(db, body, fieldsValid) then Err(Rejected)
        else
          var u := User(NextUserId(db.users), Strip(body["email"]), storedPhone(body), hash(Strip(body["password"])), [g.id]);
          Ok(Registered(db.(users := db.users + [u]), u))
  }

  /** No two users share an e-mail. */
  predicate EmailsUnique(db: Db) {
    forall i, j | 0 <= i < j < |db.users| :: db.users[i].email != db.users[j].email
  }

  lemma RegisterKeepsEmailsUnique(db: Db, body: Body, fieldsValid: Body -> bool, storedPhone: Body -> string, hash: string -> string)
    requires EmailsUnique(db)
    requires Register(db, body, fieldsValid, storedPhone, hash).Ok?
    ensures EmailsUnique(Register(db, body, fieldsValid, storedPhone, hash).value.db)
  {
    var r := Register(db, body, fieldsValid, storedPhone, hash).value;
    var us := r.db.users;
    forall i, j | 0 <= i < j < |us| ensures us[i].email != us[j].email {
      if j == |db.users| {
        assert us[i] in db.users;
      } else {
        assert us[i] == db.users[i] && us[j] == db.users[j];
      }
    }
  }

  /** Registrations applied in order; a refused one changes nothing. */
  function RegisterAll(db: Db, bodies: seq<Body>, fieldsValid: Body -> bool, storedPhone: Body -> string, hash: string -> string): Db
    decreases |bodies|
  {
    if bodies == [] then db
    else
      var r := Register(db, bodies[0], fieldsValid, storedPhone, hash);
      RegisterAll(if r.Ok? then r.value.db else db, bodies[1..], fieldsValid, storedPhone, hash)
  }

  /** However many registrations arrive, no two users share an e-mail. */
  lemma {:induction false} RegisterAllKeepsEmailsUnique(db: Db, bodies: seq<Body>, fieldsValid: Body -> bool, storedPhone: Body -> string, hash: string -> string)
    requires EmailsUnique(db)
    ensures EmailsUnique(RegisterAll(db, bodies, fieldsValid, storedPhone, hash))
    decreases |bodies|
  {
    if bodies != [] {
      var r := Register(db, bodies[0], fieldsValid, storedPhone, hash);
      if r.Ok? {
        RegisterKeepsEmailsUnique(db, bodies[0], fieldsValid, storedPhone, hash);
        RegisterAllKeepsEmailsUnique(r.value.db, bodies[1..], fieldsValid, storedPhone, hash);
      } else {
        RegisterAllKeepsEmailsUnique(db, bodies[1..], fieldsValid, storedPhone, hash);
      }
    }
  }

  // ---------------------------------------------------------------------
  // Login, logout, me

  /** The server-side session: the signed-in user, if any. */
  type Session = Option<Id>

  /** `LoginSerializer` field checks: both fields required and non-blank
      after trimming, and the e-mail well-formed. */
  predicate LoginFieldsValid(body: Body, isEmail: string -> bool) {
    && "email" in body && CharFieldAccepts(body["email"], None) && isEmail(Strip(body["email"]))
    && "password" in body && CharFieldAccepts(body["password"], None)
  }

  /** `LoginSerializer.validate`: both values must be non-empty. */
  function ValidateLogin(email: string, password: string): (r: Result<(string, string), string>)
    ensures r.Ok? <==> email != [] && password != []
    ensures r.Ok? ==> r.value == (email, password)
  {
    if email == [] || password == [] then Err("Both email and password are required.")
    else Ok((email, password))
  }

  /** The field checks run first, so the emptiness check in `validate` can
      never fail: its message is never produced. */
  lemma LoginEmptinessCheckUnreachable(body: Body, isEmail: string -> bool)
    requires LoginFieldsValid(body, isEmail)
    ensures ValidateLogin(Strip(body["email"]), Strip(body["password"])).Ok?
  {
  }

  datatype Reply = Reply(status: int, session: Session)

  /** `POST /login/`: 400 on an invalid body, 401 when the credentials do not
      authenticate, otherwise 200 with the user signed in. */
  function LoginPost(session: Session, body: Body, isEmail: string -> bool, authenticate: (string, string) -> Option<Id>): (r: Reply)
    ensures !LoginFieldsValid(body, isEmail) ==> r == Reply(400, session)
    ensures LoginFieldsValid(body, isEmail) ==>
      var u := authenticate(Strip(body["email"]), Strip(body["password"]));
      && (u.None? ==> r == Reply(401, session))
      && (u.Some? ==> r == Reply(200, u))
  {
    if !LoginFieldsValid(body, isEmail) then Reply(400, session)
    else
      match ValidateLogin(Strip(body["email"]), Strip(body["password"]))
      case Err(_) => Reply(400, session)
      case Ok((email, password)) =>
        match authenticate(email, password)
        case None => Reply(401, session)
        case Some(u) => Reply(200, Some(u))
  }

  /** `POST /logout/`: 200 and signed out when signed in; otherwise 401 and
      nothing changes. */
  function LogoutPost(session: Session): (r: Reply)
    ensures r.session.None?
    ensures r.status == 200 <==> session.Some?
    ensures r.status == 401 <==> session.None?
  {
    if session.Some? then Reply(200, None) else Reply(401, session)
  }

  /** A successful login followed by logout signs the user out again. */
  lemma LoginThenLogout(session: Session, body: Body, isEmail: string -> bool, authenticate: (string, string) -> Option<Id>)
    requires LoginPost(session, body, isEmail, authenticate).status == 200
    ensures LogoutPost(LoginPost(session, body, isEmail, authenticate).session) == Reply(200, None)
  {
  }

  /** `GET /users/me/`: only for a signed-in user, and exactly that user as
      the serializer shows it. */
  function Me(db: Db, session: Session): (r: Option<UserView>)
    requires KeysUnique(db)
    requires session.Some? ==> HasUser(db, session.value)
    requires forall u | u in db.users :: MembershipsResolve(db, u)
    ensures r.None? <==> session.None?
    ensures session.Some? ==> forall u | u in db.users && u.id == session.value :: r == Some(SerializeUser(db, u))
  {
    if session.None? then None
    else
      var u := Find(db.users, UserKey, session.value);
      if u.None? then assert false; None
      else Some(SerializeUser(db, u.value))
  }

  /** A user with a fresh id keeps every table's ids unique. */
  lemma AddingUserKeepsKeysUnique(db: Db, u: User)
    requires KeysUnique(db)
    requires forall x | x in db.users :: x.id != u.id
    ensures KeysUnique(db.(users := db.users + [u]))
  {
    var d := db.(users := db.users + [u]);
    forall a, b | a in d.users && b in d.users && a.id == b.id ensures a == b {
      assert a in db.users || a == u;
      assert b in db.users || b == u;
    }
  }

  /** With unique group ids, a one-group membership reads back as that
      group's name. */
  lemma SingleGroupName(db: Db, g: Group)
    requires KeysUnique(db) && g in db.groups
    ensures GroupName(db, g.id) == Some(g.name)
    ensures GroupNames(db, [g.id]) == [g.name]
  {
    var x :| x in db.groups && x.id == g.id && GroupName(db, g.id).value == x.name;
  }

  /** A user added under a fresh id, in one existing group, keeps ids
      unique and every membership resolvable. */
  lemma AddingMemberKeepsUsersConsistent(db: Db, u: User, g: Group)
    requires KeysUnique(db)
    requires forall x | x in db.users :: MembershipsResolve(db, x)
    requires forall x | x in db.users :: x.id != u.id
    requires g in db.groups && u.groups == [g.id]
    ensures KeysUnique(db.(users := db.users + [u]))
    ensures forall x | x in db.users + [u] :: MembershipsResolve(db.(users := db.users + [u]), x)
  {
    var d := db.(users := db.users + [u]);
    AddingUserKeepsKeysUnique(db, u);
    forall x | x in d.users ensures MembershipsResolve(d, x) {
      assert x in db.users || x == u;
      if x in db.users {
        assert MembershipsResolve(db, x);
        forall k | k in x.groups ensures GroupName(d, k).Some? {
          assert GroupName(db, k).Some?;
        }
      } else {
        assert GroupName(d, g.id).Some?;
      }
    }
  }

  /** Registering and then asking `me` as the new user reads back what was
      registered: the stored e-mail, the stored phone, and the one group named in
      the request, with no password. */
  lemma RegisteredUserReadsBack(db: Db, body: Body, fieldsValid: Body -> bool, storedPhone: Body -> string, hash: string -> string, r: Registered)
    requires KeysUnique(db)
    requires forall u | u in db.users :: MembershipsResolve(db, u)
    requires Register(db, body, fieldsValid, storedPhone, hash) == Ok(r)
    ensures KeysUnique(r.db) && r.user in r.db.users && forall u | u in r.db.users :: MembershipsResolve(r.db, u)
    ensures Me(r.db, Some(r.user.id)) == Some(UserView(r.user.id, Strip(body["email"]), storedPhone(body), [body["group_name"]]))
  {
    var g := GroupNamed(db, body["group_name"]).value;
    AddingMemberKeepsUsersConsistent(db, r.user, g);
    SingleGroupName(r.db, g);
    assert Me(r.db, Some(r.user.id)) == Some(SerializeUser(r.db, r.user));
  }
}
