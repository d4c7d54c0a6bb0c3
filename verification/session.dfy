/** The client's session state, as the authentication context provider
    keeps it: whether someone is logged in, who, and whether the user is
    still being loaded.

    The backend calls are not made here: each transition takes the
    outcome of the calls it awaits (`Gateway.Login`, `Gateway.Logout`,
    `Gateway.FetchCurrentUser`). The states React passes through while a
    call is pending are not modelled; a transition maps the state before
    the handler to the state after it. */
module Session {

  import opened Wrappers
  import opened Gateway
  import Accounts

  type User = Accounts.UserView

  datatype AuthState = AuthState(isLoggedIn: bool, user: Option<User>, isLoadingUser: bool)

  /** The pairing every transition keeps: logged in exactly when a user is held. */
  predicate Consistent(s: AuthState) {
    s.isLoggedIn <==> s.user.Some?
  }

  /** The state before the provider mounts. */
  function Initial(): (s: AuthState)
    ensures Consistent(s) && s.isLoadingUser
  {
    AuthState(false, None, true)
  }

  /** `login`: the state after the handler, and the error it rethrows. */
  datatype LoginResult = LoginResult(state: AuthState, thrown: Option<string>)

  /** The user is fetched only after the login call succeeds; the state
      changes only when both succeed, and any failure is rethrown. */
  function Login(s: AuthState, loginCall: Outcome<Accounts.Body>, fetchCall: Outcome<User>): (r: LoginResult)
    ensures r.thrown.None? <==> loginCall.Resolved? && fetchCall.Resolved?
    ensures r.thrown.None? ==> r.state.isLoggedIn && r.state.user == Some(fetchCall.value)
    ensures loginCall.Rejected? ==> r.thrown == Some(loginCall.error)
    ensures loginCall.Resolved? && fetchCall.Rejected? ==> r.thrown == Some(fetchCall.error)
    ensures r.thrown.Some? ==> r.state == s
    ensures r.state.isLoadingUser == s.isLoadingUser
    ensures Consistent(s) ==> Consistent(r.state)
  {
    match loginCall
    case Rejected(e) => LoginResult(s, Some(e))
    case Resolved(_) =>
      match fetchCall
      case Rejected(e) => LoginResult(s, Some(e))
      case Resolved(u) => LoginResult(s.(user := Some(u), isLoggedIn := true), None)
  }

  /** `logout`: success clears the user; a failure is swallowed. */
  function Logout(s: AuthState, logoutCall: Outcome<Accounts.Body>): (r: AuthState)
    ensures logoutCall.Resolved? ==> !r.isLoggedIn && r.user.None?
    ensures logoutCall.Rejected? ==> r == s
    ensures r.isLoadingUser == s.isLoadingUser
    ensures Consistent(s) ==> Consistent(r)
  {
    match logoutCall
    case Resolved(_) => s.(user := None, isLoggedIn := false)
    case Rejected(_) => s
  }

  /** `fetchUser`: loading always ends; a failure keeps the previous user
      and flag rather than resetting them. */
  function FetchUser(s: AuthState, fetchCall: Outcome<User>): (r: AuthState)
    ensures !r.isLoadingUser
    ensures fetchCall.Resolved? ==> r.isLoggedIn && r.user == Some(fetchCall.value)
    ensures fetchCall.Rejected? ==> r.isLoggedIn == s.isLoggedIn && r.user == s.user
    ensures Consistent(s) ==> Consistent(r)
  {
    match fetchCall
    case Resolved(u) => AuthState(true, Some(u), false)
    case Rejected(_) => s.(isLoadingUser := false)
  }

  /** The effect that runs once, when the provider mounts. */
  function Mount(fetchCall: Outcome<User>): (r: AuthState)
    ensures Consistent(r) && !r.isLoadingUser
    ensures r.isLoggedIn <==> fetchCall.Resolved?
  {
    FetchUser(Initial(), fetchCall)
  }

  /** What can happen after mounting: the page calls `login` or `logout`. */
  datatype Action =
    | LoginAction(loginCall: Outcome<Accounts.Body>, fetchCall: Outcome<User>)
    | LogoutAction(logoutCall: Outcome<Accounts.Body>)

  function Step(s: AuthState, a: Action): AuthState {
    match a
    case LoginAction(l, f) => Login(s, l, f).state
    case LogoutAction(l) => Logout(s, l)
  }

  function Run(s: AuthState, actions: seq<Action>): AuthState
    decreases |actions|
  {
    if actions == [] then s else Run(Step(s, actions[0]), actions[1..])
  }

  /** A session from mount on: the one fetch, then the page's actions. */
  function Lifetime(mountCall: Outcome<User>, actions: seq<Action>): AuthState {
    Run(Mount(mountCall), actions)
  }

  /** Any sequence of actions keeps the flag and the user paired, and never
      reopens loading. */
  lemma {:induction false} RunKeepsConsistent(s: AuthState, actions: seq<Action>)
    requires Consistent(s)
    ensures Consistent(Run(s, actions))
    ensures Run(s, actions).isLoadingUser == s.isLoadingUser
    decreases |actions|
  {
    if actions != [] {
      var next := Step(s, actions[0]);
      assert Consistent(next) && next.isLoadingUser == s.isLoadingUser;
      RunKeepsConsistent(next, actions[1..]);
    }
  }

  /** At every point of a session the pairing holds and loading is over. */
  lemma LifetimeConsistent(mountCall: Outcome<User>, actions: seq<Action>)
    ensures Consistent(Lifetime(mountCall, actions))
    ensures !Lifetime(mountCall, actions).isLoadingUser
  {
    RunKeepsConsistent(Mount(mountCall), actions);
  }

  /** A successful logout after a successful login leaves no one logged
      in, whoever was logged in before. */
  lemma LoginThenLogoutClears(s: AuthState, l: Accounts.Body, u: User, o: Accounts.Body)
    ensures Run(s, [LoginAction(Resolved(l), Resolved(u)), LogoutAction(Resolved(o))]) ==
            s.(isLoggedIn := false, user := None)
  {
    var acts := [LoginAction(Resolved(l), Resolved(u)), LogoutAction(Resolved(o))];
    var mid := Step(s, acts[0]);
    assert acts[1..] == [LogoutAction(Resolved(o))];
    assert Run(mid, acts[1..]) == Run(Logout(mid, Resolved(o)), []);
  }

  /** When the login request cannot get a CSRF token, the token error is
      what `login` rethrows, and the session is left as it was. */
  lemma TokenFailureBlocksLogin(
    s: AuthState, email: string, password: string, e: string,
    fetchCall: Outcome<User>, server: RequestConfig -> Outcome<Response<Accounts.Body>>)
    ensures Login(s, Gateway.Login(email, password, Rejected(e), server), fetchCall) == LoginResult(s, Some(e))
  {
  }
}
