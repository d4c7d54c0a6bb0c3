/** The client's HTTP gateway: the backend client built by `createAPI`, its
    request interceptor that attaches a CSRF token, its pass-through
    response interceptor, the token fetch and the three account calls.

    The transport itself (axios) is a parameter: `server` maps the request
    that leaves the client to the outcome it meets, a rejection standing
    for a network failure or a non-2xx status. Token fetches are numbered
    in the order the interceptor makes them, and `fetch(k)` is what the
    k-th token request returns; nothing is cached between requests. */
module Gateway {

  import opened Wrappers

  /** An awaited promise: resolved with a value or rejected with an error. */
  datatype Outcome<T> = Resolved(value: T) | Rejected(error: string)

  datatype Response<D> = Response(status: int, data: D)

  /** The part of an axios request configuration the gateway touches. */
  datatype RequestConfig = RequestConfig(
    verb: string,
    url: string,
    headers: map<string, string>,
    data: Option<map<string, string>>)

  const TokenHeader := "X-CSRFToken"
  const TokenUrl := "http://localhost/api/auth/csrf/"

  /** JavaScript truthiness of the token slot: an absent header and an
      empty string are both falsy. */
  predicate HasToken(c: RequestConfig) {
    TokenHeader in c.headers && c.headers[TokenHeader] != ""
  }

  // ---------------------------------------------------------------------
  // Token fetch

  /** The body of the token endpoint's reply. */
  datatype TokenBody = TokenBody(csrfToken: string)

  /** The token request: a plain GET of the token endpoint, sent with axios
      itself rather than through the gateway, so the request interceptor
      does not run on it. */
  const TokenRequest := RequestConfig("get", TokenUrl, map[], None)

  /** `getCSRFToken`: sends `TokenRequest` through `send` (the network) and
      yields the token out of the reply body, or the same error. */
  function GetCsrfToken(send: RequestConfig -> Outcome<Response<TokenBody>>): (r: Outcome<string>)
    ensures r.Resolved? <==> send(TokenRequest).Resolved?
    ensures r.Resolved? ==> r.value == send(TokenRequest).value.data.csrfToken
    ensures r.Rejected? ==> r.error == send(TokenRequest).error
  {
    match send(TokenRequest)
    case Resolved(resp) => Resolved(resp.data.csrfToken)
    case Rejected(e) => Rejected(e)
  }

  // ---------------------------------------------------------------------
  // Interceptors

  /** The request interceptor. `fetch` is the outcome the token request
      would have; it is awaited only when the request lacks a token. */
  function InterceptRequest(c: RequestConfig, fetch: Outcome<string>): (r: Outcome<RequestConfig>)
    // a request that already carries a token goes out untouched
    ensures HasToken(c) ==> r == Resolved(c)
    // otherwise the fetch decides: its failure is the request's failure
    ensures !HasToken(c) ==> (r.Rejected? <==> fetch.Rejected?)
    ensures !HasToken(c) && fetch.Rejected? ==> r.error == fetch.error
    // the fetched token lands in the header
    ensures !HasToken(c) && fetch.Resolved? ==>
      r.Resolved? && TokenHeader in r.value.headers && r.value.headers[TokenHeader] == fetch.value
    // nothing else in the configuration changes
    ensures r.Resolved? ==>
      r.value.verb == c.verb && r.value.url == c.url && r.value.data == c.data &&
      r.value.headers.Keys == c.headers.Keys + {TokenHeader} &&
      forall k | k in c.headers && k != TokenHeader :: r.value.headers[k] == c.headers[k]
  {
    if HasToken(c) then Resolved(c)
    else
      match fetch
      case Resolved(token) => Resolved(c.(headers := c.headers[TokenHeader := token]))
      case Rejected(e) => Rejected(e)
  }

  /** The response interceptor: logs, then passes the outcome on. */
  function InterceptResponse<D>(o: Outcome<Response<D>>): Outcome<Response<D>> {
    match o
    case Resolved(resp) => Resolved(resp)
    case Rejected(e) => Rejected(e)
  }

  /** One request through the client: what left the client, if anything,
      and the outcome the caller sees. */
  datatype Exchange<D> = Exchange(sent: Option<RequestConfig>, outcome: Outcome<Response<D>>)

  function Send<D>(c: RequestConfig, fetch: Outcome<string>, server: RequestConfig -> Outcome<Response<D>>): (r: Exchange<D>)
    // a failed token fetch stops the request before it is sent
    ensures r.sent.None? <==> (!HasToken(c) && fetch.Rejected?)
    ensures r.sent.None? ==> r.outcome == Rejected(fetch.error)
    // a sent request carries a token slot, and the caller sees exactly
    // what the server answered
    ensures r.sent.Some? ==> TokenHeader in r.sent.value.headers && r.outcome == server(r.sent.value)
    ensures r.sent.Some? && HasToken(c) ==> r.sent.value == c
  {
    match InterceptRequest(c, fetch)
    case Rejected(e) => Exchange(None, Rejected(e))
    case Resolved(out) => Exchange(Some(out), InterceptResponse(server(out)))
  }

  /** Every request, whatever its verb, leaves with a non-empty token when
      the token it fetched is non-empty. */
  lemma EveryVerbCarriesToken<D>(c: RequestConfig, token: string, server: RequestConfig -> Outcome<Response<D>>)
    requires token != ""
    ensures Send(c, Resolved(token), server).sent.Some?
    ensures HasToken(Send(c, Resolved(token), server).sent.value)
  {
    var r := InterceptRequest(c, Resolved(token));
    assert r.Resolved?;
    if !HasToken(c) {
      assert r.value.headers[TokenHeader] == token;
    }
  }

  // ---------------------------------------------------------------------
  // Requests in sequence: one fetch per request lacking a token

  /** How many of the requests lack a token. */
  function Lacking(cs: seq<RequestConfig>): (n: nat)
    ensures n <= |cs|
  {
    if cs == [] then 0
    else (if HasToken(cs[0]) then 0 else 1) + Lacking(cs[1..])
  }

  lemma {:induction false} LackingAppend(a: seq<RequestConfig>, b: seq<RequestConfig>)
    ensures Lacking(a + b) == Lacking(a) + Lacking(b)
  {
    if a == [] {
      assert a + b == b;
    } else {
      assert (a + b)[1..] == a[1..] + b;
      LackingAppend(a[1..], b);
    }
  }

  /** Sends the requests one after another. `first` numbers the next token
      fetch; the result also carries the number after the last fetch made. */
  function SendAll<D>(
    cs: seq<RequestConfig>,
    fetch: nat -> Outcome<string>,
    first: nat,
    server: RequestConfig -> Outcome<Response<D>>): (r: (seq<Exchange<D>>, nat))
    // exactly one fetch per request lacking a token
    ensures r.1 == first + Lacking(cs)
    ensures |r.0| == |cs|
  {
    if cs == [] then ([], first)
    else
      var next := if HasToken(cs[0]) then first else first + 1;
      var rest := SendAll(cs[1..], fetch, next, server);
      ([Send(cs[0], fetch(first), server)] + rest.0, rest.1)
  }

  /** Request i is served by the fetch numbered after the requests before
      it that lacked a token: tokens are fetched afresh, never cached. */
  lemma {:induction false} SendAllFetchesAfresh<D>(
    cs: seq<RequestConfig>,
    fetch: nat -> Outcome<string>,
    first: nat,
    server: RequestConfig -> Outcome<Response<D>>,
    i: nat)
    requires i < |cs|
    ensures SendAll(cs, fetch, first, server).0[i] == Send(cs[i], fetch(first + Lacking(cs[..i])), server)
  {
    if i > 0 {
      var next := if HasToken(cs[0]) then first else first + 1;
      SendAllFetchesAfresh(cs[1..], fetch, next, server, i - 1);
      assert cs[..i][1..] == cs[1..][..i - 1];
      assert Lacking(cs[..i]) == (if HasToken(cs[0]) then 0 else 1) + Lacking(cs[1..][..i - 1]);
    } else {
      assert cs[..0] == [];
    }
  }

  /** No token is reused: two different requests lacking a token are served
      by two different fetches. */
  lemma {:induction false} FetchesNotShared(cs: seq<RequestConfig>, i: nat, j: nat)
    requires i < j < |cs|
    requires !HasToken(cs[i]) && !HasToken(cs[j])
    ensures Lacking(cs[..i]) < Lacking(cs[..j])
  {
    assert cs[..j] == cs[..i] + cs[i..j];
    LackingAppend(cs[..i], cs[i..j]);
    assert cs[i..j][0] == cs[i];
  }

  // ---------------------------------------------------------------------
  // Account calls: each returns the reply's body

  function Body<D>(o: Outcome<Response<D>>): (r: Outcome<D>)
    ensures r.Resolved? <==> o.Resolved?
    ensures r.Resolved? ==> r.value == o.value.data
    ensures r.Rejected? ==> r.error == o.error
  {
    match o
    case Resolved(resp) => Resolved(resp.data)
    case Rejected(e) => Rejected(e)
  }

  const BaseUrl := "http://localhost/api/"

  function LoginRequest(email: string, password: string): RequestConfig {
    RequestConfig("POST", BaseUrl + "auth/login/", map[], Some(map["email" := email, "password" := password]))
  }

  function LogoutRequest(): RequestConfig {
    RequestConfig("POST", BaseUrl + "auth/logout/", map[], None)
  }

  function CurrentUserRequest(): RequestConfig {
    RequestConfig("GET", BaseUrl + "auth/users/me/", map[], None)
  }

  /** `login`: POST the credentials, answer with the reply's body. */
  function Login<D>(email: string, password: string, fetch: Outcome<string>, server: RequestConfig -> Outcome<Response<D>>): (r: Outcome<D>)
    ensures fetch.Rejected? ==> r == Rejected(fetch.error)
    ensures fetch.Resolved? ==>
      var sent := LoginRequest(email, password).(headers := map[TokenHeader := fetch.value]);
      r == Body(server(sent)) && sent.data == Some(map["email" := email, "password" := password])
  {
    Body(Send(LoginRequest(email, password), fetch, server).outcome)
  }

  /** `logout`: POST with no body, answer with the reply's body. */
  function Logout<D>(fetch: Outcome<string>, server: RequestConfig -> Outcome<Response<D>>): (r: Outcome<D>)
    ensures fetch.Rejected? ==> r == Rejected(fetch.error)
    ensures fetch.Resolved? ==>
      r == Body(server(LogoutRequest().(headers := map[TokenHeader := fetch.value])))
  {
    Body(Send(LogoutRequest(), fetch, server).outcome)
  }

  /** `fetchCurrentUser`: a GET, which also fetches a token first. */
  function FetchCurrentUser<D>(fetch: Outcome<string>, server: RequestConfig -> Outcome<Response<D>>): (r: Outcome<D>)
    ensures fetch.Rejected? ==> r == Rejected(fetch.error)
    ensures fetch.Resolved? ==>
      r == Body(server(CurrentUserRequest().(headers := map[TokenHeader := fetch.value])))
  {
    Body(Send(CurrentUserRequest(), fetch, server).outcome)
  }
}
