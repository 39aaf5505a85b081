/**
 * The desktop client's connection state: the host-keyed cookie jar, the
 * authentication token that `login` stores and `logout` drops, the rule for
 * the Authorization header, and the query of the "all bookings" request.
 * The HTTP exchange itself is an input: each operation receives what the
 * server replied, or that no reply arrived.
 */
module ApiService {
  import opened Wrappers
  import opened Text
  import DesktopModels

  datatype Cookie = Cookie(name: string, value: string)

  datatype QueryParam = QueryParam(name: string, value: string)

  datatype HttpUrl = HttpUrl(host: string, path: string, query: seq<QueryParam>)

  datatype Header = Header(name: string, value: string)

  datatype Request = Request(verb: string, url: HttpUrl, headers: seq<Header>)

  /** The host and path prefix of every request. */
  const ApiHost := "courtbook-rest.azurewebsites.net"
  const ApiPath := "/api"

  /** What `loadForRequest` answers for `host` given the jar's map. */
  function StoredCookies(store: map<string, seq<Cookie>>, host: string): seq<Cookie> {
    if host in store then store[host] else []
  }

  /**
   * Saving under a host replaces that host's list (the last save wins, lists
   * are not merged), and leaves what every other host loads untouched.
   */
  lemma SaveReplacesForHost(store: map<string, seq<Cookie>>, host: string, earlier: seq<Cookie>, cookies: seq<Cookie>)
    ensures StoredCookies(store[host := cookies], host) == cookies
    ensures forall other :: other != host ==>
              StoredCookies(store[host := cookies], other) == StoredCookies(store, other)
    ensures store[host := earlier][host := cookies] == store[host := cookies]
  {
  }

  /** A host nothing was saved for loads an empty list. */
  lemma NothingStoredLoadsEmpty(host: string)
    ensures StoredCookies(map[], host) == []
  {
  }

  class SimpleCookieJar {
    var cookieStore: map<string, seq<Cookie>>

    constructor ()
      ensures cookieStore == map[]
    {
      cookieStore := map[];
    }

    method SaveFromResponse(url: HttpUrl, cookies: seq<Cookie>)
      modifies this
      ensures cookieStore == old(cookieStore)[url.host := cookies]
    {
      cookieStore := cookieStore[url.host := cookies];
    }

    method LoadForRequest(url: HttpUrl) returns (cookies: seq<Cookie>)
      ensures cookies == StoredCookies(cookieStore, url.host)
      ensures url.host !in cookieStore ==> cookies == []
    {
      if url.host in cookieStore {
        cookies := cookieStore[url.host];
      } else {
        cookies := [];
      }
    }
  }

  /**
   * The headers `createAuthenticatedRequestBuilder` starts a request with:
   * "Authorization: Bearer <token>" when a non-empty token is held, none otherwise.
   */
  function AuthHeaders(authToken: Option<string>): (headers: seq<Header>)
    ensures |headers| <= 1
    ensures headers != [] <==> authToken.Some? && authToken.value != ""
    ensures headers != [] ==> headers[0] == Header("Authorization", "Bearer " + authToken.value)
  {
    if authToken.Some? && authToken.value != "" then [Header("Authorization", "Bearer " + authToken.value)]
    else []
  }

  /** The user object of a login reply; `refreshToken` is its optional "refresh_token" field. */
  datatype UserPayload = UserPayload(id: DesktopModels.int32, name: Option<string>, email: Option<string>,
                                     role: Option<string>, refreshToken: Option<string>)

  /** A decoded reply body: an optional "message", and "data" absent or present with or without "user". */
  datatype ReplyBody = ReplyBody(message: Option<string>, data: Option<Option<UserPayload>>)

  /** What the login call gave back: no reply (an I/O failure), or a status code and body. */
  datatype LoginReply = NoReply | Reply(code: int, body: ReplyBody)

  /** The two ways a call fails: an I/O error, or an `ApiException` with its message and status code. */
  datatype ApiError = IoError | ApiException(message: string, statusCode: int)

  /** OkHttp's `isSuccessful`: a 2xx status code. */
  predicate IsSuccessful(code: int) {
    200 <= code < 300
  }

  /** A login reply that carries a user. */
  predicate CarriesUser(reply: LoginReply) {
    reply.Reply? && IsSuccessful(reply.code) && reply.body.data.Some? && reply.body.data.value.Some?
  }

  /** The error `login` reports for a reply, if any. */
  function LoginError(reply: LoginReply): (e: Option<ApiError>)
    ensures e.None? <==> CarriesUser(reply)
  {
    match reply
    case NoReply => Some(IoError)
    case Reply(code, body) =>
      if !IsSuccessful(code) then Some(ApiException(body.message.GetOr("Login failed"), code))
      else if body.data.Some? && body.data.value.Some? then None
      else Some(ApiException("Invalid response format", 500))
  }

  /** The token after a login: replaced only by a successful reply whose user carries a refresh token. */
  function TokenAfterLogin(authToken: Option<string>, reply: LoginReply): (t: Option<string>)
    ensures t != authToken ==> CarriesUser(reply) && t.Some? && reply.body.data.value.value.refreshToken == t
    ensures CarriesUser(reply) && reply.body.data.value.value.refreshToken.Some? ==>
              t == reply.body.data.value.value.refreshToken
  {
    if CarriesUser(reply) && reply.body.data.value.value.refreshToken.Some? then
      reply.body.data.value.value.refreshToken
    else authToken
  }

  /**
   * A failed login never changes the token, nor does a successful one whose
   * user has no refresh token; a login with a refresh token makes the next
   * request carry it.
   */
  lemma LoginTokenEffect(authToken: Option<string>, reply: LoginReply)
    ensures LoginError(reply).Some? ==> TokenAfterLogin(authToken, reply) == authToken
    ensures CarriesUser(reply) && reply.body.data.value.value.refreshToken.None? ==>
              TokenAfterLogin(authToken, reply) == authToken
    ensures CarriesUser(reply) && reply.body.data.value.value.refreshToken == Some("") ==>
              AuthHeaders(TokenAfterLogin(authToken, reply)) == []
    ensures CarriesUser(reply) && reply.body.data.value.value.refreshToken.Some? ==>
              AuthHeaders(TokenAfterLogin(authToken, reply)) == AuthHeaders(reply.body.data.value.value.refreshToken)
  {
  }

  /** The value of the first query parameter called `name`, if any. */
  function Param(query: seq<QueryParam>, name: string): Option<string> {
    if query == [] then None
    else if query[0].name == name then Some(query[0].value)
    else Param(query[1..], name)
  }

  class ApiService {
    /** The token sent as "Authorization: Bearer <token>"; None is Java's null. */
    var authToken: Option<string>
    const jar: SimpleCookieJar

    constructor ()
      ensures authToken == None && fresh(jar) && jar.cookieStore == map[]
    {
      authToken := None;
      jar := new SimpleCookieJar();
    }

    /** `createAuthenticatedRequestBuilder`, as the headers it adds. */
    method CreateAuthenticatedRequestBuilder() returns (headers: seq<Header>)
      ensures headers == AuthHeaders(authToken)
      ensures headers != [] <==> authToken.Some? && authToken.value != ""
    {
      headers := [];
      if authToken.Some? && authToken.value != "" {
        headers := headers + [Header("Authorization", "Bearer " + authToken.value)];
      }
    }

    /**
     * `login` with the server's reply given as `reply`: a non-2xx reply fails
     * with its message (or "Login failed") and status code; a reply with a
     * user yields that user and stores its refresh token if it has one; any
     * other 2xx reply fails with "Invalid response format" and 500.
     */
    method Login(reply: LoginReply) returns (r: Result<DesktopModels.User, ApiError>)
      modifies this
      ensures authToken == TokenAfterLogin(old(authToken), reply)
      ensures r.Failure? <==> LoginError(reply).Some?
      ensures r.Failure? ==> r.error == LoginError(reply).value && authToken == old(authToken)
      ensures r.Success? ==>
                var payload := reply.body.data.value.value;
                fresh(r.value) && r.value.id == payload.id && r.value.name == payload.name
                && r.value.email == payload.email && r.value.role == payload.role
    {
      if reply.NoReply? {
        return Failure(IoError);
      }
      if !IsSuccessful(reply.code) {
        return Failure(ApiException(reply.body.message.GetOr("Login failed"), reply.code));
      }
      if reply.body.data.Some? && reply.body.data.value.Some? {
        var payload := reply.body.data.value.value;
        var user := new DesktopModels.User(payload.id, payload.name, payload.email, payload.role);
        if payload.refreshToken.Some? {
          authToken := payload.refreshToken;
        }
        return Success(user);
      }
      return Failure(ApiException("Invalid response format", 500));
    }

    /**
     * `logout`, with `replied` saying whether the call returned a response:
     * any response, successful or not, clears the token; when no response
     * arrives the I/O error propagates before the token is cleared.
     */
    method Logout(replied: bool) returns (r: Option<ApiError>)
      modifies this
      ensures replied ==> authToken == None && r == None
      ensures !replied ==> authToken == old(authToken) && r == Some(IoError)
    {
      if !replied {
        return Some(IoError);
      }
      authToken := None;
      r := None;
    }

    /**
     * The request `getAllBookings` sends: GET /api/courts/bookings with a
     * courtId parameter exactly when a court id is given and a status
     * parameter exactly when a status other than "ALL" is given, and the
     * authentication headers.
     */
    method GetAllBookingsRequest(courtId: Option<DesktopModels.int32>, status: Option<string>)
      returns (request: Request)
      ensures request.verb == "GET" && request.url.host == ApiHost
      ensures request.url.path == ApiPath + "/courts/bookings"
      ensures |request.url.query|
              == (if courtId.Some? then 1 else 0) + (if status.Some? && status.value != "ALL" then 1 else 0)
      ensures Param(request.url.query, "courtId") ==
                (if courtId.Some? then Some(IntToString(courtId.value as int)) else None)
      ensures Param(request.url.query, "status") ==
                (if status.Some? && status.value != "ALL" then status else None)
      ensures forall i :: 0 <= i < |request.url.query| ==>
                request.url.query[i].name == "courtId" || request.url.query[i].name == "status"
      ensures request.headers == AuthHeaders(authToken)
    {
      var query: seq<QueryParam> := [];
      if courtId.Some? {
        query := query + [QueryParam("courtId", IntToString(courtId.value as int))];
      }
      if status.Some? && status.value != "ALL" {
        query := query + [QueryParam("status", status.value)];
      }
      var headers := CreateAuthenticatedRequestBuilder();
      request := Request("GET", HttpUrl(ApiHost, ApiPath + "/courts/bookings", query), headers);
    }
  }
}
