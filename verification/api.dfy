/** The client's HTTP gateway (`ApiService`): builds headers from the stored
    token, sends requests to one hard-coded base URL and turns the reply into a
    decoded body or a thrown error. The network is an oracle: each call is
    given the reply `fetch` would produce. */
module Api {
  import opened Wrappers
  import opened Storage

  /** The only base URL the gateway ever uses; the reachability helper of the
      network configuration is never consulted. */
  const ApiBaseUrl: string := "http://192.168.1.7:5000"
  const ProfilePath: string := "/api/profile"
  const LoginPath: string := "/auth/login"
  const RegisterPath: string := "/auth/register"
  const LogoutPath: string := "/auth/logout"

  const ContentType: string := "Content-Type"
  const Authorization: string := "Authorization"
  const Json: string := "application/json"

  /** Error messages the gateway throws. */
  const AuthenticationRequired: string := "Authentication required"
  const RequestFailed: string := "Request failed"
  const LoginFailed: string := "Login failed"
  const RegistrationFailed: string := "Registration failed"
  const NetworkFailure: string := "Network request failed"
  const ParseFailure: string := "JSON Parse error"
  const StorageFailure: string := "AsyncStorage failure"

  datatype User = User(id: string, email: string, name: string)

  /** A decoded JSON reply body, reduced to the fields the client reads. */
  datatype Body = Body(message: Option<string>, token: Option<string>, user: Option<User>)

  /** What `fetch` yields: it throws (no response), or a status with a body
      that is None when `response.json()` throws. */
  datatype Transport = NoResponse | Reply(status: int, body: Option<Body>)

  datatype Request = Request(verb: string, url: string, headers: map<string, string>, payload: map<string, string>)

  /** One protected call: the store afterwards, the request if one was sent,
      and the decoded body or the thrown message. */
  datatype Exchange = Exchange(store: Store, sent: Option<Request>, result: Result<Body>)

  /** A login or register call: it never touches the store. */
  datatype AuthCall = AuthCall(sent: Request, result: Result<Body>)

  /** The logout call: it cannot fail. */
  datatype LogoutCall = LogoutCall(store: Store, sent: Option<Request>)

  /** `response.ok`. */
  predicate IsOk(status: int) {
    200 <= status <= 299
  }

  /** JavaScript truthiness of an optional string. */
  predicate Truthy(s: Option<string>) {
    s.Some? && s.value != ""
  }

  /** How a protected call's status is handled. */
  datatype Verdict = Decode | Unauthorized | Failed

  /** Only 401 is an authentication failure; 403 and every other non-2xx
      status is a plain failure. */
  function Classify(status: int): (v: Verdict)
    ensures v == Unauthorized <==> status == 401
    ensures v == Decode <==> IsOk(status)
    ensures v == Failed <==> status != 401 && !IsOk(status)
  {
    if status == 401 then Unauthorized
    else if !IsOk(status) then Failed
    else Decode
  }

  /** The headers for a stored token. */
  function HeadersFor(token: Option<string>): (h: map<string, string>)
    ensures ContentType in h && h[ContentType] == Json
    ensures Authorization in h <==> Truthy(token)
    ensures Authorization in h ==> h[Authorization] == "Bearer " + token.value
    ensures h.Keys <= {ContentType, Authorization}
  {
    var base := map[ContentType := Json];
    if Truthy(token) then base[Authorization := "Bearer " + token.value] else base
  }

  /** `getAuthHeaders`: reads the token afresh on every call. */
  function GetAuthHeaders(st: Store): (r: (Store, Result<map<string, string>>))
    ensures r.0 == Tick(st)
    ensures r.1.Ok? <==> st.calls !in st.failing
    ensures r.1.Ok? ==> r.1.value == StoredHeaders(st)
  {
    var rd := GetItem(st, AuthTokenKey);
    if rd.result.Err? then (rd.store, Err(StorageFailure))
    else (rd.store, Ok(HeadersFor(rd.result.value)))
  }

  /** The header a store's current token produces. */
  function StoredHeaders(st: Store): map<string, string> {
    HeadersFor(Stored(st, AuthTokenKey))
  }

  /** `getProtectedData` (GET) and `postProtectedData` (POST). */
  function Protected(st: Store, verb: string, endpoint: string, payload: map<string, string>, reply: Transport): (r: Exchange)
    // the request goes to the fixed base URL, carrying the header built from the token stored now
    ensures r.sent.Some? <==> st.calls !in st.failing
    ensures r.sent.Some? ==> r.sent.value == Request(verb, ApiBaseUrl + endpoint, StoredHeaders(st), payload)
    // 401 clears both keys and throws "Authentication required"
    ensures st.calls !in st.failing && reply.Reply? && reply.status == 401 && Reliable(st) ==>
              r.store.items == st.items - {AuthTokenKey, UserKey} && r.result == Err(AuthenticationRequired)
    // any other non-2xx status throws "Request failed" and leaves storage alone
    ensures st.calls !in st.failing && reply.Reply? && Classify(reply.status) == Failed ==>
              r.store.items == st.items && r.result == Err(RequestFailed)
    // a 2xx reply yields its decoded body, storage untouched
    ensures st.calls !in st.failing && reply.Reply? && IsOk(reply.status) && reply.body.Some? ==>
              r.store.items == st.items && r.result == Ok(reply.body.value)
    // the store changes only on a 401
    ensures r.store.items != st.items ==> reply.Reply? && reply.status == 401
    ensures r.result.Ok? ==> reply.Reply? && IsOk(reply.status)
    ensures r.store.failing == st.failing && r.store.calls >= st.calls
  {
    var (st1, headers) := GetAuthHeaders(st);
    if headers.Err? then Exchange(st1, None, Err(headers.message))
    else
      var req := Request(verb, ApiBaseUrl + endpoint, headers.value, payload);
      match reply
      case NoResponse => Exchange(st1, Some(req), Err(NetworkFailure))
      case Reply(status, body) =>
        match Classify(status)
        case Unauthorized =>
          var w1 := RemoveItem(st1, AuthTokenKey);
          if !w1.ok then Exchange(w1.store, Some(req), Err(StorageFailure))
          else
            var w2 := RemoveItem(w1.store, UserKey);
            if !w2.ok then Exchange(w2.store, Some(req), Err(StorageFailure))
            else Exchange(w2.store, Some(req), Err(AuthenticationRequired))
        case Failed => Exchange(st1, Some(req), Err(RequestFailed))
        case Decode =>
          if body.None? then Exchange(st1, Some(req), Err(ParseFailure))
          else Exchange(st1, Some(req), Ok(body.value))
  }

  /** `getProtectedData(endpoint)`. */
  function GetProtectedData(st: Store, endpoint: string, reply: Transport): (r: Exchange)
    ensures r.sent.Some? ==> r.sent.value.verb == "GET" && r.sent.value.url == ApiBaseUrl + endpoint
  {
    Protected(st, "GET", endpoint, map[], reply)
  }

  /** `postProtectedData(endpoint, data)`. */
  function PostProtectedData(st: Store, endpoint: string, data: map<string, string>, reply: Transport): (r: Exchange)
    ensures r.sent.Some? ==> r.sent.value.verb == "POST" && r.sent.value.url == ApiBaseUrl + endpoint
    ensures r.sent.Some? ==> r.sent.value.payload == data
  {
    Protected(st, "POST", endpoint, data, reply)
  }

  /** `getProfile`: a protected GET of the profile path. */
  function GetProfile(st: Store, reply: Transport): (r: Exchange)
    ensures r.sent.Some? ==> r.sent.value.verb == "GET" && r.sent.value.url == ApiBaseUrl + ProfilePath
    ensures r.result.Ok? ==> reply.Reply? && IsOk(reply.status)
  {
    GetProtectedData(st, ProfilePath, reply)
  }

  /** The shared shape of `login` and `register`: an unauthenticated POST;
      on a non-2xx status the server's `message`, or `fallback` when it has
      none, is thrown. */
  function Credentials(path: string, payload: map<string, string>, fallback: string, reply: Transport): (r: AuthCall)
    ensures r.sent == Request("POST", ApiBaseUrl + path, map[ContentType := Json], payload)
    ensures r.result.Ok? <==> reply.Reply? && IsOk(reply.status) && reply.body.Some?
    ensures r.result.Ok? ==> r.result.value == reply.body.value
    ensures reply.Reply? && !IsOk(reply.status) && reply.body.Some? ==>
              r.result == Err(if Truthy(reply.body.value.message) then reply.body.value.message.value else fallback)
  {
    var req := Request("POST", ApiBaseUrl + path, map[ContentType := Json], payload);
    match reply
    case NoResponse => AuthCall(req, Err(NetworkFailure))
    case Reply(status, body) =>
      if body.None? then AuthCall(req, Err(ParseFailure))
      else if !IsOk(status) then
        var m := body.value.message;
        AuthCall(req, Err(if Truthy(m) then m.value else fallback))
      else AuthCall(req, Ok(body.value))
  }

  /** `login(email, password)`. */
  function Login(email: string, password: string, reply: Transport): (r: AuthCall)
    ensures Authorization !in r.sent.headers
    ensures r.sent.url == ApiBaseUrl + LoginPath
    ensures r.sent.payload == map["email" := email, "password" := password]
    ensures reply.Reply? && !IsOk(reply.status) && reply.body.Some? && !Truthy(reply.body.value.message) ==>
              r.result == Err(LoginFailed)
  {
    Credentials(LoginPath, map["email" := email, "password" := password], LoginFailed, reply)
  }

  /** `register(email, password, name)`. */
  function Register(email: string, password: string, name: string, reply: Transport): (r: AuthCall)
    ensures Authorization !in r.sent.headers
    ensures r.sent.url == ApiBaseUrl + RegisterPath
    ensures r.sent.payload == map["email" := email, "password" := password, "name" := name]
    ensures reply.Reply? && !IsOk(reply.status) && reply.body.Some? && !Truthy(reply.body.value.message) ==>
              r.result == Err(RegistrationFailed)
  {
    Credentials(RegisterPath, map["email" := email, "password" := password, "name" := name], RegistrationFailed, reply)
  }

  /** `logout`: a bearer POST whose outcome, including a throw, is ignored. */
  function Logout(st: Store, reply: Transport): (r: LogoutCall)
    ensures r.store.items == st.items && r.store.failing == st.failing
    ensures r.store.calls == st.calls + 1
    ensures r.sent.Some? <==> st.calls !in st.failing
    ensures r.sent.Some? ==> r.sent.value == Request("POST", ApiBaseUrl + LogoutPath, StoredHeaders(st), map[])
  {
    var (st1, headers) := GetAuthHeaders(st);
    if headers.Err? then LogoutCall(st1, None)
    else LogoutCall(st1, Some(Request("POST", ApiBaseUrl + LogoutPath, headers.value, map[])))
  }
}
