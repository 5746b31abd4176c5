/** The backend's authentication logic: bearer-token extraction and the
    401/403 split of the route guard, the ordered checks of register and
    login, and the owner field the create routes take from the token. Token
    signing and verification, password comparison and the user collection are
    parameters. */
module Server {
  import opened Wrappers
  import Text
  import Api

  /** The payload a signed token carries. */
  datatype Claims = Claims(userId: string, email: string)

  /** A stored user; `password` is whatever the schema stores. */
  datatype Account = Account(id: string, email: string, name: string, password: string, lastLogin: Option<string>)

  /** The public view of an account (`toJSON`). */
  datatype Profile = Profile(id: string, email: string, name: string)

  datatype ReplyBody =
    | Message(message: string)
    | Invalid(message: string, errors: seq<string>)
    | Issued(token: string, user: Profile)

  datatype Reply = Reply(status: int, body: ReplyBody)

  /** A guarded route: rejected by the guard, or the handler's result. */
  datatype Guarded<T> = Rejected(reply: Reply) | Handled(claims: Claims, value: T)

  /** How `save()` ends: stored, a schema ValidationError with its field
      messages, or any other error. */
  datatype SaveOutcome = Saved | Invalidated(errors: seq<string>) | Crashed

  /** The user collection, keyed by e-mail, and the oracle for its calls. */
  datatype Db = Db(users: map<string, Account>, lookupFails: bool, save: SaveOutcome)

  /** A handled request: the reply and the collection afterwards. */
  datatype Outcome = Outcome(reply: Reply, users: map<string, Account>)

  const AccessTokenRequired: string := "Access token required"
  const InvalidToken: string := "Invalid or expired token"
  const AllFieldsRequired: string := "All fields are required"
  const UserExists: string := "User already exists"
  const ValidationError: string := "Validation error"
  const InternalError: string := "Internal server error"
  const CredentialsRequired: string := "Email and password are required"
  const InvalidCredentials: string := "Invalid credentials"

  function ProfileOf(a: Account): Profile {
    Profile(a.id, a.email, a.name)
  }

  /** `authHeader && authHeader.split(' ')[1]`, kept only when truthy. */
  function BearerToken(authHeader: Option<string>): (r: Option<string>)
    ensures r.Some? ==> r.value != "" && ' ' !in r.value
    ensures r.Some? <==> Api.Truthy(authHeader) && |Text.Split(authHeader.value, ' ')| > 1
                         && Text.Split(authHeader.value, ' ')[1] != ""
    ensures r.Some? ==> r.value == Text.Split(authHeader.value, ' ')[1]
  {
    if !Api.Truthy(authHeader) then None
    else
      var parts := Text.Split(authHeader.value, ' ');
      if |parts| > 1 && parts[1] != "" then Some(parts[1]) else None
  }

  /** The header the client builds from a stored token is read back as that
      token, provided the token holds no space. */
  lemma {:induction false} ClientHeaderRoundTrip(token: string)
    requires token != "" && ' ' !in token
    ensures BearerToken(Some(Api.HeadersFor(Some(token))[Api.Authorization])) == Some(token)
  {
    var header := Api.HeadersFor(Some(token))[Api.Authorization];
    assert header == Text.Join(["Bearer", token], ' ');
    Text.SplitJoin(["Bearer", token], ' ');
  }

  /** `authenticateToken` in front of `handler`: no token is a 401, a token
      that fails verification a 403, and only a verified token runs the
      handler, with the decoded payload as `req.user`. */
  function AuthenticateToken<T>(authHeader: Option<string>, verify: string -> Option<Claims>, handler: Claims -> T): (r: Guarded<T>)
    ensures BearerToken(authHeader).None? ==> r == Rejected(Reply(401, Message(AccessTokenRequired)))
    ensures BearerToken(authHeader).Some? && verify(BearerToken(authHeader).value).None? ==>
              r == Rejected(Reply(403, Message(InvalidToken)))
    ensures r.Handled? <==> BearerToken(authHeader).Some? && verify(BearerToken(authHeader).value).Some?
    ensures r.Handled? ==> r.claims == verify(BearerToken(authHeader).value).value && r.value == handler(r.claims)
  {
    match BearerToken(authHeader)
    case None => Rejected(Reply(401, Message(AccessTokenRequired)))
    case Some(token) =>
      match verify(token)
      case None => Rejected(Reply(403, Message(InvalidToken)))
      case Some(claims) => Handled(claims, handler(claims))
  }

  /** `POST /auth/register`: required fields, then the duplicate check, then
      the save; a 201 carries a fresh token and the new user. */
  function Register(email: Option<string>, password: Option<string>, name: Option<string>,
                    db: Db, newId: string, sign: Claims -> string): (r: Outcome)
    ensures !(Api.Truthy(email) && Api.Truthy(password) && Api.Truthy(name)) ==>
              r.reply == Reply(400, Message(AllFieldsRequired))
    ensures Api.Truthy(email) && Api.Truthy(password) && Api.Truthy(name) && !db.lookupFails && email.value in db.users ==>
              r.reply == Reply(400, Message(UserExists))
    ensures r.reply.status == 201 <==>
              Api.Truthy(email) && Api.Truthy(password) && Api.Truthy(name) && !db.lookupFails
              && email.value !in db.users && db.save == Saved
    ensures r.reply.status == 201 ==>
              var a := Account(newId, email.value, name.value, password.value, None);
              r.users == db.users[email.value := a] && r.reply.body == Issued(sign(Claims(newId, email.value)), ProfileOf(a))
    ensures r.reply.status != 201 ==> r.users == db.users
    // a failed lookup, a schema rejection and a crashed save, in that order
    ensures Api.Truthy(email) && Api.Truthy(password) && Api.Truthy(name) && db.lookupFails ==>
              r.reply == Reply(500, Message(InternalError))
    ensures Api.Truthy(email) && Api.Truthy(password) && Api.Truthy(name) && !db.lookupFails
            && email.value !in db.users && db.save.Invalidated? ==>
              r.reply == Reply(400, Invalid(ValidationError, db.save.errors))
    ensures Api.Truthy(email) && Api.Truthy(password) && Api.Truthy(name) && !db.lookupFails
            && email.value !in db.users && db.save == Crashed ==>
              r.reply == Reply(500, Message(InternalError))
    ensures r.reply.body.Invalid? ==> db.save.Invalidated? && r.reply == Reply(400, Invalid(ValidationError, db.save.errors))
    ensures r.reply.status == 500 ==> r.reply.body == Message(InternalError)
  {
    if !(Api.Truthy(email) && Api.Truthy(password) && Api.Truthy(name)) then
      Outcome(Reply(400, Message(AllFieldsRequired)), db.users)
    else if db.lookupFails then Outcome(Reply(500, Message(InternalError)), db.users)
    else if email.value in db.users then Outcome(Reply(400, Message(UserExists)), db.users)
    else
      var a := Account(newId, email.value, name.value, password.value, None);
      match db.save
      case Invalidated(errors) => Outcome(Reply(400, Invalid(ValidationError, errors)), db.users)
      case Crashed => Outcome(Reply(500, Message(InternalError)), db.users)
      case Saved => Outcome(Reply(201, Issued(sign(Claims(a.id, a.email)), ProfileOf(a))), db.users[a.email := a])
  }

  /** `POST /auth/login`: required fields, the lookup, the password check,
      then `lastLogin` is saved before the token is signed. */
  function Login(email: Option<string>, password: Option<string>, db: Db, now: string,
                 matches: (string, string) -> bool, sign: Claims -> string): (r: Outcome)
    ensures !(Api.Truthy(email) && Api.Truthy(password)) ==> r.reply == Reply(400, Message(CredentialsRequired))
    ensures Api.Truthy(email) && Api.Truthy(password) && !db.lookupFails
            && (email.value !in db.users || !matches(db.users[email.value].password, password.value)) ==>
              r.reply == Reply(401, Message(InvalidCredentials))
    ensures r.reply.status == 200 <==>
              Api.Truthy(email) && Api.Truthy(password) && !db.lookupFails && email.value in db.users
              && matches(db.users[email.value].password, password.value) && db.save == Saved
    ensures r.reply.status == 200 ==>
              var a := db.users[email.value].(lastLogin := Some(now));
              r.users == db.users[email.value := a] && r.reply.body == Issued(sign(Claims(a.id, a.email)), ProfileOf(a))
    // a failed lookup, and a failed `lastLogin` save after a good password
    ensures Api.Truthy(email) && Api.Truthy(password) && db.lookupFails ==>
              r.reply == Reply(500, Message(InternalError))
    ensures Api.Truthy(email) && Api.Truthy(password) && !db.lookupFails && email.value in db.users
            && matches(db.users[email.value].password, password.value) && db.save != Saved ==>
              r.reply == Reply(500, Message(InternalError))
    ensures r.reply.status != 200 ==> r.users == db.users
    ensures !r.reply.body.Invalid?
  {
    if !(Api.Truthy(email) && Api.Truthy(password)) then Outcome(Reply(400, Message(CredentialsRequired)), db.users)
    else if db.lookupFails then Outcome(Reply(500, Message(InternalError)), db.users)
    else if email.value !in db.users then Outcome(Reply(401, Message(InvalidCredentials)), db.users)
    else
      var stored := db.users[email.value];
      if !matches(stored.password, password.value) then Outcome(Reply(401, Message(InvalidCredentials)), db.users)
      else
        var a := stored.(lastLogin := Some(now));
        if db.save != Saved then Outcome(Reply(500, Message(InternalError)), db.users)
        else Outcome(Reply(200, Issued(sign(Claims(a.id, a.email)), ProfileOf(a))), db.users[email.value := a])
  }

  /** An unknown e-mail and a wrong password get the same reply, so a caller
      cannot tell which accounts exist. */
  lemma LoginDoesNotRevealAccounts(unknown: string, known: string, password: string, db: Db, now: string,
                                   matches: (string, string) -> bool, sign: Claims -> string)
    requires unknown != "" && known != "" && password != "" && !db.lookupFails
    requires unknown !in db.users && known in db.users && !matches(db.users[known].password, password)
    ensures Login(Some(unknown), Some(password), db, now, matches, sign).reply
         == Login(Some(known), Some(password), db, now, matches, sign).reply
  {
  }

  /** The spread-then-override of the create routes: `field` takes the
      token's user id whatever the body said; every other field is kept. */
  function WithOwner(body: map<string, string>, field: string, claims: Claims): (r: map<string, string>)
    ensures r.Keys == body.Keys + {field}
    ensures field in r && r[field] == claims.userId
    ensures forall k :: k in body && k != field ==> r[k] == body[k]
  {
    body[field := claims.userId]
  }

  /** The document `POST /api/accidents` saves. */
  function AccidentData(body: map<string, string>, claims: Claims): (r: map<string, string>)
    ensures "reportedBy" in r && r["reportedBy"] == claims.userId
    ensures forall k :: k in body && k != "reportedBy" ==> k in r && r[k] == body[k]
  {
    WithOwner(body, "reportedBy", claims)
  }

  /** The document `POST /api/chemicals` saves. */
  function ChemicalData(body: map<string, string>, claims: Claims): (r: map<string, string>)
    ensures "responsiblePerson" in r && r["responsiblePerson"] == claims.userId
    ensures forall k :: k in body && k != "responsiblePerson" ==> k in r && r[k] == body[k]
  {
    WithOwner(body, "responsiblePerson", claims)
  }
}
