/** The session provider (`AuthProvider`) as a transition system. A session
    is the in-memory `token`, `user` and `isLoading` together with the device
    store; restore, login, register, logout and `resetAuth` are steps driven
    by the gateway's replies and the store's fault oracle. */
module AuthContext {
  import opened Wrappers
  import opened Storage
  import Api

  datatype Session = Session(store: Store, token: Option<string>, user: Option<Api.User>, isLoading: bool)

  /** A restore step, with the profile request it sent, if any. */
  datatype Restored = Restored(session: Session, profileRequest: Option<Api.Request>)

  /** A login or register step and the boolean it resolves to. */
  datatype Attempt = Attempt(session: Session, sent: Api.Request, success: bool)

  /** A logout step and the remote call it made, if any. */
  datatype LoggedOut = LoggedOut(session: Session, sent: Option<Api.Request>)

  /** The provider's first render: nothing in memory, loading. */
  function Initial(store: Store): (s: Session)
    ensures s.token.None? && !IsAuthenticated(s) && s.user.None? && s.isLoading
  {
    Session(store, None, None, true)
  }

  /** `isAuthenticated` is `!!token`: a missing token and the empty string
      are the falsy ones, and the user plays no part. */
  function IsAuthenticated(s: Session): (b: bool)
    ensures b <==> s.token != None && s.token != Some("")
  {
    Api.Truthy(s.token)
  }

  /** Whether a user is known, or a load is under way, never changes the
      authentication flag. */
  lemma AuthenticationIgnoresUser(s: Session, user: Option<Api.User>, loading: bool)
    ensures IsAuthenticated(s.(user := user, isLoading := loading)) == IsAuthenticated(s)
  {
  }

  /** The two credential keys are gone from the store. */
  predicate Cleared(items: map<string, string>) {
    AuthTokenKey !in items && UserKey !in items
  }

  /** `JSON.stringify(user)`; undefined for an absent user. */
  function UserJson(u: Option<Api.User>): (r: Option<string>)
    ensures r.Some? <==> u.Some?
    ensures r.Some? ==> |r.value| > 0
  {
    match u
    case None => None
    case Some(v) =>
      Some("{\"id\":\"" + v.id + "\",\"email\":\"" + v.email + "\",\"name\":\"" + v.name + "\"}")
  }

  /** `resetAuth`: remove both keys, then forget token and user. A throwing
      removal is caught: what was already removed stays removed and memory is
      left as it was. */
  function ResetAuth(s: Session): (r: Session)
    ensures r.isLoading == s.isLoading
    ensures r.store.failing == s.store.failing && s.store.calls < r.store.calls <= s.store.calls + 2
    ensures s.store.calls !in s.store.failing && s.store.calls + 1 !in s.store.failing ==>
              r.store.items == s.store.items - {AuthTokenKey, UserKey} && r.token.None? && r.user.None?
    ensures s.store.calls in s.store.failing ==> r.store.items == s.store.items && r.token == s.token && r.user == s.user
    ensures s.store.calls !in s.store.failing && s.store.calls + 1 in s.store.failing ==>
              r.store.items == s.store.items - {AuthTokenKey} && r.token == s.token && r.user == s.user
    ensures r.store.items == s.store.items || r.store.items == s.store.items - {AuthTokenKey}
              || r.store.items == s.store.items - {AuthTokenKey, UserKey}
  {
    var w1 := RemoveItem(s.store, AuthTokenKey);
    if !w1.ok then s.(store := w1.store)
    else
      var w2 := RemoveItem(w1.store, UserKey);
      if !w2.ok then s.(store := w2.store)
      else s.(store := w2.store, token := None, user := None)
  }

  /** Resetting an already cleared session changes nothing but the call
      count, whatever the store's faults. */
  lemma ResetAuthIdempotent(s: Session)
    requires Cleared(s.store.items) && s.token.None? && s.user.None?
    ensures ResetAuth(s).store.items == s.store.items
    ensures ResetAuth(s).token.None? && ResetAuth(s).user.None?
    ensures ResetAuth(s).isLoading == s.isLoading
  {
    assert s.store.items - {AuthTokenKey} == s.store.items;
    assert s.store.items - {AuthTokenKey, UserKey} == s.store.items;
  }

  /** The stored credential the restore step sees, when both reads succeed. */
  function StoredPair(st: Store): (Option<string>, Option<string>) {
    (Stored(st, AuthTokenKey), Stored(st, UserKey))
  }

  /** Both stored values are present and non-empty. */
  predicate HasStoredCredential(st: Store) {
    Api.Truthy(StoredPair(st).0) && Api.Truthy(StoredPair(st).1)
  }

  /** `loadStoredAuth`: read both keys; only when both are present is the
      profile fetched, and then the stored token and the profile's user are
      adopted. Every failure, of a read or of the profile call, ends in
      `resetAuth`; loading ends on every path. */
  function Restore(s: Session, reply: Api.Transport): (r: Restored)
    ensures !r.session.isLoading
    // the server is contacted only when both reads succeed and find both values
    ensures r.profileRequest.Some? ==>
              s.store.calls !in s.store.failing && s.store.calls + 1 !in s.store.failing && HasStoredCredential(s.store)
    ensures (s.store.calls !in s.store.failing && s.store.calls + 1 !in s.store.failing && s.store.calls + 2 !in s.store.failing
              && HasStoredCredential(s.store)) ==> r.profileRequest.Some?
    ensures r.profileRequest.Some? ==> r.profileRequest.value.url == Api.ApiBaseUrl + Api.ProfilePath
    // without a stored credential: store untouched, memory unchanged
    ensures (s.store.calls !in s.store.failing && s.store.calls + 1 !in s.store.failing && !HasStoredCredential(s.store)) ==>
              r.session.store.items == s.store.items && r.session.token == s.token && r.session.user == s.user
    // a 2xx profile reply adopts the stored token and the profile's user
    ensures (Reliable(s.store) && HasStoredCredential(s.store) && reply.Reply? && Api.IsOk(reply.status) && reply.body.Some?) ==>
              r.session.token == StoredPair(s.store).0 && r.session.user == reply.body.value.user
              && r.session.store.items == s.store.items && IsAuthenticated(r.session)
    // any other profile outcome wipes the credential everywhere
    ensures (Reliable(s.store) && HasStoredCredential(s.store) && !(reply.Reply? && Api.IsOk(reply.status) && reply.body.Some?)) ==>
              Cleared(r.session.store.items) && r.session.token.None? && r.session.user.None?
  {
    var rt := GetItem(s.store, AuthTokenKey);
    if rt.result.Err? then Restored(ResetAuth(s.(store := rt.store)).(isLoading := false), None)
    else
      var ru := GetItem(rt.store, UserKey);
      if ru.result.Err? then Restored(ResetAuth(s.(store := ru.store)).(isLoading := false), None)
      else if Api.Truthy(rt.result.value) && Api.Truthy(ru.result.value) then
        var ex := Api.GetProfile(ru.store, reply);
        if ex.result.Ok? then
          Restored(s.(store := ex.store, token := rt.result.value, user := ex.result.value.user, isLoading := false), ex.sent)
        else Restored(ResetAuth(s.(store := ex.store)).(isLoading := false), ex.sent)
      else Restored(s.(store := ru.store, isLoading := false), None)
  }

  /** From the first render, a store without both values leaves the session
      unauthenticated. */
  lemma RestoreFromInitial(store: Store, reply: Api.Transport)
    requires store.calls !in store.failing && store.calls + 1 !in store.failing
    requires !HasStoredCredential(store)
    ensures Restore(Initial(store), reply).profileRequest.None?
    ensures !IsAuthenticated(Restore(Initial(store), reply).session)
    ensures Restore(Initial(store), reply).session.user.None?
  {
  }

  /** A throwing read of either key also ends in a full reset. */
  lemma RestoreReadFailureResets(s: Session, reply: Api.Transport, failed: nat)
    requires failed == s.store.calls || failed == s.store.calls + 1
    requires s.store.failing == {failed}
    ensures Restore(s, reply).profileRequest.None?
    ensures Cleared(Restore(s, reply).session.store.items)
    ensures Restore(s, reply).session.token.None? && Restore(s, reply).session.user.None?
  {
  }

  /** Restoring twice against the same server reply ends where restoring
      once ended. */
  lemma {:induction false} RestoreIdempotent(s: Session, reply: Api.Transport)
    requires Reliable(s.store)
    ensures var once := Restore(s, reply).session;
            var twice := Restore(once, reply).session;
            twice.token == once.token && twice.user == once.user && twice.store.items == once.store.items
            && twice.isLoading == once.isLoading
  {
    var once := Restore(s, reply).session;
    assert Reliable(once.store);
  }

  /** The tail shared by `login` and `register`: store `authToken`, then the
      encoded `user`; only when both writes succeed are token and user set and
      true returned. Loading is on during the call and off afterwards. */
  function Authenticate(s: Session, call: Api.AuthCall): (r: Attempt)
    ensures r.sent == call.sent && !r.session.isLoading
    ensures r.success ==> call.result.Ok? && call.result.value.token.Some? && call.result.value.user.Some?
    ensures r.success ==>
              r.session.token == call.result.value.token && r.session.user == call.result.value.user
              && r.session.store.items ==
                   s.store.items[AuthTokenKey := call.result.value.token.value][UserKey := UserJson(call.result.value.user).value]
    ensures !r.success ==> r.session.token == s.token && r.session.user == s.user
    ensures call.result.Err? ==> !r.success && r.session.store == s.store
    ensures call.result.Ok? && call.result.value.token.Some? && call.result.value.user.Some? && Reliable(s.store) ==> r.success
  {
    if call.result.Err? then Attempt(s.(isLoading := false), call.sent, false)
    else
      var body := call.result.value;
      var w1 := SetItem(s.store, AuthTokenKey, body.token);
      if !w1.ok then Attempt(s.(store := w1.store, isLoading := false), call.sent, false)
      else
        var w2 := SetItem(w1.store, UserKey, UserJson(body.user));
        if !w2.ok then Attempt(s.(store := w2.store, isLoading := false), call.sent, false)
        else Attempt(Session(w2.store, body.token, body.user, false), call.sent, true)
  }

  /** `login(email, password)`. */
  function Login(s: Session, email: string, password: string, reply: Api.Transport): (r: Attempt)
    ensures !r.session.isLoading
    ensures Api.Authorization !in r.sent.headers
    ensures r.success ==> reply.Reply? && Api.IsOk(reply.status)
    ensures !r.success ==> r.session.token == s.token && r.session.user == s.user
  {
    Authenticate(s.(isLoading := true), Api.Login(email, password, reply))
  }

  /** `register(email, password, name)`. */
  function Register(s: Session, email: string, password: string, name: string, reply: Api.Transport): (r: Attempt)
    ensures !r.session.isLoading
    ensures Api.Authorization !in r.sent.headers
    ensures r.success ==> reply.Reply? && Api.IsOk(reply.status)
    ensures !r.success ==> r.session.token == s.token && r.session.user == s.user
  {
    Authenticate(s.(isLoading := true), Api.Register(email, password, name, reply))
  }

  /** A successful login replaces any stored credential by the new one, in
      the store and in memory: no trace of the previous user remains. */
  lemma LoginOverwrites(s: Session, email: string, password: string, tok: string, u: Api.User, msg: Option<string>, status: int)
    requires Reliable(s.store) && Api.IsOk(status)
    ensures var r := Login(s, email, password, Api.Reply(status, Some(Api.Body(msg, Some(tok), Some(u)))));
            r.success && r.session.token == Some(tok) && r.session.user == Some(u)
            && r.session.store.items[AuthTokenKey] == tok && r.session.store.items[UserKey] == UserJson(Some(u)).value
            && (tok != "" ==> IsAuthenticated(r.session))
  {
  }

  /** A store fault on the second write leaves the new token stored next to
      the previous user's record while memory keeps the old session: the two
      keys are not written atomically. */
  lemma LoginHalfWritten(s: Session, email: string, password: string, tok: string, u: Api.User, status: int)
    requires Api.IsOk(status)
    requires s.store.failing == {s.store.calls + 1}
    requires UserKey in s.store.items
    ensures var r := Login(s, email, password, Api.Reply(status, Some(Api.Body(None, Some(tok), Some(u)))));
            !r.success && r.session.store.items[AuthTokenKey] == tok
            && r.session.store.items[UserKey] == s.store.items[UserKey]
            && r.session.token == s.token
  {
  }

  /** `logout`: the remote call's fate is ignored and `resetAuth` always
      follows. */
  function Logout(s: Session, reply: Api.Transport): (r: LoggedOut)
    ensures r.session.isLoading == s.isLoading
    ensures Reliable(s.store) ==>
              Cleared(r.session.store.items) && r.session.token.None? && r.session.user.None?
              && r.session.store.items == s.store.items - {AuthTokenKey, UserKey}
    ensures r.sent.Some? ==> r.sent.value.url == Api.ApiBaseUrl + Api.LogoutPath
  {
    var call := Api.Logout(s.store, reply);
    LoggedOut(ResetAuth(s.(store := call.store)), call.sent)
  }

  /** The server's answer to logout, or its absence, makes no difference to
      the session that results. */
  lemma LogoutIgnoresReply(s: Session, a: Api.Transport, b: Api.Transport)
    ensures Logout(s, a).session == Logout(s, b).session
  {
  }

  /** Log in, then log out: neither key survives and memory is empty. */
  lemma LoginThenLogout(s: Session, email: string, password: string, loginReply: Api.Transport, logoutReply: Api.Transport)
    requires Reliable(s.store)
    ensures var mid := Login(s, email, password, loginReply).session;
            var end := Logout(mid, logoutReply).session;
            Cleared(end.store.items) && end.token.None? && end.user.None? && !IsAuthenticated(end)
  {
    var att := Login(s, email, password, loginReply);
    assert Reliable(att.session.store);
  }
}
