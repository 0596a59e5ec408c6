/** Properties that relate several handler calls: registration followed by login,
    the indistinguishable login failures, the shared session of every login path,
    logout against the client's cookie jar, and the store invariant. */
module UserProperties {
  import opened JsValues
  import opened UserStore
  import opened Session
  import opened Http
  import opened UserController

  /** A registration that went through. */
  predicate RegisterSucceeds(s: Store, req: RegisterRequest, h: Hasher, nonce: string)
  {
    Register(s, req, h, nonce).response.status == Created
  }

  /** Registering an address a second time is refused whatever the password, and
      leaves the store as the first registration left it. */
  lemma RegisterTwiceConflicts(s: Store, first: RegisterRequest, second: RegisterRequest,
                                 h: Hasher, n1: string, n2: string)
    requires RegisterSucceeds(s, first, h, n1)
    requires !MissingField(second) && second.email == first.email
    ensures Register(Register(s, first, h, n1).store, second, h, n2).response.status == Conflict
    ensures Register(Register(s, first, h, n1).store, second, h, n2).store == Register(s, first, h, n1).store
  {
  }

  /** As written, logging in with the credentials just registered passes the
      password check (a session cookie for the new id is set) yet answers 500,
      because the new document has no `role` field for `.includes` to read. */
  lemma RegisterThenLoginAsWritten(s: Store, req: RegisterRequest, h: Hasher, nonce: string)
    requires Sound(h)
    requires RegisterSucceeds(s, req, h, nonce)
    ensures var s1 := Register(s, req, h, nonce).store;
            var r := Login(s1, LoginRequest(req.email.value, req.password), h);
            && r.response.status == ServerError
            && r.cookie == SessionCookie(CreateToken(s1.users[req.email.value].id))
  {
  }

  /** With `isAdmin` read from `roles`, the same round trip succeeds: the token and
      the cookie name the new id, the body carries the record without its password,
      and `isAdmin` holds exactly for the bootstrap address. */
  lemma RegisterThenLogin(s: Store, req: RegisterRequest, h: Hasher, nonce: string)
    requires Sound(h)
    requires RegisterSucceeds(s, req, h, nonce)
    ensures var s1 := Register(s, req, h, nonce).store;
            var u := s1.users[req.email.value];
            var r := LoginCorrected(s1, LoginRequest(req.email.value, req.password), h);
            && r.response.status == Ok
            && r.response.body.token.id == u.id
            && r.cookie == SessionCookie(CreateToken(u.id))
            && r.response.body.user.data == Sanitize(u)
            && (r.response.body.user.isAdmin <==> req.email.value == AdminEmail)
  {
  }

  /** After a registration, the id lookups find the new account: `profile` shows
      only its email and id, and `getEmployee` returns the whole document,
      password hash included. */
  lemma RegisterThenLookup(s: Store, req: RegisterRequest, h: Hasher, nonce: string,
                             uid: string, codec: ObjectIdCodec)
    requires Valid(s)
    requires RegisterSucceeds(s, req, h, nonce)
    requires codec.isValid(uid) && codec.parse(uid) == Register(s, req, h, nonce).store.users[req.email.value].id
    ensures var s1 := Register(s, req, h, nonce).store;
            var u := s1.users[req.email.value];
            && Profile(s1, u.id).response == Response(Ok, ProfileView(req.email.value, u.id))
            && GetEmployee(s1, uid, codec).response == Response(Ok, Document(u))
            && u.password == Some(h.hash(req.password.value, Salt(SaltRounds, nonce)))
  {
  }

  /** An unknown address and a wrong password give the very same outcome: same
      status, same body, no cookie, store untouched. */
  lemma InvalidCredentialsIndistinguishable(s: Store, unknown: string, pw1: Option<string>,
                                            known: string, pw2: string, h: Hasher)
    requires unknown !in s.users
    requires known in s.users && s.users[known].password.Some?
    requires !h.compare(pw2, s.users[known].password.value)
    ensures Login(s, LoginRequest(unknown, pw1), h) == Login(s, LoginRequest(known, Some(pw2)), h)
    ensures Login(s, LoginRequest(unknown, pw1), h) ==
            Outcome(s, Response(Unauthorized, Message("Invalid credentials")), NoCookie)
  {
  }

  /** The session every successful login path hands out. */
  predicate IsSessionFor(r: Outcome, id: Id)
  {
    && r.cookie.SetCookie?
    && r.cookie.name == "token"
    && r.cookie.httpOnly
    && r.cookie.token.id == id
    && r.cookie.token.lifetimeSeconds == 30 * 24 * 60 * 60
    && r.cookie.maxAgeMs == 2592000000
    && r.cookie.maxAgeMs == r.cookie.token.lifetimeSeconds * 1000
  }

  /** Local, Google and Facebook logins that succeed all issue a thirty-day token
      for the user's id and the matching http-only cookie. */
  lemma EveryLoginIssuesSameSession(s: Store, req: LoginRequest, h: Hasher, user: UserRecord)
    ensures Login(s, req, h).response.status == Ok ==> IsSessionFor(Login(s, req, h), s.users[req.email].id)
    ensures LoginCorrected(s, req, h).response.status == Ok ==>
              IsSessionFor(LoginCorrected(s, req, h), s.users[req.email].id)
    ensures IsSessionFor(GoogleLogin(s, Some(user)), user.id)
    ensures IsSessionFor(FacebookLogin(s, Some(user)), user.id)
    ensures GoogleLogin(s, Some(user)).cookie == FacebookLogin(s, Some(user)).cookie
  {
  }

  /** A client that logged in (as written or with the corrected `isAdmin`) and
      then logged out holds no session cookie and keeps its other cookies; the
      store is unchanged, so the token it was given
      is not revoked. */
  lemma LoginThenLogout(s: Store, req: LoginRequest, h: Hasher, jar: CookieJar)
    ensures LoginCorrected(s, req, h).response.status == Ok ==>
            var afterLogin := ApplyCookie(jar, LoginCorrected(s, req, h).cookie);
            && afterLogin[SessionCookieName] == CreateToken(s.users[req.email].id)
            && var afterLogout := ApplyCookie(afterLogin, Logout(s).cookie);
            && SessionCookieName !in afterLogout
            && afterLogout == jar - {SessionCookieName}
            && Logout(LoginCorrected(s, req, h).store).store == s
    ensures Login(s, req, h).response.status == Ok ==>
            var afterLogin := ApplyCookie(jar, Login(s, req, h).cookie);
            && afterLogin[SessionCookieName] == CreateToken(s.users[req.email].id)
            && var afterLogout := ApplyCookie(afterLogin, Logout(s).cookie);
            && SessionCookieName !in afterLogout
            && afterLogout == jar - {SessionCookieName}
            && Logout(Login(s, req, h).store).store == s
  {
  }

  /** No handler breaks the store invariant. */
  lemma HandlersPreserveValid(s: Store, reg: RegisterRequest, login: LoginRequest, h: Hasher,
                              nonce: string, p: Provider, user: Option<UserRecord>)
    requires Valid(s)
    ensures Valid(Register(s, reg, h, nonce).store)
    ensures Valid(Login(s, login, h).store)
    ensures Valid(LoginCorrected(s, login, h).store)
    ensures Valid(FederatedLogin(s, p, user).store)
    ensures Valid(Logout(s).store)
  {
  }

  /** Starting from an empty collection, every reachable store satisfies the
      invariant the id lookups rely on. */
  lemma {:induction false} RegistrationsKeepIdsUnique(regs: seq<(RegisterRequest, string)>, h: Hasher)
    ensures Valid(RegisterAll(Empty(), regs, h))
    ensures |RegisterAll(Empty(), regs, h).users| <= |regs|
  {
    RegisterAllPreservesValid(Empty(), regs, h);
  }

  /** A run of registrations, each with its own salt. */
  function RegisterAll(s: Store, regs: seq<(RegisterRequest, string)>, h: Hasher): Store
    decreases |regs|
  {
    if regs == [] then s
    else RegisterAll(Register(s, regs[0].0, h, regs[0].1).store, regs[1..], h)
  }

  lemma {:induction false} RegisterAllPreservesValid(s: Store, regs: seq<(RegisterRequest, string)>, h: Hasher)
    requires Valid(s)
    ensures Valid(RegisterAll(s, regs, h))
    ensures |RegisterAll(s, regs, h).users| <= |s.users| + |regs|
    decreases |regs|
  {
    if regs != [] {
      var r := Register(s, regs[0].0, h, regs[0].1);
      if r.response.status == Created {
        assert r.store.users.Keys == s.users.Keys + {regs[0].0.email.value};
      }
      assert |r.store.users| <= |s.users| + 1;
      RegisterAllPreservesValid(r.store, regs[1..], h);
    }
  }
}
