/** The request handlers of the user controller, each a pure function from the
    store and the request to the next store, the response and the cookie effect. */
module UserController {
  import opened JsValues
  import opened UserStore
  import opened Session
  import opened Http

  /** The one address that registration promotes to "Admin". */
  const AdminEmail: string := "admin@example.com"

  datatype RegisterRequest = RegisterRequest(
    email: Option<string>,
    password: Option<string>,
    firstname: Option<string>,
    lastname: Option<string>)

  datatype LoginRequest = LoginRequest(email: string, password: Option<string>)

  /** The OAuth provider whose passport strategy filled in `req.user`. */
  datatype Provider = Google | Facebook

  /** `mongoose.Types.ObjectId`: which strings are well-formed ids, and the id a
      well-formed string names. */
  datatype ObjectIdCodec = ObjectIdCodec(isValid: string -> bool, parse: string -> Id)

  /** Any of the four registration fields is falsy. */
  predicate MissingField(req: RegisterRequest)
  {
    Falsy(req.email) || Falsy(req.password) || Falsy(req.firstname) || Falsy(req.lastname)
  }

  /** The roles registration assigns to a new account. */
  function RolesFor(email: string): (roles: seq<string>)
    ensures roles == ["Admin"] <==> email == AdminEmail
    ensures roles == ["User"] <==> email != AdminEmail
  {
    if email == AdminEmail then ["Admin"] else ["User"]
  }

  /** The user document with its `password` field deleted. */
  function Sanitize(u: UserRecord): (v: UserView)
    ensures v.id == u.id && v.email == u.email && v.roles == u.roles
    ensures v.firstname == u.firstname && v.lastname == u.lastname && v.role == u.role
  {
    UserView(u.id, u.email, u.roles, u.firstname, u.lastname, u.role)
  }

  /** `user.role.includes("Admin")` for a role field that is present. */
  function RoleIncludesAdmin(role: LegacyRole): (r: bool)
    ensures role.RoleArray? ==> (r <==> "Admin" in role.items)
    ensures role.RoleText? ==> (r <==> exists i :: OccursAt(role.text, "Admin", i))
  {
    match role
    case RoleArray(items) => ArrayIncludes(items, "Admin")
    case RoleText(text) => StringIncludes(text, "Admin")
  }

  /** The `res.cookie("token", token, { httpOnly: true, maxAge })` call. */
  function SessionCookie(token: Token): (c: CookieEffect)
    ensures c.SetCookie? && c.name == SessionCookieName && c.token == token && c.httpOnly
    ensures c.maxAgeMs == 2592000000
  {
    SetCookie(SessionCookieName, token, true, SessionCookieMaxAgeMs)
  }

  /** The single 401 answer of login, whichever check failed. */
  function InvalidCredentials(s: Store): (r: Outcome)
    ensures r.store == s && r.cookie.NoCookie?
    ensures r.response.status == 401 && r.response.body == Message("Invalid credentials")
  {
    Outcome(s, Response(Unauthorized, Message("Invalid credentials")), NoCookie)
  }

  /** `register`. `nonce` is the random part of the salt `bcrypt.genSalt(10)` draws. */
  function Register(s: Store, req: RegisterRequest, h: Hasher, nonce: string): (r: Outcome)
    ensures r.cookie.NoCookie?
    ensures r.response.status in {BadRequest, Conflict, Created}
    ensures r.response.status == BadRequest <==> MissingField(req)
    ensures r.response.status == BadRequest ==> r.response.body == Message("All fields are required")
    ensures r.response.status == Conflict <==> !MissingField(req) && req.email.value in s.users
    ensures r.response.status == Conflict ==> r.response.body == Message("User already exists")
    ensures r.response.status != Created ==> r.store == s
    ensures r.response.status == Created ==>
      var e := req.email.value;
      && e !in s.users
      && r.store.users.Keys == s.users.Keys + {e}
      && (forall k :: k in s.users ==> r.store.users[k] == s.users[k])
      && var u := r.store.users[e];
      && u.email == e
      && u.password == Some(h.hash(req.password.value, Salt(SaltRounds, nonce)))
      && (u.roles == ["Admin"] <==> e == AdminEmail)
      && (u.roles == ["User"] <==> e != AdminEmail)
      && u.firstname == req.firstname.value && u.lastname == req.lastname.value
      && u.role.None?
      && (Valid(s) ==> forall k :: k in s.users ==> s.users[k].id != u.id)
      && r.response.body == Registered(e, u.id, u.roles)
    ensures Valid(s) ==> Valid(r.store)
  {
    if MissingField(req) then
      Outcome(s, Response(BadRequest, Message("All fields are required")), NoCookie)
    else if FindByEmail(s, req.email.value).Some? then
      Outcome(s, Response(Conflict, Message("User already exists")), NoCookie)
    else
      var email := req.email.value;
      var hashed := h.hash(req.password.value, Salt(SaltRounds, nonce));
      var (s', created) := Create(s, email, hashed, RolesFor(email), req.firstname.value, req.lastname.value);
      Outcome(s', Response(Created, Registered(created.email, created.id, created.roles)), NoCookie)
  }

  /** `login`, as written: `isAdmin` is read from the legacy `role` field, and when
      that field is absent the `.includes` call throws after the cookie is set. */
  function Login(s: Store, req: LoginRequest, h: Hasher): (r: Outcome)
    ensures r.store == s
    ensures r.response.status in {Ok, Unauthorized, ServerError}
    ensures r.response.status == Unauthorized <==>
      || req.email !in s.users
      || (req.password.Some? && s.users[req.email].password.Some?
          && !h.compare(req.password.value, s.users[req.email].password.value))
    ensures r.response.status == Unauthorized ==> r == InvalidCredentials(s)
    ensures r.response.status == Ok ==>
      var u := s.users[req.email];
      && u.role.Some?
      && r.cookie == SessionCookie(CreateToken(u.id))
      && r.response.body == LoggedIn("Login successful",
           LoginUser(Sanitize(u), u.id, u.email, RoleIncludesAdmin(u.role.value)), CreateToken(u.id))
    ensures r.cookie.SetCookie? <==>
      && req.email in s.users && req.password.Some? && s.users[req.email].password.Some?
      && h.compare(req.password.value, s.users[req.email].password.value)    ensures r.cookie.SetCookie? ==> (r.response.status == Ok <==> s.users[req.email].role.Some?)
  {
    match FindByEmail(s, req.email)
    case None => InvalidCredentials(s)
    case Some(user) =>
      var userNoPass := Sanitize(user);
      if req.password.None? || user.password.None? then
        // bcrypt.compare rejects with "Illegal arguments" unless both are strings
        Outcome(s, Response(ServerError, ServerErrorBody), NoCookie)
      else if !h.compare(req.password.value, user.password.value) then
        InvalidCredentials(s)
      else
        var token := CreateToken(user.id);
        var cookie := SessionCookie(token);
        match user.role
        case None =>
          // `undefined.includes` throws; the catch block answers 500 on the same
          // response object, which already carries the Set-Cookie header
          Outcome(s, Response(ServerError, ServerErrorBody), cookie)
        case Some(role) =>
          var view := LoginUser(userNoPass, user.id, user.email, RoleIncludesAdmin(role));
          Outcome(s, Response(Ok, LoggedIn("Login successful", view, token)), cookie)
  }

  /** `login` with `isAdmin` read from the `roles` field that registration writes. */
  function LoginCorrected(s: Store, req: LoginRequest, h: Hasher): (r: Outcome)
    ensures r.store == s
    ensures r.response.status in {Ok, Unauthorized, ServerError}
    ensures r.response.status == Unauthorized <==>
      || req.email !in s.users
      || (req.password.Some? && s.users[req.email].password.Some?
          && !h.compare(req.password.value, s.users[req.email].password.value))
    ensures r.response.status == Unauthorized ==> r == InvalidCredentials(s)
    ensures r.response.status == Ok <==> r.cookie.SetCookie?
    ensures r.cookie.SetCookie? <==>
      && req.email in s.users && req.password.Some? && s.users[req.email].password.Some?
      && h.compare(req.password.value, s.users[req.email].password.value)
    ensures r.response.status == Ok ==>
      var u := s.users[req.email];
      && req.password.Some? && u.password.Some? && h.compare(req.password.value, u.password.value)
      && r.cookie == SessionCookie(CreateToken(u.id))
      && r.response.body == LoggedIn("Login successful",
           LoginUser(Sanitize(u), u.id, u.email, "Admin" in u.roles), CreateToken(u.id))
  {
    match FindByEmail(s, req.email)
    case None => InvalidCredentials(s)
    case Some(user) =>
      if req.password.None? || user.password.None? then
        Outcome(s, Response(ServerError, ServerErrorBody), NoCookie)
      else if !h.compare(req.password.value, user.password.value) then
        InvalidCredentials(s)
      else
        var token := CreateToken(user.id);
        var view := LoginUser(Sanitize(user), user.id, user.email, ArrayIncludes(user.roles, "Admin"));
        Outcome(s, Response(Ok, LoggedIn("Login successful", view, token)), SessionCookie(token))
  }

  /** The success message of each OAuth callback. */
  function ProviderMessage(p: Provider): string
  {
    match p
    case Google => "Google login success"
    case Facebook => "Facebook login success"
  }

  /** `googleLogin` and `facebookLogin`: `user` is whatever the passport strategy
      left in `req.user`; reading `_id` of a missing user throws. */
  function FederatedLogin(s: Store, p: Provider, user: Option<UserRecord>): (r: Outcome)
    ensures r.store == s
    ensures r.response.status in {Ok, ServerError}
    ensures r.response.status == Ok <==> user.Some?
    ensures r.cookie.SetCookie? <==> user.Some?
    ensures user.Some? ==>
      && r.cookie == SessionCookie(CreateToken(user.value.id))
      && r.response.body.Federated?
      && r.response.body.fedUser == user.value
      && r.response.body.token == CreateToken(user.value.id)
  {
    match user
    case None => Outcome(s, Response(ServerError, ServerErrorBody), NoCookie)
    case Some(u) =>
      var token := CreateToken(u.id);
      Outcome(s, Response(Ok, Federated(ProviderMessage(p), u, token)), SessionCookie(token))
  }

  function GoogleLogin(s: Store, user: Option<UserRecord>): (r: Outcome)
    ensures r.store == s
    ensures r.response.status == Ok <==> user.Some?
    ensures user.Some? ==>
      && r.cookie == SessionCookie(CreateToken(user.value.id))
      && r.response.body == Federated("Google login success", user.value, CreateToken(user.value.id))
    ensures user.None? ==> r.response.status == ServerError && r.cookie.NoCookie?
  {
    FederatedLogin(s, Google, user)
  }

  function FacebookLogin(s: Store, user: Option<UserRecord>): (r: Outcome)
    ensures r.store == s
    ensures r.response.status == Ok <==> user.Some?
    ensures user.Some? ==>
      && r.cookie == SessionCookie(CreateToken(user.value.id))
      && r.response.body == Federated("Facebook login success", user.value, CreateToken(user.value.id))
    ensures user.None? ==> r.response.status == ServerError && r.cookie.NoCookie?
  {
    FederatedLogin(s, Facebook, user)
  }

  /** `logout`: tells the client to drop its session cookie; nothing is revoked. */
  function Logout(s: Store): (r: Outcome)
    ensures r.store == s
    ensures r.response.status == Ok
    ensures r.cookie == ClearCookie(SessionCookieName)
  {
    Outcome(s, Response(Ok, Message("Logged out successfully")), ClearCookie(SessionCookieName))
  }

  /** `profile` for the id the authentication middleware attached to the request.
      The 404 is thrown to the error handler with the message "User not found". */
  function Profile(s: Store, userId: Id): (r: Outcome)
    requires Valid(s)
    ensures r.store == s && r.cookie.NoCookie?
    ensures r.response.status in {Ok, NotFound}
    ensures r.response.status == Ok <==> exists e :: e in s.users && s.users[e].id == userId
    ensures r.response.status == Ok ==>
      r.response.body.ProfileView? && r.response.body.id == userId
      && r.response.body.email in s.users && s.users[r.response.body.email].id == userId
  {
    match FindById(s, userId)
    case Some(u) => Outcome(s, Response(Ok, ProfileView(u.email, u.id)), NoCookie)
    case None => Outcome(s, Response(NotFound, Message("User not found")), NoCookie)
  }

  /** `getEmployee` for the `uid` route parameter. */
  function GetEmployee(s: Store, uid: string, codec: ObjectIdCodec): (r: Outcome)
    requires Valid(s)
    ensures r.store == s && r.cookie.NoCookie?
    ensures r.response.status in {Ok, BadRequest, NotFound}
    ensures r.response.status == BadRequest <==> !codec.isValid(uid)
    ensures r.response.status == BadRequest ==> r.response.body == Message("Invalid user ID format")
    ensures r.response.status == NotFound <==>
      codec.isValid(uid) && !exists e :: e in s.users && s.users[e].id == codec.parse(uid)
    ensures r.response.status == Ok ==>
      r.response.body.Document? && r.response.body.doc.id == codec.parse(uid)
      && r.response.body.doc.email in s.users && s.users[r.response.body.doc.email] == r.response.body.doc
  {
    if !codec.isValid(uid) then
      Outcome(s, Response(BadRequest, Message("Invalid user ID format")), NoCookie)
    else
      match FindById(s, codec.parse(uid))
      case Some(u) => Outcome(s, Response(Ok, Document(u)), NoCookie)
      case None => Outcome(s, Response(NotFound, Message("Employee not found")), NoCookie)
  }
}
