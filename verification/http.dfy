/** What a handler hands back to Express: a status, a JSON body, and at most one
    change to the `token` cookie. */
module Http {
  import opened JsValues
  import opened UserStore
  import opened Session

  /** A user document as sent to a client after `delete userNoPass.password`. */
  datatype UserView = UserView(
    id: Id,
    email: string,
    roles: seq<string>,
    firstname: string,
    lastname: string,
    role: Option<LegacyRole>)

  /** The `user` object of the local login response. */
  datatype LoginUser = LoginUser(data: UserView, id: Id, email: string, isAdmin: bool)

  datatype Body =
    | Message(message: string)
    | Registered(email: string, id: Id, roles: seq<string>)
    | LoggedIn(message: string, user: LoginUser, token: Token)
    | Federated(message: string, fedUser: UserRecord, token: Token)
    | ProfileView(email: string, id: Id)
    | Document(doc: UserRecord)

  datatype Response = Response(status: int, body: Body)

  /** The effect of a handler on the client's cookie jar. */
  datatype CookieEffect =
    | SetCookie(name: string, token: Token, httpOnly: bool, maxAgeMs: nat)
    | ClearCookie(name: string)
    | NoCookie

  /** The cookies a client holds, by name. */
  type CookieJar = map<string, Token>

  /** How a browser applies a `Set-Cookie` header to its jar. */
  function ApplyCookie(jar: CookieJar, e: CookieEffect): (r: CookieJar)
    ensures e.SetCookie? ==> r.Keys == jar.Keys + {e.name} && r[e.name] == e.token
    ensures e.ClearCookie? ==> r.Keys == jar.Keys - {e.name}
    ensures e.NoCookie? ==> r == jar
    ensures forall n :: n in jar && (e.SetCookie? || e.ClearCookie? ==> n != e.name) ==> n in r && r[n] == jar[n]
  {
    match e
    case SetCookie(n, t, _, _) => jar[n := t]
    case ClearCookie(n) => jar - {n}
    case NoCookie => jar
  }

  /** The store after a handler, its response and its cookie effect. */
  datatype Outcome = Outcome(store: Store, response: Response, cookie: CookieEffect)

  const Ok: int := 200
  const Created: int := 201
  const BadRequest: int := 400
  const Unauthorized: int := 401
  const NotFound: int := 404
  const Conflict: int := 409
  const ServerError: int := 500

  /** The body of the `catch` blocks of `register`, `login`, the OAuth callbacks and
      `logout`, without the serialised `error` field. */
  const ServerErrorBody: Body := Message("Server error")
}
