/** Password hashing and session tokens. bcrypt and jsonwebtoken are foreign
    libraries: hashing and comparison are kept abstract, and a signed JWT is
    represented by the claims it carries. */
module Session {
  import opened UserStore

  /** The two bcrypt entry points the controller calls, as uninterpreted functions. */
  datatype Hasher = Hasher(hash: (string, Salt) -> Digest, compare: (string, Digest) -> bool)

  /** The one property relied on: a password matches any hash made from it. */
  ghost predicate Sound(h: Hasher)
  {
    forall p, s :: h.compare(p, h.hash(p, s))
  }

  /** The cost factor passed to `bcrypt.genSalt`. */
  const SaltRounds: nat := 10

  /** A signed token: the `id` claim and the `expiresIn` lifetime in seconds. */
  datatype Token = Token(id: Id, lifetimeSeconds: nat)

  const SecondsPerDay: nat := 24 * 60 * 60

  /** `expiresIn: "30d"`. */
  const TokenLifetimeDays: nat := 30

  /** The `maxAge` of the session cookie, written out in milliseconds. */
  const SessionCookieMaxAgeMs: nat := 30 * 24 * 60 * 60 * 1000

  /** The name of the session cookie. */
  const SessionCookieName: string := "token"

  /** `createToken(userId)`: signs `{ id: userId }` for thirty days. */
  function CreateToken(userId: Id): (t: Token)
    ensures t.id == userId
    ensures t.lifetimeSeconds == 2592000
    ensures t.lifetimeSeconds * 1000 == SessionCookieMaxAgeMs
  {
    Token(userId, TokenLifetimeDays * SecondsPerDay)
  }
}
