/** The persisted user collection as the controller sees it: documents keyed by
    their (unique, case-sensitive) email, plus the supply of fresh `_id`s that the
    database hands out on `create`. */
module UserStore {
  import opened JsValues

  /** A document `_id`. */
  type Id = nat

  /** A bcrypt salt: the cost factor and the random part `genSalt` draws. */
  datatype Salt = Salt(rounds: nat, nonce: string)

  /** The encoded output of bcrypt; never the plaintext password. */
  datatype Digest = Digest(encoded: string)

  /** The legacy `role` field that login reads. JavaScript `.includes` works on an
      array or on a string, so either shape may be stored. */
  datatype LegacyRole = RoleArray(items: seq<string>) | RoleText(text: string)

  /** A user document. `password` is absent for accounts that never set one
      (those provisioned through an OAuth strategy, for instance). */
  datatype UserRecord = UserRecord(
    id: Id,
    email: string,
    password: Option<Digest>,
    roles: seq<string>,
    firstname: string,
    lastname: string,
    role: Option<LegacyRole>)

  datatype Store = Store(users: map<string, UserRecord>, nextId: Id)

  /** The store invariant: each document is filed under its own email (the
      handlers keep this by checking before they create; nothing in the database
      enforces it), and, as the database guarantees, every `_id` was handed out
      before `nextId` and no two documents share one. */
  ghost predicate Valid(s: Store)
  {
    && (forall e :: e in s.users ==> s.users[e].email == e && s.users[e].id < s.nextId)
    && (forall e1, e2 :: e1 in s.users && e2 in s.users && s.users[e1].id == s.users[e2].id ==> e1 == e2)
  }

  /** A collection with no documents. */
  function Empty(): (s: Store)
    ensures Valid(s)
    ensures forall e :: e !in s.users
  {
    Store(map[], 0)
  }

  /** `User.findOne({ email })`: an exact, case-sensitive match. */
  function FindByEmail(s: Store, email: string): (r: Option<UserRecord>)
    ensures r.Some? <==> email in s.users
    ensures r.Some? ==> r.value == s.users[email]
    ensures Valid(s) && r.Some? ==> r.value.email == email
  {
    if email in s.users then Some(s.users[email]) else None
  }

  /** `User.findById(id)`: the one document whose `_id` is `id`, if any. */
  function FindById(s: Store, id: Id): (r: Option<UserRecord>)
    requires Valid(s)
    ensures r.Some? <==> exists e :: e in s.users && s.users[e].id == id
    ensures r.Some? ==> r.value.id == id && r.value.email in s.users && s.users[r.value.email] == r.value
  {
    if exists e :: e in s.users && s.users[e].id == id then
      var e :| e in s.users && s.users[e].id == id;
      Some(s.users[e])
    else
      None
  }

  /** `User.create(...)`: files a new document under its email with the next fresh
      `_id` and advances the supply. */
  function Create(s: Store, email: string, password: Digest, roles: seq<string>,
                  firstname: string, lastname: string): (r: (Store, UserRecord))
    requires email !in s.users
    ensures Valid(s) ==> Valid(r.0)
    ensures r.0.users == s.users[email := r.1]
    ensures r.1 == UserRecord(r.1.id, email, Some(password), roles, firstname, lastname, None)
    ensures Valid(s) ==> forall e :: e in s.users ==> s.users[e].id != r.1.id
  {
    var rec := UserRecord(s.nextId, email, Some(password), roles, firstname, lastname, None);
    (Store(s.users[email := rec], s.nextId + 1), rec)
  }
}
