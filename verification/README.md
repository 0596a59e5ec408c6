# wage-wise-api: credential handlers and CORS gate, in Dafny

This project models two pieces of decision logic of the wage-wise-api Express backend:

* the user controller (`controller/user.js`): `register`, `login`, `createToken`,
  `googleLogin`, `facebookLogin`, `logout`, and the lookups `profile` and `getEmployee`;
* the `origin` callback given to the `cors` middleware in `app.js`.

Each handler is a pure function from the user store and the request to an `Outcome`.
An `Outcome` is the next store, the response (status and JSON body), and the effect
on the `token` cookie (set, cleared or untouched). The store is a map from email to
user document, plus the next fresh `_id`. bcrypt is a `Hasher` value holding two
uninterpreted functions, `hash` and `compare`. The only fact assumed about them is
`Sound`: `compare(p, hash(p, s))` holds for every password and salt. It is a lemma
precondition, never an axiom. A signed JWT is represented by its claims,
`Token(id, lifetimeSeconds)`.

Modules, leaf first:

* `js_values.dfy` (`JsValues`): `undefined`, the truthiness test `!x`, and the array and
  string versions of `includes`.
* `user_store.dfy` (`UserStore`): user documents, the store, its invariant `Valid`, and the
  `findOne`, `findById` and `create` calls.
* `session.dfy` (`Session`): the abstract hasher, the salt cost, `createToken` and the cookie
  constants.
* `http.dfy` (`Http`): response bodies, cookie effects, and how a client's cookie jar applies them.
* `user_controller.dfy` (`UserController`): the handlers.
* `user_properties.dfy` (`UserProperties`): properties that span several handler calls.
* `cors.dfy` (`Cors`): the origin gate.

The model follows the code as written:

* `login` reads `isAdmin` from the legacy `role` field, not from `roles`.
* `googleLogin` and `facebookLogin` return `req.user` unsanitised.
* `getEmployee` returns the whole document, password hash included.

## Model

| member | source | states |
|---|---|---|
| JsValues.StringIncludes | controller/user.js:144 | `String.prototype.includes` is true exactly when the pattern occurs at some index of the text |
| UserStore.FindByEmail | controller/user.js:70 | the exact, case-sensitive email lookup finds a document iff that email is stored, and returns the document filed under it |
| UserStore.FindById | controller/user.js:164 | the id lookup finds a document iff some stored document has that `_id`, and returns that stored document |
| UserStore.Create | controller/user.js:83-89 | creation files exactly one new document under its email with a hashed password, no legacy `role`, and an `_id` no other document has; the store invariant is kept |
| Session.CreateToken | controller/user.js:51-57 | the token's `id` claim is the user id; its 30-day lifetime in seconds times 1000 equals the cookie `maxAge` of 2 592 000 000 ms |
| UserController.RolesFor | controller/user.js:80 | roles are `["Admin"]` iff the email is exactly `admin@example.com`, and `["User"]` otherwise |
| UserController.Sanitize | controller/user.js:116-117 | the login `data` view keeps every field of the document except the password |
| UserController.RoleIncludesAdmin | controller/user.js:144 | `role.includes("Admin")` is array membership for an array and substring search for a string |
| UserController.SessionCookie | controller/user.js:130-133 | the session cookie is named `token`, is http-only, carries the token, and lives 2 592 000 000 ms |
| UserController.InvalidCredentials | controller/user.js:110-124 | the login failure answer is 401 `Invalid credentials`, sets no cookie and leaves the store alone |
| UserController.Register | controller/user.js:60-100 | 400 iff any field is falsy; 409 iff all are present and the email is stored; store unchanged unless 201; 201 adds exactly the new email, keeps every other record, stores `hash(password, salt with cost 10)`, assigns `Admin` iff bootstrap email, answers `{email, _id, roles}`; never a cookie; invariant kept |
| UserController.Login | controller/user.js:103-152 | store never changes; 401 iff the email is unknown or the password does not match; a cookie is set iff the password check passed, and then the answer is 200 iff the legacy `role` is present (500 otherwise); a 200 carries `data`, the document without its password, and the session token for its id |
| UserController.LoginCorrected | controller/user.js:103-152 | the same login with `isAdmin` taken from `roles`: 200 exactly when a cookie is set, which is exactly when the email is stored and the password matched |
| UserController.FederatedLogin | controller/user.js:176-215 | an OAuth callback succeeds iff `req.user` is present, then returns that user and a token for its id and sets the session cookie; 500 without a cookie otherwise |
| UserController.GoogleLogin | controller/user.js:176-194 | Google callback: 200 iff a user is present, with the Google message, the user, and the session for its id; 500 with no cookie when `req.user` is missing |
| UserController.FacebookLogin | controller/user.js:197-215 | Facebook callback: 200 iff a user is present, with the Facebook message, the user, and the session for its id; 500 with no cookie when `req.user` is missing |
| UserController.Logout | controller/user.js:218-228 | logout answers 200, clears the `token` cookie and leaves the store unchanged |
| UserController.Profile | controller/user.js:9-20 | 200 iff a document has the id, with a body that holds only that document's email and id; 404 otherwise |
| UserController.GetEmployee | controller/user.js:154-174 | 400 iff the id string is malformed (checked before any lookup); 404 iff well-formed but unknown; 200 with the stored document otherwise |
| Http.ApplyCookie | controller/user.js:130-133 | a set cookie replaces the jar entry of that name, a clear removes it, and every other cookie is kept |
| UserProperties.RegisterTwiceConflicts | controller/user.js:69-73 | after a successful registration, registering the same email again gives 409 whatever the password, and the store stays as the first call left it |
| UserProperties.RegisterThenLoginAsWritten | controller/user.js:80-89 | as written, logging in with the credentials just registered passes the password check and sets the session cookie, but answers 500 because the new document has no `role` |
| UserProperties.RegisterThenLogin | controller/user.js:77-133 | given `compare(p, hash(p, s))`, the registered credentials log in with 200, a token and cookie for the new id, the password-free document, and `isAdmin` iff bootstrap email |
| UserProperties.RegisterThenLookup | controller/user.js:9-20 | after registration, `profile` for the new id shows only its email and id, and `getEmployee` returns the whole new document, hash included |
| UserProperties.InvalidCredentialsIndistinguishable | controller/user.js:110-124 | an unknown email and a wrong password give identical outcomes: 401 `Invalid credentials`, no cookie, same store |
| UserProperties.EveryLoginIssuesSameSession | controller/user.js:127-133 | every successful local, Google or Facebook login sets the http-only `token` cookie for the user's id, with a 30-day token and `maxAge` equal to the lifetime times 1000 |
| UserProperties.LoginThenLogout | controller/user.js:218-224 | after a successful login, as written or corrected, and a logout, the client holds no `token` cookie and keeps its other cookies; the store is unchanged, so the token is not revoked |
| UserProperties.HandlersPreserveValid | controller/user.js:60-100 | register, both logins, the OAuth callbacks and logout all keep the store invariant: emails as keys, ids fresh and unique |
| UserProperties.RegistrationsKeepIdsUnique | controller/user.js:83-89 | any run of registrations from an empty collection keeps the invariant and stores at most one document per call |
| UserProperties.RegisterAllPreservesValid | controller/user.js:83-89 | any run of registrations from a valid store keeps the invariant and adds at most one document per call |
| Cors.AllowedOrigins | app.js:27-30 | the allow-list is the configured `ORIGIN_URL`, possibly undefined, followed by `http://localhost:8081` |
| Cors.CheckOrigin | app.js:32-43 | an origin is allowed iff it is absent, empty, equal to `ORIGIN_URL`, or `http://localhost:8081`; any other origin is rejected with `Not allowed by CORS` |
| Cors.MissingOrEmptyOriginAllowed | app.js:35 | a missing origin and an empty-string origin are both allowed, whatever the configuration |
| Cors.UnconfiguredOriginUrl | app.js:27-35 | with `ORIGIN_URL` undefined, the only non-empty origin allowed is `http://localhost:8081` |
| Cors.OtherOriginsRejected | app.js:34-39 | every non-empty origin outside the list is rejected with the error `Not allowed by CORS` |

## Findings

| source | as written | input that shows it | evidently intended | confidence | as-written member | corrected member |
|---|---|---|---|---|---|---|
| controller/user.js:144 | `isAdmin` reads `user.role`, but registration (lines 80-89) only writes `roles`. `.includes` on `undefined` throws after `res.cookie` has run, so the catch answers 500 with the session cookie already attached. | register `alice@x.com` / `pw123` / `Alice` / `A`, then log in with `alice@x.com` / `pw123` | read `roles`, so the login answers 200 with `isAdmin` true iff the account is the bootstrap admin | medium: this rests on the User schema having no default for `role`, and that schema is not part of this model; not executed | UserProperties.RegisterThenLoginAsWritten | UserProperties.RegisterThenLogin |

## Left out

- `updateProfile`: its meaning rests on `findByIdAndUpdate` with schema validators, and the User schema is not part of this model.
- Interleaved requests: each handler runs atomically, so the check-then-create race in `register` is not modelled. The lookup at line 70 and the create at line 83 are separate steps, and no unique index on `email` is part of this model. `RegisterTwiceConflicts` holds only for calls made one after another.
- The `error` field of the 500 bodies: the `catch` blocks answer `{ message: "Server error", error }`, and the model keeps only the message. The caught error usually serialises as `{}`. `getEmployee`'s own 500 answer, "Internal server error", is not modelled; see the persistence line below.
- Persistence failures: the `catch` blocks that answer 500 when MongoDB throws are not modelled, and the store is total. The exception is `bcrypt.compare` rejecting a missing password in `login`, which is modelled.
- Request fields that are not strings: a JSON number, boolean or object is not modelled. This includes query-operator objects such as `{"$ne": null}` reaching `findOne`. Fields are either absent or strings.
- Login requests without an email: the email is a plain string in `LoginRequest`. What `findOne({ email: undefined })` matches depends on how the driver serialises `undefined`.
- Salt generation, bcrypt internals and JWT signing: the random salt is the `nonce` parameter, and hashing and comparison are uninterpreted. The token is its claims, and the `JWT_SECRET` / `"defaultSecretKey"` fallback is not represented.
- Token verification: it lives in the authentication middleware, which is not part of this model. `profile` receives the authenticated id as a parameter.
- The passport strategies: they fill in `req.user` for the OAuth callbacks and may provision accounts. They are not part of this model, so `req.user` is an input.
- UserController.Profile: its 404 is thrown to the error-handling middleware, which is not part of this model. The body is modelled as the message `User not found`.
- UserController.GetEmployee: the 500 answer when the database throws is not modelled, for the persistence reason above.
- `ObjectId.isValid` and the string-to-id cast: these are the abstract `ObjectIdCodec`.
- The organization routes (`routes/organization.routes.js`): they only wire handlers of an organization controller that is not part of this model. The join and accept workflow is not modelled.
- MongoDB connection, JSON body parsing, request logging, `cookieParser`, the `/upload` endpoint, the error handler, `app.listen` and console output: these are I/O plumbing.
