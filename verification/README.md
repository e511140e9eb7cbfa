# leadly-API request handling, modelled in Dafny

This project models the request-handling logic of a small Express/Mongoose
backend. The server has user registration, login, a token-checking `auth`
middleware, password change, adding products and listing them. Each route handler is a pure
function from a request and the database to a response and the new database.
The database is two collections kept in insertion order, `User` and
`Product`. The schema constraints of `userModel.ts` and `ProductModel.ts`
are the invariants of that state.

Modules, one per part of the program:

- `Common` (common.dfy): `Option`, `Result`, ids, database errors, Mongoose's `required` check on strings.
- `Bcrypt` (bcrypt.dfy): the password hasher. It is passed as a `Hasher` record holding `hash` and `compare`.
  `Ideal` states the idealised axioms: a password matches its own digest and no other password does, and a digest
  is never the plaintext and never empty. `PrefixedIsIdeal` shows the axioms are consistent.
- `Jwt` (jwt.dfy): `jwt.sign` with the hard-coded secret `"RANDOM-TOKEN"` and `expiresIn: "24h"`
  (`exp = iat + 86400`). It also has `jwt.verify` for tokens that carry an `exp` and no `nbf`, which covers
  every token `jwt.sign` issues here. Such a token is refused as malformed, for the wrong secret, or when
  `now >= exp` (the `exp` rule of section 4.1.4 of RFC 7519).
- `JsString` (js_string.dfy): `String.prototype.replace("Bearer ", "")`. It removes the FIRST occurrence of the
  pattern wherever it is.
- `UserModel`, `ProductModel` (user_model.dfy, product_model.dfy): lookups and `save()` with the schema's
  required and unique constraints.
- `Server` (server.dfy): the route handlers and the `auth` middleware.
- `App` (app.dfy): dispatching requests and running a sequence of them, with the invariants kept across any run.
- `Flows` (flows.dfy): properties that link handlers. They cover register then login, change password then login,
  and a login token presented to `auth`.

A response is `Reply(status, body)`, or `NoReply` where a handler's promise rejects and nothing catches it.
That happens in `/register`, `/login` and `/addproduct`, whose `.then` chains have no rejection handler, so the
client never gets an answer. `/user/:id` and `/products` catch everything and answer 500.

Points where the code behaves differently from what its own comments or the bearer-token standard suggest.
The model follows the code:

- The comment at index.ts:33 says "EMAIL SHOULD BE UNIQUE". The unique index does refuse a second user with the
  same email. But `/register` has no rejection handler, so a duplicate is never answered. The model gives
  `NoReply` and leaves the store unchanged.
- The comment at index.ts:103 asks for the token "IN THE BEARER TOKEN". Section 2.1 of RFC 6750 writes that as
  the prefix `"Bearer "` followed by the token. The code instead deletes the first `"Bearer "` anywhere in the
  header, so `"Basic Bearer xyz"` yields `"Basic xyz"`. A header that is just the token, with no scheme, is
  accepted as it is (`JsString.RemovesInnerOccurrence`, `Flows.BareTokenPassesAuth`).
- `/user/:id` is not behind `auth`. Knowing a user's id and current password is enough to change it.
- A required String path refuses the empty string, as Mongoose's `required` validator does. So an empty email,
  product name or category is refused.

## Model

| member | source | states |
|---|---|---|
| `Jwt.Sign` | index.ts:66-73 | the token carries exactly the given claims, verifies with its own secret from issuance until one second before `now + 86400`, and is `Expired` at `now + 86400` (as `Jwt.SignedTokenLifetime` states for every clock reading) |
| `Jwt.Verify` | index.ts:94 | a parsed token verifies iff its secret matches and `now < exp`; otherwise it is malformed, has a bad signature, or is expired |
| `Jwt.SignedTokenLifetime` | index.ts:66-73 | a freshly signed token verifies before `iat + 86400` with exactly its payload, and is `Expired` from then on |
| `Jwt.ForeignSecretRejected` | index.ts:94 | a token signed with any other secret is refused with `InvalidSignature` at every time |
| `JsString.IndexOf` | index.ts:90 | returns the first index at or after `from` where the pattern occurs, or `None` when it occurs nowhere there |
| `JsString.RemoveFirst` | index.ts:90 | the result is the text with the first occurrence of the pattern cut out, or the text itself if it has none |
| `JsString.RemovesLeadingPattern` | index.ts:90 | `"Bearer " + t` yields exactly `t` |
| `JsString.RemovesInnerOccurrence` | index.ts:90 | the removal is not a prefix strip: `"Basic Bearer xyz"` becomes `"Basic xyz"` |
| `JsString.RemovesOnlyFirstOccurrence` | index.ts:90 | only the first occurrence goes: `"Bearer Bearer "` becomes `"Bearer "` |
| `JsString.BareTokenKept` | index.ts:90 | a header with no space in it comes through unchanged |
| `UserModel.FindByEmail` | index.ts:55 | `findOne({email})` finds the first stored user with that email, and finds none iff no user has it |
| `UserModel.FindById` | index.ts:115 | `findById` finds the first stored user with that id, and finds none iff no user has it |
| `UserModel.FindByEmailIsUnique` | userModel.ts:12 | in a valid collection the lookup by email returns the one user holding that email |
| `UserModel.FindByIdIsUnique` | index.ts:115 | in a valid collection the lookup by id returns the one user holding that id |
| `UserModel.Create` | userModel.ts:8-19 | a save succeeds iff email and password are both present and non-empty and neither the id nor the email is taken; on success exactly the new user is appended and the schema invariant is kept |
| `UserModel.SetPassword` | index.ts:127-128 | saving a changed password alters only that user's `password`; every other user and field stays as it was, and an empty digest is refused |
| `UserModel.DuplicateEmailRejected` | userModel.ts:12 | a user whose email is already stored is refused |
| `UserModel.SharedPasswordAccepted` | userModel.ts:17 | a new user may store the same password value as an existing user, and the collection stays valid |
| `ProductModel.FindByName` | ProductModel.ts:12 | the unique-name lookup finds a product with that name iff one is stored |
| `ProductModel.FindById` | index.ts:147 | the `_id` lookup finds a product with that id iff one is stored |
| `ProductModel.Create` | ProductModel.ts:8-24 | a save succeeds iff name and category are non-empty, a numeric price is given, and neither the id nor the name is taken; on success exactly the new product is appended and the invariant is kept |
| `ProductModel.DuplicateNameRejected` | ProductModel.ts:12 | a product whose name is already stored is refused |
| `ProductModel.SharedCategoryAndPriceAccepted` | ProductModel.ts:17-22 | a new product may repeat both the category and the price of a stored one |
| `Server.Register` | index.ts:35-48 | a 201 reply carries the new id, and the one appended user holds the email and `hash(password)`, never the plaintext. It replies iff the database answers, the email is non-empty and unused, the password is present and its digest is non-empty. Every other case gets no reply and leaves the store unchanged |
| `Server.Login` | index.ts:54-81 | never changes the store. An unknown email answers 400 "No user found". A known email with no password in the body gets no reply, because `bcrypt.compare` rejects uncaught. A known email whose password does not match answers 400 "Passwords does not match". A 200 carries the user's email and a token with exactly that user's id and email, expiring 86400 s after `now`, signed with the secret |
| `Server.BearerToken` | index.ts:90 | the token read from a header `"Bearer " + t` is `t` |
| `Server.Authenticate` | index.ts:88-101 | calls `next` iff the header is present, the token left after the removal is non-empty, and it verifies with the secret at `now < exp`; then `req.user` is its payload. Otherwise it answers 401 "Unauthorized" |
| `Server.TestUser` | index.ts:104-106 | answers 200 "You are authorized!" iff `auth` lets the request through, otherwise 401; the store is unchanged |
| `Server.ChangePassword` | index.ts:110-135 | always replies. An unknown id answers 404 "User not found" and a non-matching current password answers 400; other failures answer 500. Every non-200 leaves the store unchanged. A 200 replaces only that user's password with `hash(newPassword)`, keeping id, email, the other users and the products |
| `Server.AddProduct` | index.ts:141-150 | a 201 with the new id only after the product was stored. It replies iff the database answers and the product meets the schema with an unused name. Otherwise there is no reply and the store is unchanged |
| `Server.ListProducts` | index.ts:154-162 | answers 200 with exactly the stored products, or 500 "Internal server error" when the lookup fails; the store is unchanged |
| `App.Handle` | index.ts:35-162 | every request keeps the schema invariants and loses nothing stored; login, `/testuser` and `/products` change nothing |
| `App.Run` | index.ts:35-162 | any sequence of requests gives one response each. It keeps the invariants, so emails and product names stay unique. Users are never deleted and keep their id and email, and products are never changed |
| `App.UniqueAfterAnyRun` | userModel.ts:12 | from an empty database, after any requests, no two users share an email or an id |
| `Flows.LoginWrongPassword` | index.ts:60-65 | a stored email with a password that does not match answers 400 "Passwords does not match" |
| `Flows.LoginSucceeds` | index.ts:66-78 | a matching password answers 200 with the user's email and a token holding exactly the user's id and email, `iat = now`, `exp = now + 86400` and the secret `auth` uses |
| `Flows.RegisterThenLogin` | index.ts:35-81 | after a successful register, login with the same credentials yields a token for the new id; any other password answers 400 |
| `Flows.ChangePasswordOutcome` | index.ts:115-130 | for a stored user, the change succeeds iff the current password matches; otherwise it answers 400 "Current password is incorrect" |
| `Flows.ChangePasswordThenLogin` | index.ts:119-130 | after a successful change, the new password verifies and logs in, the old one no longer verifies and login with it answers 400, and id and email are unchanged |
| `Flows.LoginTokenPassesAuth` | index.ts:66-97 | the login token sent as `"Bearer " + token` passes `auth` iff the clock is before `iat + 86400`, handing on the logged-in user's id and email |
| `Flows.BareTokenPassesAuth` | index.ts:90-97 | a valid token sent without any `"Bearer "` scheme also passes `auth` |
| `Flows.EmptyTokenRejected` | index.ts:90-93 | a missing header, and a header that is exactly `"Bearer "`, answer 401 |

## Left out

- Database connection, `dotenv`, `app.listen`, the `GET /` banner and all console logging: process start-up and I/O.
- bcrypt internals, salting and the work factor 10. The hasher is a deterministic parameter constrained only by
  `Bcrypt.Ideal`. Real bcrypt digests differ from call to call, and nothing in the handlers depends on that.
- JWT compact serialisation, base64 and HMAC. A signature is the secret the token was signed with. The wire form
  is a `Jwt.Codec` parameter, assumed only to parse back what it printed (`Jwt.Faithful`).
- `iat` is `Math.floor(Date.now() / 1000)`. The model takes the clock in whole seconds as a parameter.
- A `/login` body missing `email`. What a filter on an undefined value matches is a driver detail, so `Login`
  takes the email as a string. A missing `password` is modelled: it gets `NoReply`.
- Promise scheduling, and several registrations running at once. Each request is one atomic transition, and the
  unique index is modelled as a check at insert time.
- Express routing, header parsing beyond the single `replace`, JSON body parsing, and the exact wire format of
  responses. The `__v` version key is also left out.
- Mongoose casting of body values, such as a numeric string `price` becoming a number or a non-string email, and
  the unused `"Email Exist"` messages. `price` is a `real`, following the schema's `Number` type. An `:id` that
  is not an ObjectId is the `NotObjectId` case, which answers 500.
- Changing state by another route between two steps of one handler. For example, a user deleted between
  `findById` and `save` cannot happen, because no route deletes.
- After an unhandled promise rejection (`NoReply` at index.ts:41-46, index.ts:55-60 and index.ts:147-149), the
  process is assumed to keep running. Since Node 15 the default `--unhandled-rejections=throw` ends the process
  on such a rejection. `App.Run` and `App.UniqueAfterAnyRun` instead keep serving later requests against the same
  store.
- bcrypt reads only the first 72 bytes of a password, so two passwords sharing those bytes match the same digest.
  `Bcrypt.Ideal` rules this out. So `Flows.RegisterThenLogin`'s "any other password answers 400" and
  `Flows.ChangePasswordThenLogin`'s "the old password no longer verifies" hold only for passwords that differ
  within their first 72 bytes.
- Tokens without an `exp` claim, or with an `nbf` claim, are outside the model. `jsonwebtoken` treats `exp` as
  optional, so a token signed with the hard-coded secret and no `exp` would pass `auth` forever. It also refuses
  a token whose `nbf` is still in the future. Login never issues either kind.
