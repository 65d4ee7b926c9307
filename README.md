# Auth sessions, users and cart table — a Dafny model

This project models the server side of the MERN shop backend. It covers three parts.

- **The authentication controller** (`Backend/Controllers/AuthController.js`):
  - token issue (an access, a refresh and a legacy token over the claims `{email, id}`);
  - biometric digests;
  - signup;
  - password login, with the lazy creation of the admin record;
  - biometric login, enrolment, removal and status;
  - refresh-token rotation and logout.
- **The user schema** (`Backend/Models/user.js`):
  - the record and its defaults;
  - the required and unique fields;
  - the `pre('save')` hook that keeps `biometricRegisteredAt` in step with `biometricHash`.
- **The cart routes** (`Backend/Routes/cartRoutes.js`): a table of cart rows keyed by (userId, productId) that holds quantities, and the add, get, update, remove and buy-all handlers.

Files:

- `primitives.dfy` (module `Primitives`):
  - shared values, such as `Option`, JavaScript truthiness of optional strings, and token claims;
  - the interface to the three foreign libraries (bcrypt, Node's SHA-256, jsonwebtoken). This is a record of functions (`Crypto`). The model may use only the laws collected in `Lawful`:
    - a password matches its own bcrypt hash;
    - hashes, digests and tokens are never empty;
    - a token decodes, under the secret it was signed with, to its claims and to an expiry `ttl` seconds after its issue time.

    `JwtVerify` is the signature check followed by the expiry check.
- `user_model.dfy` (module `UserModel`):
  - the record and the document constructor with the schema defaults;
  - the hook `PreSave`;
  - the unique email index;
  - the class `UserStore`. It holds the collection as a map from id to record plus the email index. Its `Save` runs validation, then the hook, then the write.
- `auth_controller.dfy` (module `AuthController`):
  - the token triad;
  - the record transitions of enrolment and removal;
  - the refresh lookup;
  - the class `AuthService`, with one method per handler. Each method answers a `Reply(status, payload)` and writes only through `UserStore.Save`.
- `cart_routes.dfy` (module `CartRoutes`):
  - the cart collection, kept as its rows in natural order;
  - its map view `Table`;
  - `findOne`, `find`, `findOneAndDelete` and `deleteMany` as functions on the rows, with lemmas saying what each does to the table;
  - the class `CartTable`, with one method per route.
- `scenarios.dfy` (module `Scenarios`): end-to-end flows on a fresh store. Their contracts follow from the handlers' contracts.

The store invariants, preserved by every handler:

- **the index is exact**: `byEmail` is the inverse of the records' emails, so emails are unique;
- **required fields are present**: name, email and password hash are non-empty;
- **the hook's invariant holds**: a registration time is recorded exactly while a biometric hash is;
- **the controller's own rule holds**: a record is `admin` exactly when its email is the configured admin email, and biometric is enabled exactly when a digest is stored;
- **the cart has no duplicate rows**: no two rows share a (userId, productId) pair.

Three behaviours of the code worth knowing:

- The access token and the legacy token are both signed with `JWT_SECRET`; only the refresh token has a secret of its own, `REFRESH_TOKEN_SECRET` (Backend/Controllers/AuthController.js:10-25).
- `biometricLogin` answers an unknown email with 403 "User not found" (Backend/Controllers/AuthController.js:152-157).
- `buyall` deletes the user's rows before it builds its answer (Backend/Routes/cartRoutes.js:161-170). The answer dereferences every product, so a row whose product no longer exists ends in a 500 after the cart has already been cleared. `CartTable.BuyAll` states exactly that.

## Model

| member | source | states |
|---|---|---|
| Primitives.JwtVerify | Backend/Controllers/AuthController.js:313 | `jwt.verify` gives claims iff the token decodes under the secret and `now` is before its expiry, and then gives exactly the decoded claims |
| Primitives.SignedTokenVerifies | Backend/Controllers/AuthController.js:313 | a token signed with a secret verifies under that secret to its claims while `now` is before issue time plus lifetime, and to nothing afterwards |
| AuthController.GenerateTokens | Backend/Controllers/AuthController.js:10-27 | each of the three tokens is signed over the same claims, with the secret and the lifetime of its kind |
| AuthController.IssuedTokensVerify | Backend/Controllers/AuthController.js:10-27 | each token of the triad carries the same claims `{email, id}`. It verifies under its own secret (JWT_SECRET for access and legacy, REFRESH_TOKEN_SECRET for refresh) for exactly 15 minutes, 24 hours or 7 days |
| AuthController.HashBiometricData | Backend/Controllers/AuthController.js:30-32 | the digest is a function of the data alone (deterministic) and is never empty, so a stored digest is always truthy |
| AuthController.Enrolled | Backend/Controllers/AuthController.js:221-223 | enrolment sets the digest and `biometricEnabled`. It keeps an existing registration time, stamps `now` when there was none, and changes no other field (role and refresh token stay) |
| AuthController.Unenrolled | Backend/Controllers/AuthController.js:259-261 | removal clears the digest, disables biometric login, and (through the hook) clears the registration time. No other field changes |
| AuthController.EnrolIdempotent | Backend/Controllers/AuthController.js:221-223 | enrolling the same digest twice gives the record of enrolling it once (the first timestamp is kept) |
| AuthController.UnenrolIdempotent | Backend/Controllers/AuthController.js:259-261 | removing twice gives the record of removing once |
| AuthController.UnenrolUndoesEnrol | Backend/Controllers/AuthController.js:221-261 | removal after enrolment gives the record of removal alone |
| AuthController.RefreshTarget | Backend/Controllers/AuthController.js:313-314 | the lookup finds a record only when the token verifies under the refresh secret, the decoded id is stored and that record holds exactly this token; in every other case it finds none |
| AuthController.IssuedRefreshTokenAccepted | Backend/Controllers/AuthController.js:313-318 | a refresh token the controller issued and stored for a record opens that record for seven days after its issue, and opens nothing after that |
| AuthController.RotatedTokenRejected | Backend/Controllers/AuthController.js:313-322 | once a token has opened a record that now stores a different token, the first token opens nothing at any later time (single use) |
| AuthController.UnheldTokenRejected | Backend/Controllers/AuthController.js:313-318 | a token that no record stores opens nothing, whatever its signature |
| AuthController.AuthService.StoreRefreshToken | Backend/Controllers/AuthController.js:320-322 | writing a new refresh token (or none) through save changes exactly that field of that record. The save cannot fail, and the invariants are kept |
| AuthController.AuthService.Signup | Backend/Controllers/AuthController.js:35-86 | on a known email: 409 and no change. Otherwise exactly one new record with a fresh id, the bcrypt hash, role admin iff the email is ADMIN_EMAIL, and enabled iff biometric data was given, with its SHA-256 digest and a registration time of `now`. The stored refresh token equals the returned one, and the reply is 201 with the triad and the profile. A missing name or email fails validation: 500 with no record |
| AuthController.AuthService.Login | Backend/Controllers/AuthController.js:89-138 | an unknown email without the admin credentials, and a wrong password, both give 403 with the same message and no change. A right password gives 200 and only the stored refresh token changes. The admin credentials with no record create the `Admin User` admin record, with biometric off, storing the returned refresh token |
| AuthController.AuthService.BiometricLogin | Backend/Controllers/AuthController.js:141-199 | 400 when email or data is missing. Then 403 in order: unknown user, not enabled or no digest, digest mismatch, each with no change. On success 200, and only the stored refresh token changes |
| AuthController.AuthService.AddBiometric | Backend/Controllers/AuthController.js:202-237 | 400 on missing input and 404 on an unknown id, with no change. Otherwise the record becomes `Enrolled(record, sha256(data), now)` and nothing else changes |
| AuthController.AuthService.RemoveBiometric | Backend/Controllers/AuthController.js:240-275 | 400 on a missing id and 404 on an unknown id, with no change. Otherwise the record becomes `Unenrolled(record, now)` and nothing else changes |
| AuthController.AuthService.CheckBiometricStatus | Backend/Controllers/AuthController.js:278-303 | reads only (no `modifies`). 404 for an unknown email; otherwise the record's flag, email and name, where the flag is true iff a digest is stored |
| AuthController.AuthService.RefreshToken | Backend/Controllers/AuthController.js:306-335 | 401 without a token. 403 with no change when verification under the refresh secret fails, or when the decoded id's record stores a different token. Otherwise a new triad, whose refresh token replaces the stored one, and no other change |
| AuthController.AuthService.Logout | Backend/Controllers/AuthController.js:338-351 | always 200 with the same message. If no record stores the token, nothing changes. Otherwise exactly one such record has its refresh token set to null, and nothing else changes |
| UserModel.NewDocument | Backend/Models/user.js:4-41 | a new document holds the given fields. Role defaults to `user`, `biometricEnabled` to false, and the hash, registration time and refresh token to null |
| UserModel.RequiredPresent | Backend/Models/user.js:5-17 | `required: true` holds iff name, email and password hash are each non-empty |
| UserModel.HashModified | Backend/Models/user.js:46 | on a new document the hash counts as modified iff it is set; on a stored one, iff it differs from the stored hash |
| UserModel.PreSave | Backend/Models/user.js:45-53 | the hook changes only `biometricRegisteredAt`. It stamps `now` when the hash is modified, truthy and no time is recorded. It keeps an existing time. It clears the time whenever the hash is falsy |
| UserModel.PreSaveKeepsRegistered | Backend/Models/user.js:45-53 | after the hook, a registration time is recorded exactly while a hash is, for any edit that leaves the loaded time alone |
| UserModel.PreSaveUnmodifiedIsIdentity | Backend/Models/user.js:45-53 | on a consistent record whose hash did not change, the hook changes nothing |
| UserModel.IndexedIsUniqueIndex | Backend/Models/user.js:12 | under `Indexed`, the index's keys are exactly the stored emails and its values exactly the stored ids |
| UserModel.EmailFree | Backend/Models/user.js:12 | the unique index admits a document iff no index entry of another record carries its email |
| UserModel.EmailsUnique | Backend/Models/user.js:9-13 | under the unique index, two records with the same email are the same record |
| UserModel.ReindexedIsIndexed | Backend/Models/user.js:9-13 | writing a document whose email is free (or already its own) keeps the index exact |
| UserModel.ReindexedUnchangedEmail | Backend/Models/user.js:9-13 | re-saving a record under its own email leaves the index as it is |
| UserModel.WriteKeepsInvariant | Backend/Models/user.js:4-53 | a write that passes validation, with the hook run on it, keeps the index exact, the required fields present and the hook's invariant |
| UserModel.UserStore.FindByEmail | Backend/Controllers/AuthController.js:38 | `findOne({email})` finds a record iff one has that email. When it finds one, that record is the stored one with that email |
| UserModel.UserStore.NewId | Backend/Controllers/AuthController.js:61 | a new document receives an id that no stored record has |
| UserModel.UserStore.Save | Backend/Models/user.js:4-53 | the save succeeds iff the required fields are non-empty and the email is unused or its own. On success the record written is the hook's result and the index is updated. On failure nothing changes |
| CartRoutes.FindIndex | Backend/Routes/cartRoutes.js:29 | `findOne` gives the first row with the key, or none when no row has it |
| CartRoutes.ItemsOf | Backend/Routes/cartRoutes.js:64 | `find({userId})` gives only that user's rows, and no more rows than the collection has |
| CartRoutes.DropUser | Backend/Routes/cartRoutes.js:161 | after `deleteMany({userId})` no row of that user is left |
| CartRoutes.RemoveAt | Backend/Routes/cartRoutes.js:127 | deleting row `i` keeps the rows before and after it, in order |
| CartRoutes.TableKeys | Backend/Routes/cartRoutes.js:29 | the keys of the table are exactly the keys of the rows |
| CartRoutes.TableAt | Backend/Routes/cartRoutes.js:29-33 | in a collection without duplicate pairs, each row's quantity is its key's quantity |
| CartRoutes.FindIndexAgreesWithTable | Backend/Routes/cartRoutes.js:29-32 | `findOne` finds a row iff the table holds the key, and that row carries the key's quantity |
| CartRoutes.TableSetQuantity | Backend/Routes/cartRoutes.js:97-101 | setting one row's quantity sets its key's quantity and leaves every other entry |
| CartRoutes.TableRemoveAt | Backend/Routes/cartRoutes.js:127 | deleting one row removes its key and leaves every other entry |
| CartRoutes.TableAppend | Backend/Routes/cartRoutes.js:36-42 | inserting a row with a new key adds that key and leaves every other entry |
| CartRoutes.RemoveAtUnique | Backend/Routes/cartRoutes.js:127 | deleting a row keeps the pairs unique |
| CartRoutes.AppendUnique | Backend/Routes/cartRoutes.js:36-42 | inserting a row with a new key keeps the pairs unique |
| CartRoutes.DropUserSubset | Backend/Routes/cartRoutes.js:161 | every row `deleteMany` leaves was a row before |
| CartRoutes.DropUserUnique | Backend/Routes/cartRoutes.js:161 | `deleteMany` keeps the pairs unique |
| CartRoutes.ItemsOfEmpty | Backend/Routes/cartRoutes.js:148-152 | a user's cart is empty iff no row belongs to that user |
| CartRoutes.DropUserKeepsOthers | Backend/Routes/cartRoutes.js:161 | after `deleteMany({userId})` that user has no rows, and every other user has exactly the rows they had, in order |
| CartRoutes.ItemsOfPartition | Backend/Routes/cartRoutes.js:148-161 | the rows bought and the rows left are, as a multiset, the whole collection |
| CartRoutes.TableDropUser | Backend/Routes/cartRoutes.js:161 | as a table, `deleteMany({userId})` removes exactly that user's keys and keeps every other entry |
| CartRoutes.FormatLine | Backend/Routes/cartRoutes.js:66-71 | a listed row keeps its quantity. A missing product gives a null productId, title `Product not found` and price 0. A product with an empty title is listed as `Product not found` |
| CartRoutes.PurchaseLines | Backend/Routes/cartRoutes.js:165-170 | one line per bought row, in order, with the product's id, title and price and the row's quantity |
| CartRoutes.CartTable.Add | Backend/Routes/cartRoutes.js:13-46 | 400 with no change when userId, productId or quantity is missing or falsy (quantity 0 included), or when an id is invalid, in that order. An existing pair's quantity grows by the amount in its own row, and every row keeps its position. A new pair gets exactly one row, appended with the amount. Every other entry is unchanged, and the reply is 201 |
| CartRoutes.CartTable.Get | Backend/Routes/cartRoutes.js:58-73 | reads only. 400 on an invalid id. Otherwise one line per row of the user, in order, each formatted by `FormatLine` |
| CartRoutes.CartTable.Update | Backend/Routes/cartRoutes.js:84-107 | 400 on missing fields (a null quantity, but not 0) or invalid ids, with no change. A quantity below 1 deletes the pair's row if present (the other rows keep their order) and answers 200 either way. Otherwise an absent pair gives 404 with no change, and a present pair's quantity is set exactly in its own row, in place, with the updated row returned |
| CartRoutes.CartTable.Remove | Backend/Routes/cartRoutes.js:119-133 | 400 on missing fields or invalid ids. 404 with no change when the pair is absent. Otherwise exactly that pair's row is deleted, the other rows keep their order, and nothing else changes |
| CartRoutes.CartTable.BuyAll | Backend/Routes/cartRoutes.js:144-171 | 400 on an invalid id. 404 with no change on an empty cart. Otherwise all of that user's rows are deleted and the other users' entries are untouched. The reply is 200 with every bought row when all products exist, and 500 (cart already cleared) when one does not |
| Scenarios.SignupTwice | Backend/Controllers/AuthController.js:38-41 | on a fresh store a signup succeeds with the role given by the admin-email rule, and a second signup with the same email gives 409 |
| Scenarios.AdminBootstrap | Backend/Controllers/AuthController.js:95-117 | on a fresh store other credentials give 403. The admin credentials give 200 as `Admin User` with role admin and biometric off, and the same credentials log into that record afterwards |
| Scenarios.BiometricLifecycle | Backend/Controllers/AuthController.js:56-59 | data enrolled at signup logs in (200). After removal the status is false, and biometric login gives 403 "not enabled" |
| Scenarios.RefreshOnce | Backend/Controllers/AuthController.js:313-322 | the signup refresh token refreshes once within seven days. Replaying it then gives 403 whenever the rotated token differs from it |
| Scenarios.LogoutRevokes | Backend/Controllers/AuthController.js:341-345 | after logout the logged-out refresh token gives 403 |
| Scenarios.LogoutTwice | Backend/Controllers/AuthController.js:338-351 | logging out twice with the same token answers 200 both times |
| Scenarios.CartPurchase | Backend/Routes/cartRoutes.js:29-35 | adding 2 and then 3 of a product gives one row of 5. Buying lists that one row, and a second purchase finds the cart empty (404) |

## Left out

- The internals of bcrypt, SHA-256 and JWT are not modelled. They are foreign functions restricted by the laws in `Primitives.Lawful`. SHA-256 is not assumed injective, so two different assertions may share a digest.
- Real time is not modelled: the clock is a `now` parameter in whole seconds, and bcrypt's random salt is a `salt` parameter.
- Most 500 paths are left out: exceptions from the database, bcrypt or the driver, the `error.message` in the cart's 500 bodies, and the logging. What remains is the 500 of a failed save in signup and in the admin bootstrap, and buy-all's 500 on a missing product.
- Mongo ObjectIds are not modelled as such. User ids are natural numbers handed out by a counter (`UserStore.NewId`). Cart ids are strings, with `mongoose.Types.ObjectId.isValid` as the abstract predicate `validId`. Two spellings of one ObjectId (hex case), and the CastError a malformed id raises in `findById` or a cart filter, are left out.
- Request bodies of the wrong JSON type are left out: a number for an email, a string quantity that `+=` would concatenate, a fractional quantity. Missing string fields of signup and login arrive as "". A missing password, on which `bcrypt.hash` throws, is not modelled.
- Concurrency is left out: the handlers' read-modify-write sequences are modelled one request at a time.
- The schema's `timestamps` (`createdAt`, `updatedAt`) are left out.
- Backend/Models/cartModel.js and Backend/Models/Product.js are not part of this model. The cart's (userId, productId) uniqueness is therefore an invariant the handlers keep, not a declared index. `populate` is a lookup in a map from product id to title and price.
- AuthController.AuthService.Logout: when several records store the same token, `findOne`'s choice of record (natural order) is not modelled; the contract says one of them is cleared.
- Scenarios.RefreshOnce: two tokens signed over the same claims in the same second may be identical, so the replay property is stated only for a rotated token that differs from the old one.
- The frontend, the routers, the validation middleware and `UserController` are outside this model. So is the `success` flag of each body, which follows from the payload's tag.
