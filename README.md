# Authentication handlers of express-jwt-auth, modelled in Dafny

This project models the authentication controller of an Express service
(`controllers/user.controller.ts`): two-step registration through a signed activation token, login,
logout, access-token refresh, profile and password updates, and the password-reset flow. Together the
handlers form a small state machine over two pieces of shared state:

- the **user store** (MongoDB through Mongoose): id to user record, searched by email;
- the **session cache** (Redis): id to a serialized snapshot of the user.

Every handler runs a fixed sequence of guards. The first guard that fails decides the error message and
status code. Otherwise the handler changes fields of the loaded record, saves it, and writes or deletes the
cache entry.

Files:

- `jwt.dfy`, module `Jwt`: tokens without cryptography. A signed token records its claims, its secret and
  its expiry. `Verify` checks the secret, then the expiry, and reports jsonwebtoken's error messages.
- `users.dfy`, module `Users`: the user record, the pending registration, the claims of the activation,
  session and reset tokens, the cache snapshot, replies, and the outcomes of mail and cache calls.
- `activation_code.dfy`, module `ActivationCode`: the four-digit activation code. It is the decimal
  `toString` of `1000 + draw`, and `Parse` is its inverse in both directions.
- `handlers.dfy`, module `Handlers`: one function per handler, from the state before to the state after
  and the reply. Each contract says which guard produces which error, that failures change nothing, what a
  success changes and what it leaves alone, and that the store invariant is kept. The invariant says
  records are filed under their own id, emails are unique, and snapshots are filed under their user's id.
- `properties.dfy`, module `Properties`: properties that relate several calls.
- `controller.dfy`, module `Controller`: class `UserController`, whose fields are the store and the cache.
  Its methods follow the source step by step (load, guard, set fields on the loaded copy, save, write the
  cache). Each method is proved to reach the state and reply of its `Handlers` function.

Conventions:

- Times are milliseconds. As jsonwebtoken does, a token signed at `now` is stamped with the whole second
  `IssuedAt(now)` (the time rounded down to a second) and expires at `IssuedAt(now) + ttl`. Two tokens
  with the same claims, secret and lifetime signed in the same second are the same token.
  jsonwebtoken treats a token as expired once the clock reaches its expiry.
- A request field that is missing or empty is the empty string, since JavaScript treats both as false.
  A missing token is `Raw("")`.
- The random draw, the clock, the id the store gives a new record, and the outcomes of sending mail and
  of writing the cache are all parameters.

## Model

| member | source | states |
|---|---|---|
| `Jwt.IssuedAt` | controllers/user.controller.ts:81-90 | the `iat` stamp is the signing time rounded down to a whole second: a multiple of 1000 ms, at most the time itself and less than a second before it |
| `Jwt.Sign` | controllers/user.controller.ts:81-90 | a signed token verifies under its own secret with its claims exactly until `ttl` after the second it was signed in, is refused as expired from then on, and is refused with "invalid signature" under any other secret |
| `Jwt.Verify` | controllers/user.controller.ts:202-205 | a token verifies exactly when it was signed with the given secret and has not expired, and then gives back its claims; otherwise the reply is one of jsonwebtoken's messages |
| `Jwt.SameSecondSameToken` | controllers/user.controller.ts:382-384 | signing the same claims with the same secret and lifetime gives the same token exactly when both signings fall in the same second |
| `ActivationCode.ToDecimal` | controllers/user.controller.ts:79 | `toString` of a non-negative integer is a non-empty string of digits, one digit long exactly for values below 10, with no leading zero |
| `ActivationCode.FromDraw` | controllers/user.controller.ts:79 | the activation code is four digits with a non-zero first digit, and its value is `1000 + draw`, so it lies in 1000..9999 |
| `ActivationCode.ParseToDecimal` | controllers/user.controller.ts:79 | round trip: parsing the decimal string of `n` gives back `n` |
| `ActivationCode.ToDecimalParse` | controllers/user.controller.ts:79 | round trip: a canonical decimal numeral is exactly the `toString` of its value |
| `ActivationCode.DecimalLength` | controllers/user.controller.ts:79 | the decimal string of `n` has `k` digits exactly when `10^(k-1) <= n < 10^k` |
| `ActivationCode.CodeHasDraw` | controllers/user.controller.ts:79 | every four-digit code with a non-zero first digit is produced by exactly one draw |
| `Handlers.FindByEmail` | controllers/user.controller.ts:152 | `findOne({ email })` finds a record exactly when some record has that email, and the record it finds has it |
| `Handlers.FindByEmailUnique` | controllers/user.controller.ts:152 | with unique emails, the record found by email is the one record that has it |
| `Handlers.NewUser` | controllers/user.controller.ts:122-126 | the created record has the given id, the pending name and email, the default role "user", accepts the pending password, and holds no reset fields |
| `Handlers.ResetSecret` | controllers/user.controller.ts:381 | the reset secret is the user's id followed by the access-token secret, so no other user id gives the same secret |
| `Handlers.ResetToken` | controllers/user.controller.ts:382-384 | the reset token carries the user's id, verifies under that user's reset secret until 15 minutes after the second it was signed in, and is refused under any other secret |
| `Handlers.CreateActivationToken` | controllers/user.controller.ts:78-93 | the code is a four-digit string worth `1000 + draw`; the token carries the pending registration and that code, and verifies under the activation secret until 5 minutes after the second it was issued in |
| `Handlers.RegistrationUser` | controllers/user.controller.ts:24-71 | an email that any stored user has gives "Email already exist" and no token; a failed mail gives the mailer's message; otherwise the client gets a 5-minute token with the name, email, password and the code mailed to that email; the store is never touched |
| `Handlers.ActivateUser` | controllers/user.controller.ts:99-135 | a token that does not verify gives jsonwebtoken's message; a code other than the embedded one gives "Invalid activation code"; an email already on file gives "Email already Exist"; in all these cases nothing changes; otherwise exactly one record is added, with the token's name, email and password, and the cache is untouched; the invariant is kept |
| `Handlers.LoginUser` | controllers/user.controller.ts:144-166 | "Please enter the email and password" exactly when a field is empty; every other failure (no such user, wrong role, wrong password) gives the same "Please enter valid email and password"; a success returns a stored record with that email, role and password |
| `Handlers.LogoutUser` | controllers/user.controller.ts:173-195 | the store is untouched; the cache loses the key of the current user id when that id is non-empty, and only that key; logout always succeeds |
| `Handlers.UpdateAccessToken` | controllers/user.controller.ts:198-244 | a refresh token that does not verify gives jsonwebtoken's message; a token whose id has no cache entry gives "Could not refresh token"; a cached `null` gives the `TypeError` message of reading `_id` of `null`; success exactly when the token's id has a cached snapshot; the new access and refresh tokens carry the snapshot's `_id` and verify until 60 minutes and 3 days after the second of the refresh; the cache is not written |
| `Handlers.UpdateUserInfo` | controllers/user.controller.ts:266-295 | an email that matches any record, the user's own included, gives "Email already exist" before anything changes; otherwise only the supplied name and email of that record change; a successful cache write stores the saved record as loaded (without the password), or `null` when there is no record; a failed cache write gives its message with the store already saved; the invariant is kept |
| `Handlers.UpdatePassword` | controllers/user.controller.ts:303-359 | a missing field, a new password under 8 characters, a missing user or stored password, and a wrong old password give their own messages in that order and change nothing; otherwise only the stored password changes; the cache then mirrors the saved record, or, when the cache write fails, the reply is the 500 error with the new password already stored |
| `Handlers.SendPasswordResetEmail` | controllers/user.controller.ts:363-434 | an empty email or an email no user has changes nothing; otherwise only the reset token (signed with `id + ACCESS_TOKEN` for 15 minutes) and the expiry `now + 900000` of that record change, before the mail; a failed mail gives the 500 error and leaves both fields set |
| `Handlers.ResetPassword` | controllers/user.controller.ts:442-518 | the reset succeeds exactly when all seven checks pass; each error message is given exactly when the checks before it pass and its own check fails; every failure changes nothing; a success sets the password, clears both reset fields, changes nothing else and leaves the cache alone |
| `Properties.LoginSucceedsIff` | controllers/user.controller.ts:148-166 | with unique emails, login succeeds exactly when both fields are present and some record matches email, role and password |
| `Properties.LoginReturnsRecord` | controllers/user.controller.ts:152-168 | the stored credentials of a record log in to that record |
| `Properties.RegisterThenActivate` | controllers/user.controller.ts:29-126 | registering and then activating with the mailed code before the token expires adds exactly one record; activating with the same token again fails with "Email already Exist"; the new record can log in with role "user" |
| `Properties.ExpiredActivationRefused` | controllers/user.controller.ts:105-108 | an activation token presented 5 minutes or more after registration is refused as expired whatever the code, and nothing changes |
| `Properties.LogoutRevokesRefresh` | controllers/user.controller.ts:180-215 | after logout, a refresh token for that user id is refused with "Could not refresh token" although it still verifies |
| `Properties.RefreshRotates` | controllers/user.controller.ts:212-229 | the refresh token a refresh issues refreshes again for the same user until it expires while the cache entry stays, and a second refresh gives the same access token exactly when it falls in the same second as the first |
| `Properties.WeakPasswordKeepsCredential` | controllers/user.controller.ts:316-323 | a new password of fewer than 8 characters is refused and store and cache stay as they were |
| `Properties.UpdatePasswordThenLogin` | controllers/user.controller.ts:336-338 | once the password update passes its guards, login works with the new password and no longer with a different old one, whether or not the cache write failed |
| `Properties.UpdateInfoRefusesOwnEmail` | controllers/user.controller.ts:273-277 | resubmitting the user's own current email is refused as "Email already exist" |
| `Properties.ResetTokenLifetime` | controllers/user.controller.ts:381-389 | the stored reset token verifies under the user's reset secret until 15 minutes after the second it was signed in, which is no later than the stored expiry and less than a second before it |
| `Properties.ResetIsSingleUse` | controllers/user.controller.ts:381-518 | a reset link used before the token expires sets the new password and clears both fields; replaying it fails with "Invalid or expired reset token." and changes nothing |
| `Properties.ResetLinkExpires` | controllers/user.controller.ts:484-494 | a reset link used 15 minutes or more after the request is refused and changes nothing |
| `Properties.StoredExpiryCheckUnreachable` | controllers/user.controller.ts:489-503 | for the token a request stored, the reply is never "Reset token has expired", because the token check before it already refuses the token from that instant on |
| `Properties.ExpiryInstantAccepted` | controllers/user.controller.ts:496-503 | the stored-expiry check uses a strict `<`, so a reset at exactly the expiry instant passes it |
| `Properties.NewerRequestSupersedes` | controllers/user.controller.ts:387-389 | after a second reset request in a later second, the first link fails the stored-token check even though it has not expired |
| `Properties.SameSecondRequestsShareLink` | controllers/user.controller.ts:381-389 | two reset requests in the same second store the same token, so the first link still resets the password |
| `Properties.ForeignResetTokenRejected` | controllers/user.controller.ts:487-494 | a reset link signed for one user is refused with "invalid signature" under any other user's reset secret |
| `Properties.ResetKeepsSessions` | controllers/user.controller.ts:514-518 | a reset neither writes nor deletes the cache: refresh answers as before, and a snapshot that mirrored the record keeps the old password |
| `Controller.UserController.constructor` | controllers/user.controller.ts:10-15 | a controller starts with an empty store and cache, which satisfy the invariant |
| `Controller.UserController.RegistrationUser` | controllers/user.controller.ts:24-71 | replies as `Handlers.RegistrationUser` and changes nothing |
| `Controller.UserController.ActivateUser` | controllers/user.controller.ts:99-135 | ends in the state and reply of `Handlers.ActivateUser` and keeps the invariant |
| `Controller.UserController.LoginUser` | controllers/user.controller.ts:144-170 | replies as `Handlers.LoginUser` and changes nothing |
| `Controller.UserController.LogoutUser` | controllers/user.controller.ts:173-195 | ends in the state and reply of `Handlers.LogoutUser` and keeps the invariant |
| `Controller.UserController.UpdateAccessToken` | controllers/user.controller.ts:198-244 | replies as `Handlers.UpdateAccessToken` and changes nothing |
| `Controller.UserController.UpdateUserInfo` | controllers/user.controller.ts:266-295 | loads the record without its password, sets the supplied fields, saves them and writes the snapshot; ends as `Handlers.UpdateUserInfo` and keeps the invariant |
| `Controller.UserController.UpdatePassword` | controllers/user.controller.ts:303-359 | ends in the state and reply of `Handlers.UpdatePassword` and keeps the invariant |
| `Controller.UserController.SendPasswordResetEmail` | controllers/user.controller.ts:363-434 | saves the two reset fields on the loaded record before mailing; ends as `Handlers.SendPasswordResetEmail` and keeps the invariant |
| `Controller.UserController.ResetPassword` | controllers/user.controller.ts:442-549 | ends in the state and reply of `Handlers.ResetPassword` and keeps the invariant |

## Behaviour worth noting

The model follows the code in each of these cases.

- `updateAccessToken` only reads the session cache. It issues a new token pair but never rewrites the
  snapshot (`Handlers.UpdateAccessToken`).
- `updateUserInfo` refuses any email already on file, including the user's own current email
  (`Properties.UpdateInfoRefusesOwnEmail`).
- `resetPassword` neither rewrites nor deletes the cache entry. The snapshot goes stale and existing
  sessions keep refreshing after a reset (`Properties.ResetKeepsSessions`).
- The "Reset token has expired" branch never fires for the token a request stored
  (`Properties.StoredExpiryCheckUnreachable`). `jwt.sign` sets the token's expiry from its own clock
  reading, rounded down to whole seconds, plus 15 minutes. The stored expiry comes from a later clock
  reading plus 15 minutes. So the token expires no later than the stored expiry. (The model uses one clock
  reading per request, so the token expires less than a second before the stored expiry, or at it.) The stored-expiry check only fires once the clock
  is past the stored expiry, and by then `jwt.verify`, which runs first, already refuses the token.
- `updateUserInfo` without a record for the current id still replies with success. It caches `null`, and
  a later refresh for that id fails with the `TypeError` message of reading `_id` of `null`
  (`Handlers.UpdateAccessToken`).

## Left out

- `app.ts`: Express wiring, JSON and cookie middleware, the rate limiter, the 404 route and the error
  middleware are HTTP plumbing.
- Cryptography of jsonwebtoken: tokens are abstract values. The `Date.now()` calls of one request are
  one clock reading `now`. The `TokenExpiredError` / `JsonWebTokenError` branches of the last catch
  (controllers/user.controller.ts:524-546) are not reached by any modelled path.
- Jwt.Verify: every string that `jwt.sign` did not produce is refused with "jwt malformed" (or "jwt must
  be provided" when empty). jsonwebtoken gives "jwt malformed" only to a string without three
  dot-separated parts; a three-part string gets "invalid token", "jwt signature is required" or "invalid
  signature" depending on which part is wrong. The model does not tell forged tokens apart, so for a
  tampered token the reply's message may differ from the source's.
- Cookies, response bodies and success status codes are left out. A reply keeps only its payload, or the
  error message and status.
- `sendToken` (utlis/jwt) and `getUserById` (services/user.service) are not part of this model. So login
  stops at the record it hands to `sendToken`, and any cache write done there is not modelled.
  `getUserInfo` is not modelled.
- The user schema (models/user.model) is not part of this model. The password-hashing hook is abstracted
  away: `comparePassword` compares the candidate with the password that was set. A new record gets the
  role "user". Schema validation is not modelled.
- Store and cache failures other than the modelled cache writes are not modelled: `save`/`create`
  errors, Mongoose cast errors for malformed ids, template rendering errors, and the 500 catch-alls.
- Mail delivery is the outcome parameter `Io`. `console.log` output is not modelled.
- A filter field that is `undefined` is not distinguished from an empty string. Mongoose would drop an
  undefined filter and `findOne` would then match any record.
- In `loginUser`, `comparePassword` throws for a record without a stored password. The model answers
  "Please enter valid email and password" instead.
- Password lengths count Dafny characters, not UTF-16 code units.
- The unreachable guard `if (!decoded)` (controllers/user.controller.ts:208-210) has no counterpart.
- `redis.del` is not awaited in logout; the model lets it complete before the reply.
- Concurrent requests are not modelled: each handler runs alone on the state.
