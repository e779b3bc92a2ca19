/**
  Properties that relate several handler calls: the registration round trip, login, session revocation
  by logout, token rotation on refresh, and the single use and expiry of reset links.
 */
module Properties {
  import opened Jwt
  import opened Users
  import opened Handlers

  /** With unique emails, login succeeds exactly when some record matches email, password and role. */
  lemma LoginSucceedsIff(s: State, email: string, password: string, role: string)
    requires UniqueEmails(s.store)
    ensures LoginUser(s, email, password, role).Ok? <==>
              email != "" && password != ""
              && exists id :: id in s.store && Authenticates(s.store[id], email, password, role)
  {
  }

  /** Login with the credentials of the record filed under `id` returns that record. */
  lemma LoginReturnsRecord(s: State, id: Id, password: string)
    requires Valid(s) && id in s.store
    requires s.store[id].email != "" && password != "" && PasswordMatches(s.store[id], password)
    ensures LoginUser(s, s.store[id].email, password, s.store[id].role) == Ok(s.store[id])
  {
  }

  /**
    Registration followed by activation with the mailed code, within five minutes, creates exactly one
    record with the registered name, email and password; the same token cannot create a second one, and
    the new record can log in.
   */
  lemma RegisterThenActivate(env: Env, s: State, name: string, email: string, password: string,
                             draw: int, now: int, later: int, newId: Id, otherId: Id)
    requires Valid(s)
    requires 0 <= draw < 9000
    requires !EmailTaken(s.store, email)
    requires later < IssuedAt(now) + ActivationTtl
    requires newId !in s.store && otherId !in s.store && otherId != newId
    ensures
      var reg := RegistrationUser(env, s, name, email, password, draw, now, Done);
      && reg.Ok?
      && var first := ActivateUser(env, s, reg.value.activationToken, reg.value.mailedCode, newId, later);
      && first.reply == Ok(NewUser(newId, Pending(name, email, password)))
      && first.state == State(s.store[newId := NewUser(newId, Pending(name, email, password))], s.cache)
      && ActivateUser(env, first.state, reg.value.activationToken, reg.value.mailedCode, otherId, later)
         == Step(first.state, Err(EmailExistsOnActivation, 400))
      && (email != "" && password != "" ==>
            LoginUser(first.state, email, password, DefaultRole) == Ok(NewUser(newId, Pending(name, email, password))))
  {
  }

  /** An activation token presented five minutes or more after it was issued is refused, whatever the code. */
  lemma ExpiredActivationRefused(env: Env, s: State, user: Pending, draw: int, now: int, later: int,
                                 code: string, newId: Id)
    requires 0 <= draw < 9000
    requires now + ActivationTtl <= later
    requires newId !in s.store
    ensures ActivateUser(env, s, CreateActivationToken(env, user, draw, now).token, code, newId, later)
            == Step(s, Err(ExpiredMessage, 400))
  {
  }

  /**
    Logout revokes refresh: once the current user's cache entry is gone, a refresh token for that user is
    refused although it still verifies.
   */
  lemma LogoutRevokesRefresh(env: Env, s: State, userId: Id, refreshToken: AuthToken, now: int)
    requires userId != ""
    requires Verify(refreshToken, env.refreshSecret, now) == Decoded(SessionClaims(userId))
    ensures UpdateAccessToken(env, LogoutUser(s, userId).state, refreshToken, now) == Err(CouldNotRefresh, 400)
  {
  }

  /**
    A successful refresh keeps the session usable: the refresh token it issues refreshes again for the
    same user until it expires, as long as the cache entry stays. A refresh in another second issues a
    different access token; within the same second jsonwebtoken signs the identical one.
   */
  lemma RefreshRotates(env: Env, s: State, refreshToken: AuthToken, now: int, later: int)
    requires Valid(s)
    requires ActiveSession(env, s, refreshToken, now)
    requires later < IssuedAt(now) + RefreshTtl
    ensures
      var first := UpdateAccessToken(env, s, refreshToken, now);
      var id := Verify(refreshToken, env.refreshSecret, now).claims.id;
      && first.Ok?
      && Verify(first.value.refreshToken, env.refreshSecret, later) == Decoded(SessionClaims(id))
      && var second := UpdateAccessToken(env, s, first.value.refreshToken, later);
      && second.Ok?
      && Verify(second.value.accessToken, env.accessSecret, later) == Decoded(SessionClaims(id))
      && (second.value.accessToken == first.value.accessToken <==> later / 1000 == now / 1000)
  {
  }

  /** A new password of fewer than eight characters leaves the stored credential and the cache as they were. */
  lemma WeakPasswordKeepsCredential(s: State, userId: Id, oldPassword: string, newPassword: string, cacheWrite: Io)
    requires oldPassword != "" && newPassword != "" && |newPassword| < MinPasswordLength
    ensures UpdatePassword(s, userId, oldPassword, newPassword, cacheWrite) == Step(s, Err(WeakNewPassword, 400))
  {
  }

  /**
    After a password update passed its guards, login works with the new password and no longer with a
    different old one, even when the cache write failed.
   */
  lemma UpdatePasswordThenLogin(s: State, userId: Id, oldPassword: string, newPassword: string, cacheWrite: Io)
    requires Valid(s)
    requires PasswordUpdateAllowed(s, userId, oldPassword, newPassword)
    requires s.store[userId].email != ""
    ensures
      var next := UpdatePassword(s, userId, oldPassword, newPassword, cacheWrite).state;
      var user := s.store[userId];
      && LoginUser(next, user.email, newPassword, user.role) == Ok(user.(password := newPassword))
      && (oldPassword != newPassword ==>
            LoginUser(next, user.email, oldPassword, user.role) == Err(InvalidCredentials, 400))
  {
  }

  /** `updateUserInfo` refuses a record's own current email, as it refuses any email already on file. */
  lemma UpdateInfoRefusesOwnEmail(s: State, userId: Id, name: string, cacheWrite: Io)
    requires userId in s.store && s.store[userId].email != ""
    ensures UpdateUserInfo(s, userId, name, s.store[userId].email, cacheWrite) == Step(s, Err(EmailExists, 400))
  {
  }

  /**
    The reset token a request stores verifies under the user's reset secret until 15 minutes after the
    second it was signed in, which is no later than the stored expiry and less than a second before it.
   */
  lemma ResetTokenLifetime(env: Env, s: State, id: Id, now: int, mail: Io)
    requires Valid(s) && id in s.store && s.store[id].email != ""
    ensures
      var user := SendPasswordResetEmail(env, s, s.store[id].email, now, mail).state.store[id];
      && user.resetPasswordToken == Some(ResetToken(env, s.store[id], now))
      && user.resetPasswordExpires == Some(now + ResetTtl)
      && ValidUntil(user.resetPasswordToken.value, ResetSecret(env, user), ResetClaims(id), IssuedAt(now) + ResetTtl)
      && user.resetPasswordExpires.value - 1000 < IssuedAt(now) + ResetTtl <= user.resetPasswordExpires.value
  {
  }

  /**
    A reset link used within 15 minutes sets the new password and clears both reset fields; used again,
    it fails because the record no longer holds a reset token, and changes nothing.
   */
  lemma ResetIsSingleUse(env: Env, s: State, id: Id, now: int, mail: Io, later: int, again: int, password: string)
    requires Valid(s) && id in s.store && id != "" && s.store[id].email != ""
    requires later < IssuedAt(now) + ResetTtl
    requires |password| >= MinPasswordLength
    ensures
      var requested := SendPasswordResetEmail(env, s, s.store[id].email, now, mail).state;
      var token := ResetToken(env, s.store[id], now);
      var confirmed := ResetPassword(env, requested, id, token, password, password, later);
      && confirmed.reply == Ok(())
      && confirmed.state.store[id].password == password
      && confirmed.state.store[id].resetPasswordToken == None
      && confirmed.state.store[id].resetPasswordExpires == None
      && ResetPassword(env, confirmed.state, id, token, password, password, again)
         == Step(confirmed.state, Err(InvalidOrExpired, 400))
  {
  }

  /** A reset link used 15 minutes or more after the request is refused and changes nothing. */
  lemma ResetLinkExpires(env: Env, s: State, id: Id, now: int, mail: Io, later: int, password: string)
    requires Valid(s) && id in s.store && id != "" && s.store[id].email != ""
    requires now + ResetTtl <= later
    requires |password| >= MinPasswordLength
    ensures
      var requested := SendPasswordResetEmail(env, s, s.store[id].email, now, mail).state;
      ResetPassword(env, requested, id, ResetToken(env, s.store[id], now), password, password, later)
      == Step(requested, Err(InvalidOrExpired, 400))
  {
  }

  /**
    For the token a request stored, the stored-expiry check never decides: the token expires no later than
    the stored expiry, and the signature-and-expiry check runs first.
   */
  lemma StoredExpiryCheckUnreachable(env: Env, s: State, id: Id, now: int, mail: Io, later: int,
                                     password: string, confirmPassword: string)
    requires Valid(s) && id in s.store && s.store[id].email != ""
    ensures
      var requested := SendPasswordResetEmail(env, s, s.store[id].email, now, mail).state;
      ResetPassword(env, requested, id, ResetToken(env, s.store[id], now), password, confirmPassword, later).reply
      != Err(ResetExpired, 400)
  {
  }

  /** The stored-expiry check is strict: at the very instant of expiry it still lets the reset through. */
  lemma ExpiryInstantAccepted(env: Env, s: State, id: Id, token: AuthToken, password: string, now: int)
    requires ResetRequestWellFormed(id, token, password, password)
    requires HasResetRecord(s, id)
    requires s.store[id].resetPasswordToken.value == token
    requires s.store[id].resetPasswordExpires.value == now
    requires Verify(token, ResetSecret(env, s.store[id]), now).Decoded?
    ensures ResetPassword(env, s, id, token, password, password, now).reply == Ok(())
  {
  }

  /**
    A second reset request in a later second supersedes the first: the first link, still unexpired, fails
    the stored-token check.
   */
  lemma NewerRequestSupersedes(env: Env, s: State, id: Id, first: int, second: int, mail1: Io, mail2: Io,
                               later: int, password: string)
    requires Valid(s) && id in s.store && id != "" && s.store[id].email != ""
    requires first / 1000 < second / 1000 && later < IssuedAt(first) + ResetTtl
    requires |password| >= MinPasswordLength
    ensures
      var once := SendPasswordResetEmail(env, s, s.store[id].email, first, mail1).state;
      var twice := SendPasswordResetEmail(env, once, s.store[id].email, second, mail2).state;
      ResetPassword(env, twice, id, ResetToken(env, s.store[id], first), password, password, later)
      == Step(twice, Err(ResetTokenMismatch, 400))
  {
  }

  /**
    Two reset requests in the same second store the same token, so the link of the first one still
    resets the password.
   */
  lemma SameSecondRequestsShareLink(env: Env, s: State, id: Id, first: int, second: int, mail1: Io, mail2: Io,
                                    later: int, password: string)
    requires Valid(s) && id in s.store && id != "" && s.store[id].email != ""
    requires first / 1000 == second / 1000 && later < IssuedAt(first) + ResetTtl
    requires |password| >= MinPasswordLength
    ensures
      var once := SendPasswordResetEmail(env, s, s.store[id].email, first, mail1).state;
      var twice := SendPasswordResetEmail(env, once, s.store[id].email, second, mail2).state;
      ResetPassword(env, twice, id, ResetToken(env, s.store[id], first), password, password, later).reply == Ok(())
  {
  }

  /** A reset link signed for one user is refused under the reset secret of any other user. */
  lemma ForeignResetTokenRejected(env: Env, a: User, b: User, now: int, later: int)
    requires a.id != b.id
    ensures Verify(ResetToken(env, a, now), ResetSecret(env, b), later) == Rejected(SignatureMessage)
  {
  }

  /**
    A password reset neither refreshes nor drops the session snapshot: refresh answers as before, and a
    snapshot that mirrored the record now holds the old password.
   */
  lemma ResetKeepsSessions(env: Env, s: State, id: Id, token: AuthToken, password: string, now: int,
                           refreshToken: AuthToken, at: int)
    requires ResetAccepted(env, s, id, token, password, password, now)
    ensures
      var after := ResetPassword(env, s, id, token, password, password, now).state;
      && UpdateAccessToken(env, after, refreshToken, at) == UpdateAccessToken(env, s, refreshToken, at)
      && (id in s.cache && s.cache[id] == Snap(s.store[id]) && s.store[id].password != password ==>
            after.cache[id] != Snap(after.store[id]))
  {
  }
}
