/**
  The authentication handlers of controllers/user.controller.ts as functions of the shared state: the user
  store (id to record, searched by email) and the session cache (id to snapshot). Each handler runs its
  guards in the source's order; the first guard that fails decides the reply. The clock, the random draw,
  a fresh record id and the outcomes of sending mail and of writing the cache are parameters.
 */
module Handlers {
  import opened Jwt
  import opened Users
  import ActivationCode

  // Token lifetimes and the reset window, in milliseconds.
  const ActivationTtl: nat := 5 * 60 * 1000
  const AccessTtl: nat := 60 * 60 * 1000
  const RefreshTtl: nat := 3 * 24 * 60 * 60 * 1000
  const ResetTtl: nat := 15 * 60 * 1000

  const MinPasswordLength := 8

  /** The role a record gets from the user schema when activation creates it. */
  const DefaultRole := "user"

  // Error messages, as the handlers pass them to `next`.
  const EmailExists := "Email already exist"
  const InvalidActivationCode := "Invalid activation code"
  const EmailExistsOnActivation := "Email already Exist"
  const MissingCredentials := "Please enter the email and password"
  const InvalidCredentials := "Please enter valid email and password"
  const CouldNotRefresh := "Could not refresh token"
  const NullSessionMessage := "Cannot read properties of null (reading '_id')"
  const MissingPasswords := "Please enter both the old and new passwords"
  const WeakNewPassword := "New password must be at least 8 characters long"
  const InvalidUser := "Invalid user"
  const InvalidOldPassword := "Invalid old password"
  const SessionWriteFailed := "Error updating user session in Redis"
  const EmailRequired := "Please enter your email address."
  const NoAccount := "No account found with that email address."
  const ResetMailFailed := "Failed to send reset email. Please try again later."
  const MissingIdOrToken := "Invalid request. Missing user ID or token."
  const MissingResetPasswords := "Please enter both the new password and confirmation password."
  const PasswordsDiffer := "The passwords do not match. Please try again."
  const WeakResetPassword := "The new password must be at least 8 characters long."
  const InvalidOrExpired := "Invalid or expired reset token."
  const ResetExpired := "Reset token has expired. Please request a new password reset link."
  const ResetTokenMismatch := "Invalid reset token. Please request a new password reset link."

  datatype State = State(store: map<Id, User>, cache: map<Id, Snapshot>)

  /** The state after a handler ran, and its reply. */
  datatype Step<T> = Step(state: State, reply: Reply<T>)

  /** What `createActivationToken` returns. */
  datatype ActivationToken = ActivationToken(token: AuthToken, activationCode: string)

  /** A successful registration: the token goes back to the client, the code to the inbox `mailedTo`. */
  datatype Registered = Registered(activationToken: AuthToken, mailedTo: string, mailedCode: string)

  datatype TokenPair = TokenPair(accessToken: AuthToken, refreshToken: AuthToken)

  predicate UniqueEmails(store: map<Id, User>) {
    forall a, b :: a in store && b in store && store[a].email == store[b].email ==> a == b
  }

  /**
    The invariant the store and the cache keep: records are filed under their own id, no two records
    share an email (the store's unique index), and a cached snapshot is filed under its user's id.
   */
  ghost predicate Valid(s: State) {
    && (forall id :: id in s.store ==> s.store[id].id == id)
    && UniqueEmails(s.store)
    && (forall id :: id in s.cache && s.cache[id].Snap? ==> s.cache[id].user.id == id)
  }

  /** `userModel.findOne({ email })` finds a record. */
  predicate EmailTaken(store: map<Id, User>, email: string) {
    exists id :: id in store && store[id].email == email
  }

  /** The id of the record `userModel.findOne({ email })` returns. */
  ghost function FindByEmail(store: map<Id, User>, email: string): (r: Option<Id>)
    ensures r.Some? <==> EmailTaken(store, email)
    ensures r.Some? ==> r.value in store && store[r.value].email == email
  {
    if EmailTaken(store, email) then
      var id :| id in store && store[id].email == email;
      Some(id)
    else
      None
  }

  /** With unique emails, the record found by email is the one record that has it. */
  lemma FindByEmailUnique(store: map<Id, User>, email: string, id: Id)
    requires UniqueEmails(store)
    requires id in store && store[id].email == email
    ensures FindByEmail(store, email) == Some(id)
  {
  }

  /** `token` verifies under `secret`, giving back `claims`, exactly until `expiry`. */
  ghost predicate ValidUntil(token: AuthToken, secret: string, claims: Claims, expiry: int) {
    forall now :: Verify(token, secret, now) == (if now < expiry then Decoded(claims) else Rejected(ExpiredMessage))
  }

  /** `createActivationToken`: a four-digit code, signed with the pending registration into a 5-minute token. */
  function CreateActivationToken(env: Env, user: Pending, draw: int, now: int): (r: ActivationToken)
    requires 0 <= draw < 9000
    ensures ActivationCode.IsCode(r.activationCode)
    ensures ActivationCode.AllDigits(r.activationCode) && ActivationCode.Parse(r.activationCode) == 1000 + draw
    ensures ValidUntil(r.token, env.activationSecret, ActivationClaims(user, r.activationCode), IssuedAt(now) + ActivationTtl)
  {
    var code := ActivationCode.FromDraw(draw);
    var token := Sign(ActivationClaims(user, code), env.activationSecret, now, ActivationTtl);
    ActivationToken(token, code)
  }

  /** `registrationUser`: nothing is stored; on success the client gets the token and the inbox gets the code. */
  function RegistrationUser(env: Env, s: State, name: string, email: string, password: string,
                            draw: int, now: int, mail: Io): (r: Reply<Registered>)
    requires 0 <= draw < 9000
    ensures EmailTaken(s.store, email) ==> r == Err(EmailExists, 400)
    ensures !EmailTaken(s.store, email) && mail.Failed? ==> r == Err(mail.message, 400)
    ensures r.Ok? <==> !EmailTaken(s.store, email) && mail.Done?
    ensures r.Ok? ==> r.value.mailedTo == email && ActivationCode.IsCode(r.value.mailedCode)
    ensures r.Ok? ==> ValidUntil(r.value.activationToken, env.activationSecret,
                                 ActivationClaims(Pending(name, email, password), r.value.mailedCode), IssuedAt(now) + ActivationTtl)
  {
    if EmailTaken(s.store, email) then Err(EmailExists, 400)
    else
      var issued := CreateActivationToken(env, Pending(name, email, password), draw, now);
      match mail
      case Failed(message) => Err(message, 400)
      case Done => Ok(Registered(issued.token, email, issued.activationCode))
  }

  /** The activation token verifies and carries exactly the submitted code. */
  predicate CodeAccepted(env: Env, activationToken: AuthToken, activationCode: string, now: int) {
    var v := Verify(activationToken, env.activationSecret, now);
    v.Decoded? && v.claims.ActivationClaims? && v.claims.activationCode == activationCode
  }

  /** The record `userModel.create` makes from a pending registration: schema defaults, no reset fields. */
  function NewUser(id: Id, p: Pending): (r: User)
    ensures r.id == id && r.name == p.name && r.email == p.email && r.role == DefaultRole
    ensures PasswordMatches(r, p.password)
    ensures r.resetPasswordToken.None? && r.resetPasswordExpires.None?
  {
    User(id, p.name, p.email, p.password, DefaultRole, None, None)
  }

  /** `activateUser`: creates the one record the token describes, unless the code or the email is refused. */
  function ActivateUser(env: Env, s: State, activationToken: AuthToken, activationCode: string,
                        newId: Id, now: int): (r: Step<User>)
    requires newId !in s.store
    ensures r.reply.Err? ==> r.state == s
    ensures Verify(activationToken, env.activationSecret, now).Rejected? ==>
              r.reply == Err(Verify(activationToken, env.activationSecret, now).message, 400)
    ensures Verify(activationToken, env.activationSecret, now).Decoded? ==>
              (r.reply == Err(InvalidActivationCode, 400) <==> !CodeAccepted(env, activationToken, activationCode, now))
    ensures r.reply.Ok? <==>
              CodeAccepted(env, activationToken, activationCode, now)
              && !EmailTaken(s.store, Verify(activationToken, env.activationSecret, now).claims.user.email)
    ensures CodeAccepted(env, activationToken, activationCode, now)
            && EmailTaken(s.store, Verify(activationToken, env.activationSecret, now).claims.user.email) ==>
              r.reply == Err(EmailExistsOnActivation, 400)
    ensures r.reply.Ok? ==>
              var p := Verify(activationToken, env.activationSecret, now).claims.user;
              && r.reply.value.id == newId
              && r.reply.value.name == p.name && r.reply.value.email == p.email && r.reply.value.password == p.password
              && r.state.store.Keys == s.store.Keys + {newId}
              && r.state.store[newId] == r.reply.value
              && (forall id :: id in s.store ==> r.state.store[id] == s.store[id])
              && r.state.cache == s.cache
    ensures Valid(s) ==> Valid(r.state)
  {
    match Verify(activationToken, env.activationSecret, now)
    case Rejected(message) => Step(s, Err(message, 400))
    case Decoded(claims) =>
      if !claims.ActivationClaims? || claims.activationCode != activationCode then
        Step(s, Err(InvalidActivationCode, 400))
      else if EmailTaken(s.store, claims.user.email) then
        Step(s, Err(EmailExistsOnActivation, 400))
      else
        var user := NewUser(newId, claims.user);
        Step(State(s.store[newId := user], s.cache), Ok(user))
  }

  /** The record `user` lets `email`, `password` and `role` log in. */
  predicate Authenticates(user: User, email: string, password: string, role: string) {
    user.email == email && user.role == role && PasswordMatches(user, password)
  }

  /**
    `loginUser` up to the hand-off to `sendToken`: the record that logs in. It changes nothing, and every
    failure after the empty-field guard gives the same message.
   */
  ghost function LoginUser(s: State, email: string, password: string, role: string): (r: Reply<User>)
    ensures r == Err(MissingCredentials, 400) <==> email == "" || password == ""
    ensures r.Err? && email != "" && password != "" ==> r == Err(InvalidCredentials, 400)
    ensures r.Ok? ==> r.value in s.store.Values
    ensures r.Ok? ==> Authenticates(r.value, email, password, role) && password != ""
  {
    if email == "" || password == "" then Err(MissingCredentials, 400)
    else
      match FindByEmail(s.store, email)
      case None => Err(InvalidCredentials, 400)
      case Some(id) =>
        var user := s.store[id];
        if role != user.role then Err(InvalidCredentials, 400)
        else if !PasswordMatches(user, password) then Err(InvalidCredentials, 400)
        else Ok(user)
  }

  /** `logoutUser`: drops the cache entry of the current user, when there is a current user id. */
  function LogoutUser(s: State, userId: Id): (r: Step<()>)
    ensures r.reply.Ok? && r.state.store == s.store
    ensures r.state.cache.Keys == if userId == "" then s.cache.Keys else s.cache.Keys - {userId}
    ensures forall id :: id in r.state.cache ==> r.state.cache[id] == s.cache[id]
    ensures Valid(s) ==> Valid(r.state)
  {
    if userId != "" then Step(State(s.store, s.cache - {userId}), Ok(()))
    else Step(s, Ok(()))
  }

  /** The refresh token verifies and names a user whose session snapshot is in the cache. */
  predicate ActiveSession(env: Env, s: State, refreshToken: AuthToken, now: int) {
    var v := Verify(refreshToken, env.refreshSecret, now);
    v.Decoded? && v.claims.SessionClaims? && v.claims.id in s.cache && s.cache[v.claims.id].Snap?
  }

  /** `updateAccessToken`: a new token pair for the cached snapshot's user; the cache is left as it is. */
  function UpdateAccessToken(env: Env, s: State, refreshToken: AuthToken, now: int): (r: Reply<TokenPair>)
    ensures Verify(refreshToken, env.refreshSecret, now).Rejected? ==>
              r == Err(Verify(refreshToken, env.refreshSecret, now).message, 400)
    ensures r.Ok? <==> ActiveSession(env, s, refreshToken, now)
    ensures Verify(refreshToken, env.refreshSecret, now).Decoded? && !ActiveSession(env, s, refreshToken, now) ==>
              r.Err? && r.status == 400 && r.message in {CouldNotRefresh, NullSessionMessage}
    ensures var v := Verify(refreshToken, env.refreshSecret, now);
            v.Decoded? && (!v.claims.SessionClaims? || v.claims.id !in s.cache) ==> r == Err(CouldNotRefresh, 400)
    ensures var v := Verify(refreshToken, env.refreshSecret, now);
            v.Decoded? && v.claims.SessionClaims? && v.claims.id in s.cache && s.cache[v.claims.id].NullSnapshot? ==>
              r == Err(NullSessionMessage, 400)
    ensures r.Ok? ==>
              var id := s.cache[Verify(refreshToken, env.refreshSecret, now).claims.id].user.id;
              && ValidUntil(r.value.accessToken, env.accessSecret, SessionClaims(id), IssuedAt(now) + AccessTtl)
              && ValidUntil(r.value.refreshToken, env.refreshSecret, SessionClaims(id), IssuedAt(now) + RefreshTtl)
  {
    match Verify(refreshToken, env.refreshSecret, now)
    case Rejected(message) => Err(message, 400)
    case Decoded(claims) =>
      if !claims.SessionClaims? || claims.id !in s.cache then Err(CouldNotRefresh, 400)
      else
        match s.cache[claims.id]
        case NullSnapshot => Err(NullSessionMessage, 400)
        case Snap(user) =>
          Ok(TokenPair(Sign(SessionClaims(user.id), env.accessSecret, now, AccessTtl),
                       Sign(SessionClaims(user.id), env.refreshSecret, now, RefreshTtl)))
  }

  /** The guard of `updateUserInfo`: the record exists and some record, its own included, has the new email. */
  predicate EmailConflict(s: State, userId: Id, email: string) {
    email != "" && userId in s.store && EmailTaken(s.store, email)
  }

  /** The record with the supplied fields set; an empty field is not supplied. */
  function Edited(user: User, name: string, email: string): User {
    user.(email := if email != "" then email else user.email, name := if name != "" then name else user.name)
  }

  /**
    `updateUserInfo`: sets the supplied name and email on the current user's record, saves it and
    mirrors it (as loaded, without the password) into the cache; a missing record mirrors as `null`.
   */
  function UpdateUserInfo(s: State, userId: Id, name: string, email: string, cacheWrite: Io): (r: Step<Option<User>>)
    ensures EmailConflict(s, userId, email) ==> r == Step(s, Err(EmailExists, 400))
    ensures !EmailConflict(s, userId, email) ==>
              && r.state.store.Keys == s.store.Keys
              && (forall id :: id in s.store && id != userId ==> r.state.store[id] == s.store[id])
    ensures !EmailConflict(s, userId, email) && userId in s.store ==>
              var before, after := s.store[userId], r.state.store[userId];
              && after.name == (if name == "" then before.name else name)
              && after.email == (if email == "" then before.email else email)
              && after.(name := before.name, email := before.email) == before
    ensures !EmailConflict(s, userId, email) && cacheWrite.Failed? ==>
              r.reply == Err(cacheWrite.message, 400) && r.state.cache == s.cache
    ensures !EmailConflict(s, userId, email) && cacheWrite.Done? ==>
              var saved := if userId in s.store then Some(PublicView(r.state.store[userId])) else None;
              && r.reply == Ok(saved)
              && r.state.cache.Keys == s.cache.Keys + {userId}
              && (forall id :: id in s.cache && id != userId ==> r.state.cache[id] == s.cache[id])
              && r.state.cache[userId] == (if saved.Some? then Snap(saved.value) else NullSnapshot)
    ensures Valid(s) ==> Valid(r.state)
  {
    if EmailConflict(s, userId, email) then Step(s, Err(EmailExists, 400))
    else
      var store := if userId in s.store then s.store[userId := Edited(s.store[userId], name, email)] else s.store;
      match cacheWrite
      case Failed(message) => Step(State(store, s.cache), Err(message, 400))
      case Done =>
        if userId in s.store then
          var loaded := PublicView(store[userId]);
          Step(State(store, s.cache[userId := Snap(loaded)]), Ok(Some(loaded)))
        else
          Step(State(store, s.cache[userId := NullSnapshot]), Ok(None))
  }

  /** Every guard of `updatePassword` passes. */
  predicate PasswordUpdateAllowed(s: State, userId: Id, oldPassword: string, newPassword: string) {
    && oldPassword != "" && newPassword != ""
    && |newPassword| >= MinPasswordLength
    && userId in s.store && s.store[userId].password != ""
    && PasswordMatches(s.store[userId], oldPassword)
  }

  /**
    `updatePassword`: after its four guards, saves the new password and then writes the session snapshot;
    a failed cache write is reported although the store already holds the new password.
   */
  function UpdatePassword(s: State, userId: Id, oldPassword: string, newPassword: string, cacheWrite: Io): (r: Step<()>)
    ensures r.reply == Err(MissingPasswords, 400) <==> oldPassword == "" || newPassword == ""
    ensures r.reply == Err(WeakNewPassword, 400) <==>
              oldPassword != "" && newPassword != "" && |newPassword| < MinPasswordLength
    ensures r.reply == Err(InvalidUser, 400) <==>
              oldPassword != "" && newPassword != "" && |newPassword| >= MinPasswordLength
              && (userId !in s.store || s.store[userId].password == "")
    ensures r.reply == Err(InvalidOldPassword, 400) <==>
              oldPassword != "" && newPassword != "" && |newPassword| >= MinPasswordLength
              && userId in s.store && s.store[userId].password != "" && !PasswordMatches(s.store[userId], oldPassword)
    ensures !PasswordUpdateAllowed(s, userId, oldPassword, newPassword) ==> r.state == s && r.reply.Err?
    ensures PasswordUpdateAllowed(s, userId, oldPassword, newPassword) ==>
              && r.state.store.Keys == s.store.Keys
              && (forall id :: id in s.store && id != userId ==> r.state.store[id] == s.store[id])
              && r.state.store[userId].password == newPassword
              && r.state.store[userId].(password := oldPassword) == s.store[userId]
    ensures PasswordUpdateAllowed(s, userId, oldPassword, newPassword) && cacheWrite.Failed? ==>
              r.reply == Err(SessionWriteFailed, 500) && r.state.cache == s.cache
    ensures PasswordUpdateAllowed(s, userId, oldPassword, newPassword) && cacheWrite.Done? ==>
              && r.reply == Ok(())
              && r.state.cache.Keys == s.cache.Keys + {userId}
              && (forall id :: id in s.cache && id != userId ==> r.state.cache[id] == s.cache[id])
              && r.state.cache[userId] == Snap(r.state.store[userId])
    ensures Valid(s) ==> Valid(r.state)
  {
    if oldPassword == "" || newPassword == "" then Step(s, Err(MissingPasswords, 400))
    else if |newPassword| < MinPasswordLength then Step(s, Err(WeakNewPassword, 400))
    else if userId !in s.store || s.store[userId].password == "" then Step(s, Err(InvalidUser, 400))
    else if !PasswordMatches(s.store[userId], oldPassword) then Step(s, Err(InvalidOldPassword, 400))
    else
      var user := s.store[userId].(password := newPassword);
      var store := s.store[userId := user];
      match cacheWrite
      case Failed(_) => Step(State(store, s.cache), Err(SessionWriteFailed, 500))
      case Done => Step(State(store, s.cache[userId := Snap(user)]), Ok(()))
  }

  /** The secret a reset token of `user` is signed with: its id followed by the access-token secret. */
  function ResetSecret(env: Env, user: User): (r: string)
    ensures |r| == |user.id| + |env.accessSecret|
    ensures r[..|user.id|] == user.id && r[|user.id|..] == env.accessSecret
    ensures forall otherId: Id :: otherId + env.accessSecret == r ==> otherId == user.id
  {
    user.id + env.accessSecret
  }

  /** The 15-minute reset token of `user`, signed at `now` with its reset secret. */
  function ResetToken(env: Env, user: User, now: int): (r: AuthToken)
    ensures ValidUntil(r, ResetSecret(env, user), ResetClaims(user.id), IssuedAt(now) + ResetTtl)
    ensures forall other, later :: other != ResetSecret(env, user) ==> Verify(r, other, later) == Rejected(SignatureMessage)
  {
    Sign(ResetClaims(user.id), ResetSecret(env, user), now, ResetTtl)
  }

  /**
    `sendPasswordResetEmail`: stores a fresh 15-minute reset token and its expiry on the record with that
    email before mailing the link, so a failed mail still leaves both fields set.
   */
  ghost function SendPasswordResetEmail(env: Env, s: State, email: string, now: int, mail: Io): (r: Step<()>)
    ensures email == "" ==> r == Step(s, Err(EmailRequired, 400))
    ensures email != "" && !EmailTaken(s.store, email) ==> r == Step(s, Err(NoAccount, 400))
    ensures r.state.store.Keys == s.store.Keys && r.state.cache == s.cache
    ensures email != "" && EmailTaken(s.store, email) ==>
              var id := FindByEmail(s.store, email).value;
              var before, after := s.store[id], r.state.store[id];
              && (forall other :: other in s.store && other != id ==> r.state.store[other] == s.store[other])
              && after.resetPasswordToken == Some(ResetToken(env, before, now))
              && after.resetPasswordExpires == Some(now + ResetTtl)
              && after.(resetPasswordToken := before.resetPasswordToken,
                        resetPasswordExpires := before.resetPasswordExpires) == before
              && r.reply == (if mail.Done? then Ok(()) else Err(ResetMailFailed, 500))
    ensures Valid(s) ==> Valid(r.state)
  {
    if email == "" then Step(s, Err(EmailRequired, 400))
    else
      match FindByEmail(s.store, email)
      case None => Step(s, Err(NoAccount, 400))
      case Some(id) =>
        var user := s.store[id];
        var updated := user.(resetPasswordToken := Some(ResetToken(env, user, now)),
                             resetPasswordExpires := Some(now + ResetTtl));
        var next := State(s.store[id := updated], s.cache);
        match mail
        case Done => Step(next, Ok(()))
        case Failed(_) => Step(next, Err(ResetMailFailed, 500))
  }

  /** `!user.resetPasswordToken` is false: a token is stored and it is not the empty string. */
  predicate TokenStored(t: Option<AuthToken>) {
    t.Some? && t.value != Raw("")
  }

  /** The record exists and holds both reset fields. */
  predicate HasResetRecord(s: State, id: Id) {
    id in s.store && TokenStored(s.store[id].resetPasswordToken) && s.store[id].resetPasswordExpires.Some?
  }

  /** The seven checks of `resetPassword`, all passing. */
  predicate ResetAccepted(env: Env, s: State, id: Id, token: AuthToken, password: string, confirmPassword: string, now: int) {
    && id != "" && token != Raw("")
    && password != "" && confirmPassword != "" && password == confirmPassword
    && |password| >= MinPasswordLength
    && HasResetRecord(s, id)
    && Verify(token, ResetSecret(env, s.store[id]), now).Decoded?
    && !(s.store[id].resetPasswordExpires.value < now)
    && s.store[id].resetPasswordToken.value == token
  }

  /** The request is well formed: checks 1 to 3 of `resetPassword` pass. */
  predicate ResetRequestWellFormed(id: Id, token: AuthToken, password: string, confirmPassword: string) {
    id != "" && token != Raw("") && password != "" && confirmPassword != ""
    && password == confirmPassword && |password| >= MinPasswordLength
  }

  /**
    `resetPassword`: sets the new password and clears both reset fields only when every check passes;
    otherwise the reply names the first check that failed and nothing changes.
   */
  function ResetPassword(env: Env, s: State, id: Id, token: AuthToken, password: string, confirmPassword: string,
                         now: int): (r: Step<()>)
    ensures r.reply.Err? ==> r.state == s && r.reply.status == 400
    ensures r.reply.Ok? <==> ResetAccepted(env, s, id, token, password, confirmPassword, now)
    ensures r.reply == Err(MissingIdOrToken, 400) <==> id == "" || token == Raw("")
    ensures r.reply == Err(MissingResetPasswords, 400) <==>
              id != "" && token != Raw("") && (password == "" || confirmPassword == "")
    ensures r.reply == Err(PasswordsDiffer, 400) <==>
              id != "" && token != Raw("") && password != "" && confirmPassword != "" && password != confirmPassword
    ensures r.reply == Err(WeakResetPassword, 400) <==>
              id != "" && token != Raw("") && password != "" && password == confirmPassword
              && |password| < MinPasswordLength
    ensures r.reply == Err(InvalidOrExpired, 400) <==>
              ResetRequestWellFormed(id, token, password, confirmPassword)
              && (!HasResetRecord(s, id) || Verify(token, ResetSecret(env, s.store[id]), now).Rejected?)
    ensures r.reply == Err(ResetExpired, 400) <==>
              ResetRequestWellFormed(id, token, password, confirmPassword) && HasResetRecord(s, id)
              && Verify(token, ResetSecret(env, s.store[id]), now).Decoded?
              && s.store[id].resetPasswordExpires.value < now
    ensures r.reply == Err(ResetTokenMismatch, 400) <==>
              ResetRequestWellFormed(id, token, password, confirmPassword) && HasResetRecord(s, id)
              && Verify(token, ResetSecret(env, s.store[id]), now).Decoded?
              && !(s.store[id].resetPasswordExpires.value < now)
              && s.store[id].resetPasswordToken.value != token
    ensures r.state.store.Keys == s.store.Keys && r.state.cache == s.cache
    ensures r.reply.Ok? ==>
              var before, after := s.store[id], r.state.store[id];
              && (forall other :: other in s.store && other != id ==> r.state.store[other] == s.store[other])
              && after.password == password
              && after.resetPasswordToken == None && after.resetPasswordExpires == None
              && after.(password := before.password, resetPasswordToken := before.resetPasswordToken,
                        resetPasswordExpires := before.resetPasswordExpires) == before
    ensures Valid(s) ==> Valid(r.state)
  {
    if id == "" || token == Raw("") then Step(s, Err(MissingIdOrToken, 400))
    else if password == "" || confirmPassword == "" then Step(s, Err(MissingResetPasswords, 400))
    else if password != confirmPassword then Step(s, Err(PasswordsDiffer, 400))
    else if |password| < MinPasswordLength then Step(s, Err(WeakResetPassword, 400))
    else if !HasResetRecord(s, id) then Step(s, Err(InvalidOrExpired, 400))
    else
      var user := s.store[id];
      if Verify(token, ResetSecret(env, user), now).Rejected? then Step(s, Err(InvalidOrExpired, 400))
      else if user.resetPasswordExpires.value < now then Step(s, Err(ResetExpired, 400))
      else if user.resetPasswordToken.value != token then Step(s, Err(ResetTokenMismatch, 400))
      else
        var updated := user.(password := password, resetPasswordToken := None, resetPasswordExpires := None);
        Step(State(s.store[id := updated], s.cache), Ok(()))
  }
}
