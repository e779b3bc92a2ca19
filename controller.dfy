/**
  The controller as the source runs it: each handler loads a record from the store, checks its guards one
  after the other, changes fields of the loaded copy, saves the changed fields back and writes or deletes
  the session-cache entry. Each method is proved to end in the state and reply its `Handlers` function
  specifies, and to keep the store invariant.
 */
module Controller {
  import opened Jwt
  import opened Users
  import Handlers

  class UserController {
    const env: Env
    /** The user store: `userModel`. */
    var store: map<Id, User>
    /** The session cache: `redis`. */
    var cache: map<Id, Snapshot>

    ghost function Current(): Handlers.State
      reads this
    {
      Handlers.State(store, cache)
    }

    ghost predicate Valid()
      reads this
    {
      Handlers.Valid(Current())
    }

    constructor (env: Env)
      ensures this.env == env && store == map[] && cache == map[]
      ensures Valid()
    {
      this.env := env;
      store := map[];
      cache := map[];
    }

    method RegistrationUser(name: string, email: string, password: string, draw: int, now: int, mail: Io)
      returns (reply: Reply<Handlers.Registered>)
      requires 0 <= draw < 9000
      ensures reply == Handlers.RegistrationUser(env, Current(), name, email, password, draw, now, mail)
    {
      if Handlers.EmailTaken(store, email) {
        return Err(Handlers.EmailExists, 400);
      }
      var user := Pending(name, email, password);
      var activationToken := Handlers.CreateActivationToken(env, user, draw, now);
      if mail.Failed? {
        return Err(mail.message, 400);
      }
      reply := Ok(Handlers.Registered(activationToken.token, user.email, activationToken.activationCode));
    }

    method ActivateUser(activationToken: AuthToken, activationCode: string, newId: Id, now: int)
      returns (reply: Reply<User>)
      requires Valid() && newId !in store
      modifies this
      ensures Valid()
      ensures Handlers.Step(Current(), reply)
              == Handlers.ActivateUser(env, old(Current()), activationToken, activationCode, newId, now)
    {
      var verified := Verify(activationToken, env.activationSecret, now);
      if verified.Rejected? {
        return Err(verified.message, 400);
      }
      var newUser := verified.claims;
      if !newUser.ActivationClaims? || newUser.activationCode != activationCode {
        return Err(Handlers.InvalidActivationCode, 400);
      }
      if Handlers.EmailTaken(store, newUser.user.email) {
        return Err(Handlers.EmailExistsOnActivation, 400);
      }
      var user := Handlers.NewUser(newId, newUser.user);
      store := store[newId := user];
      reply := Ok(user);
    }

    method LoginUser(email: string, password: string, role: string) returns (reply: Reply<User>)
      requires Valid()
      ensures reply == Handlers.LoginUser(Current(), email, password, role)
    {
      if email == "" || password == "" {
        return Err(Handlers.MissingCredentials, 400);
      }
      if !Handlers.EmailTaken(store, email) {
        return Err(Handlers.InvalidCredentials, 400);
      }
      var id :| id in store && store[id].email == email;
      Handlers.FindByEmailUnique(store, email, id);
      var user := store[id];
      if role != user.role {
        return Err(Handlers.InvalidCredentials, 400);
      }
      if !PasswordMatches(user, password) {
        return Err(Handlers.InvalidCredentials, 400);
      }
      reply := Ok(user);
    }

    method LogoutUser(userId: Id) returns (reply: Reply<()>)
      requires Valid()
      modifies this
      ensures Valid()
      ensures Handlers.Step(Current(), reply) == Handlers.LogoutUser(old(Current()), userId)
    {
      if userId != "" {
        cache := cache - {userId};
      }
      reply := Ok(());
    }

    method UpdateAccessToken(refreshToken: AuthToken, now: int) returns (reply: Reply<Handlers.TokenPair>)
      ensures reply == Handlers.UpdateAccessToken(env, Current(), refreshToken, now)
    {
      var decoded := Verify(refreshToken, env.refreshSecret, now);
      if decoded.Rejected? {
        return Err(decoded.message, 400);
      }
      if !decoded.claims.SessionClaims? || decoded.claims.id !in cache {
        return Err(Handlers.CouldNotRefresh, 400);
      }
      var session := cache[decoded.claims.id];
      if session.NullSnapshot? {
        return Err(Handlers.NullSessionMessage, 400);
      }
      var user := session.user;
      var accessToken := Sign(SessionClaims(user.id), env.accessSecret, now, Handlers.AccessTtl);
      var newRefreshToken := Sign(SessionClaims(user.id), env.refreshSecret, now, Handlers.RefreshTtl);
      reply := Ok(Handlers.TokenPair(accessToken, newRefreshToken));
    }

    method UpdateUserInfo(userId: Id, name: string, email: string, cacheWrite: Io) returns (reply: Reply<Option<User>>)
      requires Valid()
      modifies this
      ensures Valid()
      ensures Handlers.Step(Current(), reply) == Handlers.UpdateUserInfo(old(Current()), userId, name, email, cacheWrite)
    {
      // findById loads the record without its password
      var user := if userId in store then Some(PublicView(store[userId])) else None;
      if email != "" && user.Some? {
        if Handlers.EmailTaken(store, email) {
          return Err(Handlers.EmailExists, 400);
        }
        user := Some(user.value.(email := email));
      }
      if name != "" && user.Some? {
        user := Some(user.value.(name := name));
      }
      // save writes back the fields that were set
      if user.Some? {
        store := store[userId := store[userId].(name := user.value.name, email := user.value.email)];
      }
      if cacheWrite.Failed? {
        return Err(cacheWrite.message, 400);
      }
      cache := cache[userId := if user.Some? then Snap(user.value) else NullSnapshot];
      reply := Ok(user);
    }

    method UpdatePassword(userId: Id, oldPassword: string, newPassword: string, cacheWrite: Io) returns (reply: Reply<()>)
      requires Valid()
      modifies this
      ensures Valid()
      ensures Handlers.Step(Current(), reply)
              == Handlers.UpdatePassword(old(Current()), userId, oldPassword, newPassword, cacheWrite)
    {
      if oldPassword == "" || newPassword == "" {
        return Err(Handlers.MissingPasswords, 400);
      }
      if |newPassword| < Handlers.MinPasswordLength {
        return Err(Handlers.WeakNewPassword, 400);
      }
      if userId !in store || store[userId].password == "" {
        return Err(Handlers.InvalidUser, 400);
      }
      var user := store[userId];
      if !PasswordMatches(user, oldPassword) {
        return Err(Handlers.InvalidOldPassword, 400);
      }
      user := user.(password := newPassword);
      store := store[userId := user];
      if cacheWrite.Failed? {
        return Err(Handlers.SessionWriteFailed, 500);
      }
      cache := cache[userId := Snap(user)];
      reply := Ok(());
    }

    method SendPasswordResetEmail(email: string, now: int, mail: Io) returns (reply: Reply<()>)
      requires Valid()
      modifies this
      ensures Valid()
      ensures Handlers.Step(Current(), reply) == Handlers.SendPasswordResetEmail(env, old(Current()), email, now, mail)
    {
      if email == "" {
        return Err(Handlers.EmailRequired, 400);
      }
      if !Handlers.EmailTaken(store, email) {
        return Err(Handlers.NoAccount, 400);
      }
      var id :| id in store && store[id].email == email;
      Handlers.FindByEmailUnique(store, email, id);
      // findOne loads the record without its password
      var user := PublicView(store[id]);
      var token := Sign(ResetClaims(user.id), user.id + env.accessSecret, now, Handlers.ResetTtl);
      user := user.(resetPasswordToken := Some(token), resetPasswordExpires := Some(now + Handlers.ResetTtl));
      store := store[id := store[id].(resetPasswordToken := user.resetPasswordToken,
                                      resetPasswordExpires := user.resetPasswordExpires)];
      if mail.Failed? {
        return Err(Handlers.ResetMailFailed, 500);
      }
      reply := Ok(());
    }

    method ResetPassword(id: Id, token: AuthToken, password: string, confirmPassword: string, now: int)
      returns (reply: Reply<()>)
      requires Valid()
      modifies this
      ensures Valid()
      ensures Handlers.Step(Current(), reply)
              == Handlers.ResetPassword(env, old(Current()), id, token, password, confirmPassword, now)
    {
      if id == "" || token == Raw("") {
        return Err(Handlers.MissingIdOrToken, 400);
      }
      if password == "" || confirmPassword == "" {
        return Err(Handlers.MissingResetPasswords, 400);
      }
      if password != confirmPassword {
        return Err(Handlers.PasswordsDiffer, 400);
      }
      if |password| < Handlers.MinPasswordLength {
        return Err(Handlers.WeakResetPassword, 400);
      }
      if id !in store || !Handlers.TokenStored(store[id].resetPasswordToken) || store[id].resetPasswordExpires.None? {
        return Err(Handlers.InvalidOrExpired, 400);
      }
      var user := PublicView(store[id]);
      var secret := user.id + env.accessSecret;
      if Verify(token, secret, now).Rejected? {
        return Err(Handlers.InvalidOrExpired, 400);
      }
      if user.resetPasswordExpires.value < now {
        return Err(Handlers.ResetExpired, 400);
      }
      if user.resetPasswordToken.value != token {
        return Err(Handlers.ResetTokenMismatch, 400);
      }
      user := user.(password := password, resetPasswordToken := None, resetPasswordExpires := None);
      store := store[id := store[id].(password := user.password, resetPasswordToken := None,
                                      resetPasswordExpires := None)];
      reply := Ok(());
    }
  }
}
