/**
  The records the authentication handlers work on: the persisted user, the pending registration carried
  inside an activation token, the claims of the three kinds of token, the session snapshot kept in the
  cache, and the replies a handler gives back.
 */
module Users {
  import opened Jwt

  type Id = string

  datatype Option<T> = None | Some(value: T)

  /** A registration that is not persisted yet: it lives only inside the activation token. */
  datatype Pending = Pending(name: string, email: string, password: string)

  /** The payloads the controller signs: `{user, activationCode}`, `{id}` and `{userID}`. */
  datatype Claims =
    | ActivationClaims(user: Pending, activationCode: string)
    | SessionClaims(id: Id)
    | ResetClaims(userID: Id)

  type AuthToken = Token<Claims>

  /**
    A persisted user. An empty string stands for a field that is absent (JavaScript treats both as false);
    `password` holds what `comparePassword` checks a candidate against.
   */
  datatype User = User(
    id: Id,
    name: string,
    email: string,
    password: string,
    role: string,
    resetPasswordToken: Option<AuthToken>,
    resetPasswordExpires: Option<int>)

  /** A session-cache value: `JSON.stringify` of the loaded record, or of `null` when none was found. */
  datatype Snapshot = NullSnapshot | Snap(user: User)

  /** What a handler answers: a success value, or the message and status code it passes to `next`. */
  datatype Reply<T> = Ok(value: T) | Err(message: string, status: int)

  /** The outcome of an awaited call into the mailer or the cache. */
  datatype Io = Done | Failed(message: string)

  /** The secrets read from the environment: ACTIVATION_SECRET, ACCESS_TOKEN and REFRESH_TOKEN. */
  datatype Env = Env(activationSecret: string, accessSecret: string, refreshSecret: string)

  /** `user.comparePassword(candidate)`, with the stored credential standing for the hash of the password set. */
  predicate PasswordMatches(user: User, candidate: string) {
    user.password == candidate
  }

  /** A record as a query without `select("+password")` loads it: the password is left out. */
  function PublicView(user: User): User {
    user.(password := "")
  }
}
