/**
  JSON Web Tokens as the controller uses them through the jsonwebtoken library, without the cryptography:
  a signed token records its claims, the secret it was signed with and its expiry instant. Verifying checks
  the secret first and the expiry second, as jsonwebtoken does, and reports jsonwebtoken's messages.
  Times are milliseconds; a token is expired once the current time reaches its expiry.
 */
module Jwt {

  /** `Signed` is what `jwt.sign` produces; `Raw` is any other string a client can send (empty when absent). */
  datatype Token<C> = Signed(claims: C, secret: string, exp: int) | Raw(text: string)

  /** The outcome of `jwt.verify`: the decoded payload, or the message of the error it throws. */
  datatype Verified<C> = Decoded(claims: C) | Rejected(message: string)

  const MissingMessage := "jwt must be provided"
  const MalformedMessage := "jwt malformed"
  const SignatureMessage := "invalid signature"
  const ExpiredMessage := "jwt expired"

  /**
    The instant `jwt.sign` stamps as `iat`: the current time rounded down to a whole second
    (`Math.floor(Date.now() / 1000)`), in milliseconds.
   */
  function IssuedAt(now: int): (t: int)
    ensures t <= now < t + 1000 && t % 1000 == 0
  {
    (now / 1000) * 1000
  }

  /**
    `jwt.sign(claims, secret, { expiresIn: ttl })` at time `now`. The payload holds the claims, `iat` and
    `exp = iat + ttl`, so the token depends on the second it was signed in, not on the millisecond.
   */
  function Sign<C>(claims: C, secret: string, now: int, ttl: nat): (r: Token<C>)
    ensures forall later :: Verify(r, secret, later) ==
              (if later < IssuedAt(now) + ttl then Decoded(claims) else Rejected(ExpiredMessage))
    ensures forall other, later :: other != secret ==> Verify(r, other, later) == Rejected(SignatureMessage)
  {
    Signed(claims, secret, IssuedAt(now) + ttl)
  }

  /** `jwt.verify(token, secret)` at time `now`. */
  function Verify<C>(t: Token<C>, secret: string, now: int): (r: Verified<C>)
    ensures r.Decoded? <==> t.Signed? && t.secret == secret && now < t.exp
    ensures r.Decoded? ==> r.claims == t.claims
    ensures r.Rejected? ==> r.message in {MissingMessage, MalformedMessage, SignatureMessage, ExpiredMessage}
  {
    match t
    case Raw(text) => Rejected(if text == "" then MissingMessage else MalformedMessage)
    case Signed(claims, s, exp) =>
      if s != secret then Rejected(SignatureMessage)
      else if exp <= now then Rejected(ExpiredMessage)
      else Decoded(claims)
  }

  /** Two tokens signed with the same claims, secret and lifetime are the same token exactly when signed in the same second. */
  lemma SameSecondSameToken<C>(claims: C, secret: string, ttl: nat, now: int, later: int)
    ensures Sign(claims, secret, now, ttl) == Sign(claims, secret, later, ttl) <==> now / 1000 == later / 1000
  {
    if Sign(claims, secret, now, ttl) == Sign(claims, secret, later, ttl) {
      assert (now / 1000) * 1000 == (later / 1000) * 1000;
    }
  }
}
