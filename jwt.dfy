/** Signed session tokens (`jsonwebtoken`, HS256). Signing and encoding are not
    modelled: a token is either the signed claims together with the key that
    signed them, or a string that does not parse as a token. */
module Jwt {
  import opened Common

  /** `expiresIn: '24h'`, in the seconds of the `exp` claim. */
  const LIFETIME_SECONDS: int := 24 * 60 * 60

  datatype Claims = Claims(id: UserId, iat: int, exp: int)

  datatype Token =
    | Signed(claims: Claims, key: string)
    | Malformed(text: string)

  /** `jwt.verify(token, secret)`: the payload's id when the signature was made
      with `secret` and `now` is before the expiry (section 4.1.4 of RFC 7519:
      the current time must be before the "exp" time). Bad signature, expiry and
      malformation are one and the same failure. */
  function Verify(token: Token, secret: string, now: int): (r: Option<UserId>)
    ensures r.Some? <==> token.Signed? && token.key == secret && now < token.claims.exp
    ensures r.Some? ==> r.value == token.claims.id
  {
    match token
    case Signed(claims, key) =>
      if key == secret && now < claims.exp then Some(claims.id) else None
    case Malformed(_) => None
  }

  /** `generateToken(userId)`: signs `{ id: userId }` with `secret` at time
      `now`, valid for 24 hours. */
  function GenerateToken(userId: UserId, secret: string, now: int): (t: Token)
    ensures forall at :: Verify(t, secret, at) == if at < now + LIFETIME_SECONDS then Some(userId) else None
    ensures forall other, at :: other != secret ==> Verify(t, other, at) == None
    ensures t != Malformed("")
  {
    Signed(Claims(userId, now, now + LIFETIME_SECONDS), secret)
  }

  /** Whatever signed it, a token past its expiry is refused. */
  lemma ExpiredIsRefused(token: Token, secret: string, now: int)
    requires token.Signed? && token.claims.exp <= now
    ensures Verify(token, secret, now) == None
  {
  }

  /** A token that verifies at some time verifies at every earlier time too, and
      with no other secret. */
  lemma VerifiedEarlier(token: Token, secret: string, now: int, earlier: int)
    requires Verify(token, secret, now).Some? && earlier <= now
    ensures Verify(token, secret, earlier) == Verify(token, secret, now)
    ensures forall other :: other != secret ==> Verify(token, other, now) == None
  {
  }
}
