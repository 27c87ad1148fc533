/** `authMiddleware`: a request either leaves with 401, or carries the token's
    user id in `req.userId` and is passed on. */
module Middleware {
  import opened Common
  import Jwt
  import Http

  const TOKEN_MISSING := "Token não fornecido"
  const TOKEN_INVALID := "Token inválido"

  datatype Decision = Reject(message: string) | Accept(userId: UserId)

  /** `!accessToken`: the cookie is absent or empty. */
  predicate Missing(cookie: Option<Jwt.Token>) {
    cookie.None? || cookie.value == Jwt.Malformed("")
  }

  /** The middleware's decision on the `accessToken` cookie, verified with the
      configured secret at time `now`. */
  function Decide(cookie: Option<Jwt.Token>, secret: string, now: int): (d: Decision)
    ensures d.Accept? <==> !Missing(cookie) && Jwt.Verify(cookie.value, secret, now).Some?
    ensures d.Accept? ==> Jwt.Verify(cookie.value, secret, now) == Some(d.userId)
    ensures d.Reject? ==> d.message == if Missing(cookie) then TOKEN_MISSING else TOKEN_INVALID
  {
    if Missing(cookie) then Reject(TOKEN_MISSING)
    else match Jwt.Verify(cookie.value, secret, now)
      case None => Reject(TOKEN_INVALID)
      case Some(id) => Accept(id)
  }

  /** The cookie `req.cookies?.accessToken`. */
  function AccessToken(cookies: map<string, Jwt.Token>): Option<Jwt.Token> {
    if Http.ACCESS_TOKEN in cookies then Some(cookies[Http.ACCESS_TOKEN]) else None
  }

  method AuthMiddleware(req: Http.Request, res: Http.HttpResponse, next: Http.Next, secret: string, now: int)
    modifies req, res, next
    ensures req.cookies == old(req.cookies) && res.cookies == old(res.cookies)
    ensures var d := Decide(AccessToken(req.cookies), secret, now);
      && (d.Accept? ==>
            && req.userId == Some(d.userId)
            && next.calls == old(next.calls) + 1
            && res.status == old(res.status) && res.body == old(res.body))
      && (d.Reject? ==>
            && req.userId == old(req.userId)
            && next.calls == old(next.calls)
            && res.status == 401 && res.body == Http.ErrorJson(d.message))
  {
    var accessToken := AccessToken(req.cookies);
    if Missing(accessToken) {
      res.Send(Http.Reply(401, Http.ErrorJson(TOKEN_MISSING)));
      return;
    }
    var decoded := Jwt.Verify(accessToken.value, secret, now);
    if decoded.None? {
      res.Send(Http.Reply(401, Http.ErrorJson(TOKEN_INVALID)));
      return;
    }
    req.userId := decoded;
    next.Call();
  }

  /** A token `generateToken` issued with the secret the middleware verifies with
      lets the request through for 24 hours, and then never again. */
  lemma IssuedTokenAccepted(id: UserId, secret: string, issuedAt: int, now: int)
    ensures Decide(Some(Jwt.GenerateToken(id, secret, issuedAt)), secret, now)
      == if now < issuedAt + Jwt.LIFETIME_SECONDS then Accept(id) else Reject(TOKEN_INVALID)
  {
  }

  /** A token signed with any other secret is refused as invalid. */
  lemma ForeignTokenRejected(id: UserId, secret: string, otherSecret: string, issuedAt: int, now: int)
    requires otherSecret != secret
    ensures Decide(Some(Jwt.GenerateToken(id, otherSecret, issuedAt)), secret, now) == Reject(TOKEN_INVALID)
  {
  }
}
