/** `AuthController`: login checks the credentials and hands the session token
    back in the `accessToken` cookie; logout tells the browser to drop it. */
module AuthControllers {
  import opened Common
  import Validation
  import Jwt
  import Dao
  import Service
  import Http

  const INVALID_CREDENTIALS := "Email ou senha inválidos"
  const LOGIN_DONE := "Login realizado com sucesso"
  const LOGOUT_DONE := "Logout realizado com sucesso"
  /** `maxAge: 24 * 60 * 60 * 1000`, in milliseconds. */
  const COOKIE_MAX_AGE_MS: int := 24 * 60 * 60 * 1000

  /** `process.env.NODE_ENV === 'production'`; `None` is an unset variable. */
  predicate Production(nodeEnv: Option<string>) {
    nodeEnv == Some("production")
  }

  /** The options login sets the cookie with. */
  function LoginCookieOptions(nodeEnv: Option<string>): Http.CookieOptions {
    Http.CookieOptions(
      httpOnly := true, secure := Production(nodeEnv), sameSite := Http.Strict,
      path := "/", maxAge := Some(COOKIE_MAX_AGE_MS))
  }

  /** The options logout clears the cookie with: login's, without a lifetime. */
  function LogoutCookieOptions(nodeEnv: Option<string>): (o: Http.CookieOptions)
    ensures o == LoginCookieOptions(nodeEnv).(maxAge := None)
  {
    Http.CookieOptions(
      httpOnly := true, secure := Production(nodeEnv), sameSite := Http.Strict,
      path := "/", maxAge := None)
  }

  /** The login cookie: scripts cannot read it, it goes only to this site, it
      covers every path, it is secure exactly in production, and it lives as long
      as the token it carries. */
  lemma LoginCookieAttributes(nodeEnv: Option<string>)
    ensures var o := LoginCookieOptions(nodeEnv);
      && o.httpOnly && o.sameSite == Http.Strict && o.path == "/"
      && (o.secure <==> nodeEnv == Some("production"))
      && o.maxAge == Some(1000 * Jwt.LIFETIME_SECONDS)
  {
  }

  /** The body of a successful login: a message and the user's id, name and
      e-mail. */
  function LoginBody(user: Service.PublicUser): Http.Body {
    Http.LoginJson(LOGIN_DONE, user.id, user.name, user.email)
  }

  class AuthController {

    /** `login`: validate the body, authenticate, then set the cookie and answer
        200; unknown e-mail and wrong password give one and the same 401. */
    static method Login(svc: Service.UserService, res: Http.HttpResponse, email: string, password: string,
                        secret: string, now: int, nodeEnv: Option<string>)
      requires svc.dao.Valid()
      modifies res
      ensures var issues := Validation.LoginIssues(email, password);
        && (issues != [] ==>
              res.status == 400 && res.body == Http.IssuesJson(issues) && res.cookies == old(res.cookies))
        && (issues == [] && !Service.Credentials(svc.dao.users, email, password) ==>
              res.status == 401 && res.body == Http.ErrorJson(INVALID_CREDENTIALS) && res.cookies == old(res.cookies))
        && (res.status == 200 <==> issues == [] && Service.Credentials(svc.dao.users, email, password))
      ensures res.status == 200 ==>
        exists id :: id in svc.dao.users && svc.dao.users[id].email == email
          && res.body == LoginBody(Service.WithoutPassword(svc.dao.users[id]))
          && res.cookies == old(res.cookies)
               + [Http.Set(Http.ACCESS_TOKEN, Jwt.GenerateToken(id, secret, now), LoginCookieOptions(nodeEnv))]
    {
      var issues := Validation.LoginIssues(email, password);
      if issues != [] {
        res.Send(Http.Caught(Invalid(issues)));
        return;
      }
      var user := svc.AuthenticateUser(email, password);
      if user.None? {
        res.Send(Http.Reply(401, Http.ErrorJson(INVALID_CREDENTIALS)));
        return;
      }
      var accessToken := Jwt.GenerateToken(user.value.id, secret, now);
      res.Cookie(Http.ACCESS_TOKEN, accessToken, LoginCookieOptions(nodeEnv));
      res.Send(Http.Reply(200, LoginBody(user.value)));
    }

    /** `logout`: whatever the request, expire the cookie and answer 200. */
    static method Logout(res: Http.HttpResponse, nodeEnv: Option<string>)
      modifies res
      ensures res.status == 200 && res.body == Http.MessageJson(LOGOUT_DONE)
      ensures res.cookies == old(res.cookies) + [Http.Expire(Http.ACCESS_TOKEN, LogoutCookieOptions(nodeEnv))]
    {
      res.ClearCookie(Http.ACCESS_TOKEN, LogoutCookieOptions(nodeEnv));
      res.Send(Http.Reply(200, Http.MessageJson(LOGOUT_DONE)));
    }
  }

  /** Logout's directive removes the very cookie login stored, whatever else the
      browser holds, and repeating it changes nothing more. */
  lemma LogoutUndoesLogin(jar: Http.CookieJar, token: Jwt.Token, nodeEnv: Option<string>)
    ensures var login := Http.Set(Http.ACCESS_TOKEN, token, LoginCookieOptions(nodeEnv));
      var logout := Http.Expire(Http.ACCESS_TOKEN, LogoutCookieOptions(nodeEnv));
      && (Http.ACCESS_TOKEN, "/") !in Http.Store(Http.Store(jar, login), logout)
      && Http.Store(Http.Store(jar, login), logout) == Http.Store(jar, logout)
      && Http.Store(Http.Store(jar, logout), logout) == Http.Store(jar, logout)
  {
    var login := Http.Set(Http.ACCESS_TOKEN, token, LoginCookieOptions(nodeEnv));
    var logout := Http.Expire(Http.ACCESS_TOKEN, LogoutCookieOptions(nodeEnv));
    assert Http.Store(Http.Store(jar, login), logout) == Http.Store(jar, logout);
    assert Http.Store(Http.Store(jar, logout), logout) == Http.Store(jar, logout);
  }
}
