/** The parts of Express the handlers touch: the JSON bodies they send, the
    response they write a status, a body and cookies into, the request the
    middleware annotates with `userId`, and the `next` callback. */
module Http {
  import opened Common
  import Jwt
  import Service

  /** What a handler sends: nothing (`res.send()`), `{ error }`, a user, a page of
      users, `{ message }`, or the login answer. */
  datatype Body =
    | NoBody
    | ErrorJson(error: string)
    | IssuesJson(issues: seq<string>)
    | UserJson(user: Service.PublicUser)
    | PageJson(page: Service.UsersPage)
    | MessageJson(message: string)
    | LoginJson(message: string, id: UserId, name: string, email: string)

  datatype Reply = Reply(status: nat, body: Body)

  /** The `catch` of every handler: an `Error` becomes 400 with
      `{ error: err.message }` (a `ZodError`'s message lists its issues). */
  function Caught(e: Error): (reply: Reply)
    ensures reply.status == 400
    ensures e.Thrown? ==> reply.body == ErrorJson(e.message)
    ensures e.Invalid? ==> reply.body == IssuesJson(e.issues)
  {
    match e
    case Invalid(issues) => Reply(400, IssuesJson(issues))
    case Thrown(message) => Reply(400, ErrorJson(message))
  }

  /** The session cookie: login sets it, the middleware reads it, logout
      expires it. */
  const ACCESS_TOKEN := "accessToken"

  datatype SameSite = Strict | Lax | NoSameSite

  /** The options object of `res.cookie` / `res.clearCookie`; `maxAge` is in
      milliseconds. */
  datatype CookieOptions = CookieOptions(httpOnly: bool, secure: bool, sameSite: SameSite, path: string, maxAge: Option<int>)

  /** One `Set-Cookie` header: a cookie to store, or one to expire at once. */
  datatype CookieDirective =
    | Set(name: string, value: Jwt.Token, options: CookieOptions)
    | Expire(name: string, options: CookieOptions)

  /** A browser's cookies for this host, by name and path. */
  type CookieJar = map<(string, string), Jwt.Token>

  /** What a user agent does with one directive (section 5.3 of RFC 6265): a new
      cookie replaces the one with the same name and path; an expired one removes
      it. */
  function Store(jar: CookieJar, d: CookieDirective): (after: CookieJar)
    ensures d.Set? ==> (d.name, d.options.path) in after && after[(d.name, d.options.path)] == d.value
    ensures d.Expire? ==> (d.name, d.options.path) !in after
    ensures forall key :: key != (d.name, d.options.path) ==> (key in after <==> key in jar)
    ensures forall key :: key != (d.name, d.options.path) && key in jar ==> after[key] == jar[key]
  {
    match d
    case Set(name, value, options) => jar[(name, options.path) := value]
    case Expire(name, options) => jar - {(name, options.path)}
  }

  /** The response object: its status, its body and the cookies set on it. */
  class HttpResponse {
    var status: nat
    var body: Body
    var cookies: seq<CookieDirective>

    constructor ()
      ensures status == 200 && body == NoBody && cookies == []
    {
      status, body, cookies := 200, NoBody, [];
    }

    /** `res.status(reply.status).json(reply.body)`. */
    method Send(reply: Reply)
      modifies this
      ensures status == reply.status && body == reply.body && cookies == old(cookies)
    {
      status, body := reply.status, reply.body;
    }

    /** `res.cookie(name, value, options)`. */
    method Cookie(name: string, value: Jwt.Token, options: CookieOptions)
      modifies this
      ensures cookies == old(cookies) + [Set(name, value, options)]
      ensures status == old(status) && body == old(body)
    {
      cookies := cookies + [Set(name, value, options)];
    }

    /** `res.clearCookie(name, options)`. */
    method ClearCookie(name: string, options: CookieOptions)
      modifies this
      ensures cookies == old(cookies) + [Expire(name, options)]
      ensures status == old(status) && body == old(body)
    {
      cookies := cookies + [Expire(name, options)];
    }
  }

  /** The request as the middleware sees it: the parsed cookies, and the
      `userId` it attaches. */
  class Request {
    var cookies: map<string, Jwt.Token>
    var userId: Option<UserId>

    constructor (cookies: map<string, Jwt.Token>)
      ensures this.cookies == cookies && userId == None
    {
      this.cookies := cookies;
      userId := None;
    }
  }

  /** Express's `next`: counts how often the request was passed on. */
  class Next {
    var calls: nat

    constructor ()
      ensures calls == 0
    {
      calls := 0;
    }

    method Call()
      modifies this
      ensures calls == old(calls) + 1
    {
      calls := calls + 1;
    }
  }
}
