/** The routes that put `authMiddleware` in front of a handler, and two of them
    composed end to end: the password change, which checks ownership, and the
    deletion, which does not. */
module Routes {
  import opened Common
  import Bcrypt
  import Jwt
  import Dao
  import Service
  import Http
  import Middleware
  import UserControllers

  datatype Route =
    | PostUsers | GetUsers | GetUser | PutUser | DeleteUser | PatchPassword
    | PostLogin | PostLogout

  /** The routes registered with `authMiddleware` before their handler. */
  predicate NeedsSession(route: Route): (needs: bool)
    ensures needs <==> !(route.PostUsers? || route.PostLogin? || route.PostLogout?)
  {
    route in {GetUsers, GetUser, PutUser, DeleteUser, PatchPassword}
  }

  /** `PATCH /users/:id/password`: the middleware, then `changePassword` with the
      `userId` it attached. */
  method PatchPasswordRoute(req: Http.Request, res: Http.HttpResponse, next: Http.Next, svc: Service.UserService,
                            targetUserId: UserId, currentPassword: string, newPassword: string,
                            secret: string, now: int, salt: nat)
    requires svc.dao.Valid()
    modifies req, res, next, svc.dao
    ensures svc.dao.Valid()
    ensures var d := Middleware.Decide(Middleware.AccessToken(req.cookies), secret, now);
      && (d.Reject? ==> res.status == 401 && res.body == Http.ErrorJson(d.message))
      && (d.Accept? && d.userId != targetUserId ==>
            res.status == 401 && res.body == Http.ErrorJson(UserControllers.NOT_AUTHORIZED))
      && (svc.dao.users != old(svc.dao.users) ==>
            && d == Middleware.Accept(targetUserId)
            && targetUserId in old(svc.dao.users)
            && Bcrypt.Verifies(old(svc.dao.users)[targetUserId].password, currentPassword)
            && targetUserId in svc.dao.users
            && Bcrypt.Verifies(svc.dao.users[targetUserId].password, newPassword))
  {
    var calls := next.calls;
    Middleware.AuthMiddleware(req, res, next, secret, now);
    if next.calls != calls {
      UserControllers.UserController.ChangePassword(svc, res, req.userId, targetUserId, currentPassword, newPassword, salt);
    }
  }

  /** `DELETE /users/:id`: the middleware, then `delete`. Any valid session
      deletes any existing user. */
  method DeleteUserRoute(req: Http.Request, res: Http.HttpResponse, next: Http.Next, svc: Service.UserService,
                         targetUserId: UserId, secret: string, now: int)
    requires svc.dao.Valid()
    modifies req, res, next, svc.dao
    ensures svc.dao.Valid()
    ensures var d := Middleware.Decide(Middleware.AccessToken(req.cookies), secret, now);
      && (d.Reject? ==> res.status == 401 && svc.dao.users == old(svc.dao.users))
      && (d.Accept? && targetUserId in old(svc.dao.users) ==>
            res.status == 204 && svc.dao.users == old(svc.dao.users) - {targetUserId})
  {
    var calls := next.calls;
    Middleware.AuthMiddleware(req, res, next, secret, now);
    if next.calls != calls {
      UserControllers.UserController.Delete(svc, res, targetUserId);
    }
  }
}
