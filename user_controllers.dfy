/** `UserController`: each handler validates the request, calls the service, and
    maps the outcome to a status. Every `Error` the service throws becomes 400. */
module UserControllers {
  import opened Common
  import Validation
  import Bcrypt
  import Dao
  import Service
  import Http

  const NOT_AUTHORIZED := "Não autorizado a alterar senha de outro usuário"
  const DEFAULT_PAGE := 1
  const DEFAULT_LIMIT := 10

  /** The ownership guard of `changePassword`: the session's user is the one in
      the path. An unauthenticated request (no `userId`) owns nothing. */
  predicate OwnsTarget(sessionUserId: Option<UserId>, targetUserId: UserId): (owns: bool)
    ensures sessionUserId.None? ==> !owns
    ensures owns ==> sessionUserId.value == targetUserId
  {
    sessionUserId == Some(targetUserId)
  }

  /** A session owns exactly one target: its own user. */
  lemma SessionOwnsOnlyItself(sessionUserId: UserId, targetUserId: UserId)
    ensures OwnsTarget(Some(sessionUserId), targetUserId) <==> targetUserId == sessionUserId
  {
  }

  /** How the outcome of an update, a deletion or a password change becomes a
      reply: `successStatus` (with the user, or with no body) when there is a
      user, 404 when the service answers null, 400 when it throws. */
  function OutcomeReply(r: Result<Option<Service.PublicUser>>, successStatus: nat, noContent: bool): (reply: Http.Reply)
    ensures r.Err? ==> reply == Http.Caught(r.error)
    ensures r == Ok(None) ==> reply == Http.Reply(404, Http.ErrorJson(Service.USER_NOT_FOUND))
    ensures r.Ok? && r.value.Some? ==>
      reply == Http.Reply(successStatus, if noContent then Http.NoBody else Http.UserJson(r.value.value))
  {
    match r
    case Err(e) => Http.Caught(e)
    case Ok(None) => Http.Reply(404, Http.ErrorJson(Service.USER_NOT_FOUND))
    case Ok(Some(user)) => Http.Reply(successStatus, if noContent then Http.NoBody else Http.UserJson(user))
  }

  class UserController {

    /** `create`: 201 with the new user; 400 for a failed schema and for an
        e-mail already in use. */
    static method Create(svc: Service.UserService, res: Http.HttpResponse, data: Dao.CreateData,
                         id: UserId, now: int, salt: nat)
      requires svc.dao.Valid()
      requires id !in svc.dao.users && Dao.NotAfter(svc.dao.users, now)
      modifies svc.dao, res
      ensures svc.dao.Valid() && res.cookies == old(res.cookies)
      ensures var issues := Validation.CreateIssues(data.name, data.email, data.password);
        && (issues != [] ==> res.status == 400 && res.body == Http.IssuesJson(issues))
        && (issues == [] && Dao.EmailInUse(old(svc.dao.users), data.email) ==>
              res.status == 400 && res.body == Http.ErrorJson(Dao.EMAIL_IN_USE))
        && (res.status == 201 <==> issues == [] && !Dao.EmailInUse(old(svc.dao.users), data.email))
        && (res.status == 201 || res.status == 400)
      ensures res.status == 400 ==> svc.dao.users == old(svc.dao.users)
      ensures res.status == 201 ==>
        && res.body == Http.UserJson(Service.PublicUser(id, data.name, data.email, now))
        && id in svc.dao.users && svc.dao.users == old(svc.dao.users)[id := svc.dao.users[id]]
        && Bcrypt.Verifies(svc.dao.users[id].password, data.password)
    {
      var issues := Validation.CreateIssues(data.name, data.email, data.password);
      if issues != [] {
        res.Send(Http.Caught(Invalid(issues)));
        return;
      }
      var user := svc.CreateUser(data, id, now, salt);
      match user
      case Err(e) => res.Send(Http.Caught(e));
      case Ok(u) => res.Send(Http.Reply(201, Http.UserJson(u)));
    }

    /** `getAll`: `page` defaults to 1 and `limit` to 10; always 200 with the page. */
    static method GetAll(svc: Service.UserService, res: Http.HttpResponse, page: Option<int>, limit: Option<int>)
      requires svc.dao.Valid()
      requires page.GetOr(DEFAULT_PAGE) >= 1 && limit.GetOr(DEFAULT_LIMIT) >= 1
      modifies res
      ensures res.cookies == old(res.cookies)
      ensures res.status == 200 && res.body.PageJson?
      ensures var meta := res.body.page.meta;
        && meta.currentPage == page.GetOr(DEFAULT_PAGE) && meta.perPage == limit.GetOr(DEFAULT_LIMIT)
        && meta.totalItems == |svc.dao.users|
        && meta.totalPages == Service.CeilDiv(|svc.dao.users|, limit.GetOr(DEFAULT_LIMIT))
      ensures var skip := Dao.Skip(page.GetOr(DEFAULT_PAGE), limit.GetOr(DEFAULT_LIMIT));
        var items := res.body.page.items;
        var n := |svc.dao.users|;
        && |items| == (if skip >= n then 0 else if skip + limit.GetOr(DEFAULT_LIMIT) <= n then limit.GetOr(DEFAULT_LIMIT) else n - skip)
        && forall k :: 0 <= k < |items| ==> items[k] == Service.WithoutPassword(svc.dao.Rows()[skip + k])
    {
      var users := svc.GetUsers(page.GetOr(DEFAULT_PAGE), limit.GetOr(DEFAULT_LIMIT));
      res.Send(Http.Reply(200, Http.PageJson(users)));
    }

    /** `getById`: 200 with the user, 404 when there is none. */
    static method GetById(svc: Service.UserService, res: Http.HttpResponse, id: UserId)
      requires svc.dao.Valid()
      modifies res
      ensures res.cookies == old(res.cookies)
      ensures id in svc.dao.users ==>
        res.status == 200 && res.body == Http.UserJson(Service.WithoutPassword(svc.dao.users[id]))
      ensures id !in svc.dao.users ==>
        res.status == 404 && res.body == Http.ErrorJson(Service.USER_NOT_FOUND)
    {
      var user := svc.GetUserById(id);
      if user.Some? {
        res.Send(Http.Reply(200, Http.UserJson(user.value)));
        return;
      }
      res.Send(Http.Reply(404, Http.ErrorJson(Service.USER_NOT_FOUND)));
    }

    /** `update`: 200 with the updated user, 404 for an unknown id, 400 for a
        failed schema or an e-mail held by someone else. Any session may update
        any user. */
    static method Update(svc: Service.UserService, res: Http.HttpResponse, id: UserId, data: Dao.UpdateData, salt: nat)
      requires svc.dao.Valid()
      modifies svc.dao, res
      ensures svc.dao.Valid() && res.cookies == old(res.cookies)
      ensures var issues := Validation.UpdateIssues(data.name, data.email, data.password);
        && (issues != [] ==> res.status == 400 && res.body == Http.IssuesJson(issues))
        && (issues == [] && id !in old(svc.dao.users) ==>
              res.status == 404 && res.body == Http.ErrorJson(Service.USER_NOT_FOUND))
        && ((issues == [] && id in old(svc.dao.users) && data.email.Some?
              && Dao.EmailHeldByOther(old(svc.dao.users), data.email.value, id)) ==>
              res.status == 400 && res.body == Http.ErrorJson(Dao.EMAIL_IN_USE))
        && (res.status == 200 <==>
              issues == [] && id in old(svc.dao.users)
              && !(data.email.Some? && Dao.EmailHeldByOther(old(svc.dao.users), data.email.value, id)))
      ensures res.status == 200 || res.status == 400 || res.status == 404
      ensures res.status != 200 ==> svc.dao.users == old(svc.dao.users)
      ensures res.status == 200 ==>
        var before := old(svc.dao.users)[id];
        && id in old(svc.dao.users) && id in svc.dao.users
        && svc.dao.users == old(svc.dao.users)[id := svc.dao.users[id]]
        && res.body == Http.UserJson(Service.WithoutPassword(svc.dao.users[id]))
        && svc.dao.users[id].name == data.name.GetOr(before.name)
        && svc.dao.users[id].email == data.email.GetOr(before.email)
        && svc.dao.users[id].createdAt == before.createdAt
        && (data.password.None? ==> svc.dao.users[id].password == before.password)
        && (data.password.Some? ==> Bcrypt.Verifies(svc.dao.users[id].password, data.password.value))
    {
      var issues := Validation.UpdateIssues(data.name, data.email, data.password);
      if issues != [] {
        res.Send(Http.Caught(Invalid(issues)));
        return;
      }
      var user := svc.UpdateUser(id, data, salt);
      res.Send(OutcomeReply(user, 200, false));
    }

    /** `delete`: 204 with no body once the user is gone. Any session may delete
        any user. */
    static method Delete(svc: Service.UserService, res: Http.HttpResponse, id: UserId)
      requires svc.dao.Valid()
      modifies svc.dao, res
      ensures svc.dao.Valid() && res.cookies == old(res.cookies)
      ensures id in old(svc.dao.users) ==>
        res.status == 204 && res.body == Http.NoBody && svc.dao.users == old(svc.dao.users) - {id}
      ensures id !in old(svc.dao.users) ==>
        && res.status == 400 && res.body == Http.ErrorJson(Dao.RECORD_TO_DELETE_NOT_FOUND)
        && svc.dao.users == old(svc.dao.users)
    {
      var user := svc.DeleteUser(id);
      res.Send(OutcomeReply(user, 204, true));
    }

    /** `changePassword`: first the ownership guard (401), then the schema (400),
        then the service, whose errors (unknown user, wrong current password)
        are all 400. */
    static method ChangePassword(svc: Service.UserService, res: Http.HttpResponse, sessionUserId: Option<UserId>,
                                 targetUserId: UserId, currentPassword: string, newPassword: string, salt: nat)
      requires svc.dao.Valid()
      modifies svc.dao, res
      ensures svc.dao.Valid() && res.cookies == old(res.cookies)
      ensures !OwnsTarget(sessionUserId, targetUserId) ==>
        res.status == 401 && res.body == Http.ErrorJson(NOT_AUTHORIZED)
      ensures var issues := Validation.ChangePasswordIssues(currentPassword, newPassword);
        var before := old(svc.dao.users);
        && (OwnsTarget(sessionUserId, targetUserId) && issues != [] ==>
              res.status == 400 && res.body == Http.IssuesJson(issues))
        && ((OwnsTarget(sessionUserId, targetUserId) && issues == [] && targetUserId !in before) ==>
              res.status == 400 && res.body == Http.ErrorJson(Service.USER_NOT_FOUND))
        && ((OwnsTarget(sessionUserId, targetUserId) && issues == [] && targetUserId in before
              && !Bcrypt.Verifies(before[targetUserId].password, currentPassword)) ==>
              res.status == 400 && res.body == Http.ErrorJson(Service.WRONG_CURRENT_PASSWORD))
        && (res.status == 200 <==>
              OwnsTarget(sessionUserId, targetUserId) && issues == [] && targetUserId in before
              && Bcrypt.Verifies(before[targetUserId].password, currentPassword))
      ensures res.status == 200 || res.status == 400 || res.status == 401
      ensures res.status != 200 ==> svc.dao.users == old(svc.dao.users)
      ensures res.status == 200 ==>
        && targetUserId in svc.dao.users
        && svc.dao.users == old(svc.dao.users)[targetUserId :=
             old(svc.dao.users)[targetUserId].(password := svc.dao.users[targetUserId].password)]
        && Bcrypt.Verifies(svc.dao.users[targetUserId].password, newPassword)
        && res.body == Http.UserJson(Service.WithoutPassword(svc.dao.users[targetUserId]))
    {
      if !OwnsTarget(sessionUserId, targetUserId) {
        res.Send(Http.Reply(401, Http.ErrorJson(NOT_AUTHORIZED)));
        return;
      }
      var issues := Validation.ChangePasswordIssues(currentPassword, newPassword);
      if issues != [] {
        res.Send(Http.Caught(Invalid(issues)));
        return;
      }
      var user := svc.ChangePassword(targetUserId, currentPassword, newPassword, salt);
      res.Send(OutcomeReply(user, 200, false));
    }
  }
}
