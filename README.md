# User API core, modelled and verified in Dafny

This project models the core of a small Express user API (`GabrielFpaiva/API-RESTful`):
the user table and its data-access object (`UserDao`), the service that strips password
hashes and computes pagination (`UserService`), the user and auth controllers with their
status codes and the session cookie, and the session middleware that checks the signed
token.

Modules, one per source file or component:

- `Common` (common.dfy): user ids, `Option`, and `Result` with the `Error` each layer throws.
- `Validation` (validation.dfy): the Zod schemas. Each one yields the list of messages of
  its failed checks, in key order.
- `Bcrypt` (bcrypt.dfy): a salted hash and `bcrypt.compare`. The salt is a parameter.
- `Jwt` (jwt.dfy): a token is its claims plus the key that signed it, or a malformed
  string. `Verify` follows the "exp" rule of section 4.1.4 of RFC 7519.
- `Dao` (user_dao.dfy): class `UserDao`. It holds a map from id to record, and `order`,
  the ids newest first, which stands for the `createdAt`-descending query.
- `Service` (user_service.dfy): class `UserService` over the shared DAO, plus its pure
  parts: password stripping, ceiling division, and the login-after-password-change theorem.
- `Http` (http.dfy): bodies and replies, cookie options, and what a browser does with a
  `Set-Cookie` (section 5.3 of RFC 6265). Also the response, request and `next` objects.
- `Middleware` (auth_middleware.dfy): `authMiddleware` as a decision function and as a
  method on the request, the response and `next`.
- `AuthControllers` (auth_controller.dfy) and `UserControllers` (user_controllers.dfy):
  the handlers as static methods of `AuthController` and `UserController`.
- `Routes` (routes.dfy): which routes carry the middleware. Two routes are composed end
  to end: the password change and the deletion.

The table invariant (`Dao.Wellformed`) says:
- each record sits under its own id;
- no two records share an e-mail;
- `order` lists every id exactly once, newest first.

Every mutating DAO method keeps it. Passwords are stored only as `Bcrypt.Hash` values,
which are a different type from strings.

Where the route documentation and the code disagree, the model follows the code. The
documentation says a wrong current password gets 401 (src/routes/userRoutes.ts:237-238)
and an unknown id on delete gets 404 (src/routes/userRoutes.ts:194-195). The code answers 400 in both cases. Every `Error`
reaching a handler's `catch` becomes 400, and the database client throws when `delete`
finds no record.

## Model

| member | source | states |
|---|---|---|
| `Validation.CreateIssues` | src/dao/userDao.ts:7-13 | creation passes exactly when the name has at least 3 characters, the e-mail is valid and the password has at least 6; each failed check contributes its own message |
| `Validation.UpdateIssues` | src/dao/userDao.ts:15-20 | an update passes exactly when every field present meets the creation check for that field; an empty update passes |
| `Validation.ChangePasswordIssues` | src/controllers/userControllers.ts:19-22 | a password change passes exactly when the current password is non-empty and the new one has at least 6 characters |
| `Validation.LoginIssues` | src/controllers/authController.ts:9-12 | a login body passes exactly when the e-mail is valid and the password is non-empty |
| `Bcrypt.HashPassword` | src/dao/userDao.ts:32 | the hash verifies the hashed password and no other password, and carries the given salt |
| `Bcrypt.VerifiesOnlyOne` | src/dao/userDao.ts:132-135 | a stored hash verifies at most one password |
| `Jwt.Verify` | src/middleware/authMiddleware.ts:22 | a token yields a user id exactly when it was signed with the configured secret and the current time is before its "exp" time (section 4.1.4 of RFC 7519), and the id is the token's own `id` claim; a bad signature, an expired token and an unparsable string are one failure |
| `Jwt.GenerateToken` | src/utils/tokenUtils.ts:4-6 | a new token verifies with the signing secret to the user's id until 24 hours after issue and never after; it verifies with no other secret |
| `Jwt.ExpiredIsRefused` | src/middleware/authMiddleware.ts:22 | a token whose expiry is not after now is refused, whatever key signed it |
| `Jwt.VerifiedEarlier` | src/middleware/authMiddleware.ts:22 | a token that verifies now verified at every earlier time, and does not verify under any other secret |
| `Dao.UserDao.Create` | src/dao/userDao.ts:23-42 | schema failure and e-mail in use are thrown and leave the table unchanged; otherwise exactly one new record is added, with the given fields and a hash that verifies the password; the invariant holds |
| `Dao.UserDao.GetAll` | src/dao/userDao.ts:44-56 | returns the users at positions `(page-1)*limit` onwards of the newest-first listing, `limit` of them or as many as remain |
| `Dao.UserDao.GetTotalCount` | src/dao/userDao.ts:58-60 | the count equals the number of records and the length of the listing |
| `Dao.UserDao.GetUserById` | src/dao/userDao.ts:62-68 | finds a record exactly when the id is in the table, and returns that record |
| `Dao.UserDao.GetUserByEmail` | src/dao/userDao.ts:70-76 | finds a record exactly when some user has that e-mail, and returns that user's record |
| `Dao.UserDao.Update` | src/dao/userDao.ts:78-105 | the schema is checked first, then existence (null, no change), then an e-mail held by another id (thrown, no change); on success only that record changes, in exactly the supplied fields, and a supplied password is stored re-hashed |
| `Dao.UserDao.UpdatePassword` | src/dao/userDao.ts:107-122 | a new password under 6 characters is thrown with no change; otherwise only that record's hash changes, to one that verifies the new password |
| `Dao.UserDao.Delete` | src/dao/userDao.ts:124-130 | an unknown id is thrown with no change; otherwise the record is returned and removed from the table and from the listing |
| `Dao.UserDao.VerifyPassword` | src/dao/userDao.ts:132-136 | the comparison succeeds exactly for a password the stored hash verifies, and when it succeeds that password is the only one the hash accepts |
| `Dao.VerifyPasswordRoundTrip` | src/dao/userDao.ts:132-135 | for a record whose hash was made from `p`, `verifyPassword` succeeds for `p` and for no other password |
| `Dao.ListingIsTable` | src/dao/userDao.ts:47-53 | the listing holds every user exactly once, ordered by `createdAt` descending |
| `Dao.InsertKeepsWellformed` | src/dao/userDao.ts:27-40 | adding a record with a new id, an e-mail nobody holds and a creation time no earlier than any stored one, at the front of the listing, keeps the table invariant |
| `Dao.InsertKeepsEmailsUnique` | src/dao/userDao.ts:27-30 | a new record whose e-mail nobody holds keeps e-mails unique |
| `Dao.InsertKeepsNewestFirst` | src/dao/userDao.ts:34-40 | a record created no earlier than any stored one, put first, keeps the listing newest first |
| `Dao.ReplaceKeepsWellformed` | src/dao/userDao.ts:87-102 | overwriting a record with its own id and creation time, and an e-mail no other user holds, keeps e-mails unique and the listing intact |
| `Dao.RemoveNewestFirst` | src/dao/userDao.ts:124-127 | removing an id from the listing keeps it ordered newest first |
| `Dao.RemoveDistinct` | src/dao/userDao.ts:124-127 | removing an id keeps the listing free of repeats and shortens it by one exactly when the id was there |
| `Dao.RemoveMembers` | src/dao/userDao.ts:124-127 | after removal the listing holds exactly the other ids |
| `Service.WithoutPassword` | src/services/userService.ts:9-10 | the returned user keeps the id, name, e-mail and creation time, and has no field that could hold the hash |
| `Service.WithoutPasswordDropsOnlyThePassword` | src/services/userService.ts:9-10 | two users give the same returned user exactly when they differ at most in their password hash |
| `Service.WithoutPasswords` | src/services/userService.ts:19-22 | every listed user is returned, in order, without its hash |
| `Service.CeilDiv` | src/services/userService.ts:16 | `totalPages` is the fewest pages of `limit` users that hold all users |
| `Service.PageIsOccupiedIff` | src/services/userService.ts:14-28 | a page holds at least one user exactly when its number is at most `totalPages` |
| `Service.NewPasswordReplacesOld` | src/services/userService.ts:50-67 | after a password change, login with the new password succeeds and with any other password, the old one included, fails |
| `Service.UserService.CreateUser` | src/services/userService.ts:7-11 | the DAO's create, with the same error cases; the returned user is the new record without its hash |
| `Service.UserService.GetUsers` | src/services/userService.ts:13-30 | items are the DAO's page without hashes; meta holds the total count, `totalPages` as the ceiling of count over limit, and the requested page and limit |
| `Service.UserService.GetUserById` | src/services/userService.ts:32-39 | a user exactly when the id exists, and without its hash |
| `Service.UserService.UpdateUser` | src/services/userService.ts:41-48 | the DAO's update with the same cases: it returns a user exactly when the body is valid, the id exists and no other user holds a supplied e-mail; the returned user is the updated record, with the supplied fields, without its hash |
| `Service.UserService.ChangePassword` | src/services/userService.ts:50-67 | unknown user is thrown first, then a current password that does not verify; both leave the table unchanged; on success only the hash changes, to one that verifies the new password |
| `Service.UserService.DeleteUser` | src/services/userService.ts:69-76 | the DAO's delete; the removed user is returned without its hash |
| `Service.UserService.AuthenticateUser` | src/services/userService.ts:78-91 | returns a user exactly when some user has that e-mail and its hash verifies the password; unknown e-mail and wrong password give the same null |
| `Http.Caught` | src/controllers/userControllers.ts:117-119 | every thrown `Error` becomes 400 with its message, or with its issue list for a schema error |
| `Http.Store` | src/controllers/authController.ts:29-35 | a browser stores a set cookie under its name and path, removes an expired one, and keeps every other cookie |
| `Middleware.Decide` | src/middleware/authMiddleware.ts:16-27 | accepts exactly a present, non-empty cookie that verifies, with the token's id; otherwise rejects with 'Token não fornecido' for a missing cookie and 'Token inválido' for the rest |
| `Middleware.AuthMiddleware` | src/middleware/authMiddleware.ts:13-28 | on acceptance `req.userId` is the token's id, `next` is called once and the response is untouched; on rejection the response is 401 with the message, `next` is not called and `req.userId` is untouched |
| `Middleware.IssuedTokenAccepted` | src/utils/tokenUtils.ts:5 | a token issued with the middleware's secret is accepted for 24 hours and refused as invalid afterwards |
| `Middleware.ForeignTokenRejected` | src/middleware/authMiddleware.ts:22 | a token signed with another secret is refused as invalid |
| `AuthControllers.LogoutCookieOptions` | src/controllers/authController.ts:56-61 | logout clears the cookie with exactly login's options, without the lifetime |
| `AuthControllers.LoginCookieAttributes` | src/controllers/authController.ts:29-35 | the login cookie is `httpOnly`, `sameSite` strict, path `/`, secure exactly when `NODE_ENV` is `production`, and lives as long as the token |
| `AuthControllers.AuthController.Login` | src/controllers/authController.ts:15-51 | an invalid body gives 400 and no cookie; bad credentials give the one 401 'Email ou senha inválidos' and no cookie; otherwise 200 with id, name and e-mail and exactly one `accessToken` cookie holding a token for that user |
| `AuthControllers.AuthController.Logout` | src/controllers/authController.ts:53-70 | always 200, and exactly one directive expiring `accessToken` |
| `AuthControllers.LogoutUndoesLogin` | src/controllers/authController.ts:55-63 | logout's directive removes the cookie login stored, and applying it twice is the same as once |
| `UserControllers.OwnsTarget` | src/controllers/userControllers.ts:103-106 | a request without a session user owns no target, and one that owns a target has that target's id as its `userId` |
| `UserControllers.SessionOwnsOnlyItself` | src/controllers/userControllers.ts:106 | a session passes the ownership guard for its own user id and for no other |
| `UserControllers.OutcomeReply` | src/controllers/userControllers.ts:112-119 | a user gives the success status, null gives 404, a thrown error gives 400 |
| `UserControllers.UserController.Create` | src/controllers/userControllers.ts:25-39 | 201 with the new user exactly when the body is valid and the e-mail is free; schema failure and duplicate e-mail are both 400 and change nothing |
| `UserControllers.UserController.GetAll` | src/controllers/userControllers.ts:41-53 | page defaults to 1 and limit to 10; always 200 with that page of users, the total count, `totalPages` as the ceiling of count over limit, and the page and limit used |
| `UserControllers.UserController.GetById` | src/controllers/userControllers.ts:55-68 | 200 with the user when it exists, else 404 |
| `UserControllers.UserController.Update` | src/controllers/userControllers.ts:70-86 | 400 for a bad body or an e-mail held by another user, 404 for an unknown id, and 200 exactly when none of these holds; on 200 only that record changes, to the supplied name, e-mail and password with the rest kept, and the body is that record without its hash; no ownership check |
| `UserControllers.UserController.Delete` | src/controllers/userControllers.ts:88-99 | 204 with no body and the user removed; an unknown id gives 400 with no change; no ownership check |
| `UserControllers.UserController.ChangePassword` | src/controllers/userControllers.ts:101-124 | 401 whenever the session user is not the target, before validation or lookup and with no change; then 400 for a bad body, for an unknown user and for a wrong current password; 200 exactly when all pass, with the new hash verifying the new password |
| `Routes.NeedsSession` | src/routes/userRoutes.ts:53-242 | exactly the `/users` routes other than `POST /users` carry the session middleware; registration (`POST /users`), login and logout do not |
| `Routes.PatchPasswordRoute` | src/routes/userRoutes.ts:242 | without a valid token, or with one for another user, the answer is 401; the table changes only for the token's own user, whose current password verified, and afterwards the new password verifies |
| `Routes.DeleteUserRoute` | src/routes/userRoutes.ts:197 | without a valid token: 401 and no change; with any valid token an existing user is deleted, 204 |

## Left out

- The database (Prisma) is replaced by the in-memory table. It generates a fresh uuid and
  a creation time for each new user. These become parameters of `Create`, which requires
  the id to be new and the clock not to be behind any stored `createdAt`.
- Users with equal `createdAt` come out latest-created first. The database leaves their
  order unspecified.
- The database client's behaviour on a missing id in `update` and `delete` is taken to be
  a thrown `Error` (Prisma's "record not found"). `UserSchema.parse(null)` would throw as
  well. So the null branches of `deleteUser` and `changePassword` are never taken, and
  neither are the controllers' 404 answers after those calls.
- `Bcrypt.Digest` is a stand-in for bcrypt's key derivation. It is injective for a fixed
  salt. Salt generation, the cost factor of 10, the 72-byte truncation of passwords and
  the constant-time comparison are not modelled.
- Tokens are not encoded or signed (no HMAC, no base64url). A token is its claims plus
  the signing key. The one time check is `now < exp`. A token signed with the secret but
  without an `id` claim would set `req.userId` to undefined; it is not modelled.
- Configuration (src/config/config.ts) is not part of this model. The signing secret and
  `NODE_ENV` are parameters. `JWT_EXPIRATION` is never used for signing; the lifetime is
  the literal 24 hours.
- Zod's e-mail regex is replaced by `Validation.IsEmail` (an '@' with text on both sides).
- Zod counts string length in UTF-16 code units; the model counts characters.
- Request-body fields that are missing or are not strings are not modelled. Neither is
  the exact text of a `ZodError` message; the model keeps its list of issue messages.
- `UserControllers.UserController.GetAll` requires `page` and `limit` to be at least 1.
  `Number(...)` parsing, NaN, zero and negative values are not modelled.
- Non-`Error` throws (the 500 answers) cannot arise in the model.
- Async interleaving is not modelled; each DAO call is atomic. Logging is left out.
- Server wiring (src/index.ts), Swagger generation and route registration are not
  modelled. The routes only appear in `Routes.NeedsSession` and the two composed routes.
