/** The service layer: it sequences the DAO's calls, strips the password hash from
    every user it hands back, and computes the pagination metadata. */
module Service {
  import opened Common
  import Validation
  import Bcrypt
  import Dao

  const USER_NOT_FOUND := "Usuário não encontrado"
  const WRONG_CURRENT_PASSWORD := "Senha atual incorreta"

  /** `UserWithoutPassword`: a user as the API returns it; it has no field that
      could carry the password hash. */
  datatype PublicUser = PublicUser(id: UserId, name: string, email: string, createdAt: int)

  /** `const { password, ...userWithoutPassword } = user`. */
  function WithoutPassword(u: Dao.User): (r: PublicUser)
    ensures r.id == u.id && r.name == u.name && r.email == u.email && r.createdAt == u.createdAt
  {
    PublicUser(u.id, u.name, u.email, u.createdAt)
  }

  /** Two users look the same from outside exactly when they differ at most in
      their password hash. */
  lemma WithoutPasswordDropsOnlyThePassword(u: Dao.User, v: Dao.User)
    ensures WithoutPassword(u) == WithoutPassword(v) <==> u.(password := v.password) == v
  {
  }

  function WithoutPasswords(users: seq<Dao.User>): (r: seq<PublicUser>)
    ensures |r| == |users|
    ensures forall k :: 0 <= k < |users| ==> r[k] == WithoutPassword(users[k])
  {
    seq(|users|, k requires 0 <= k < |users| => WithoutPassword(users[k]))
  }

  datatype Meta = Meta(totalItems: nat, totalPages: nat, currentPage: int, perPage: int)

  datatype UsersPage = UsersPage(items: seq<PublicUser>, meta: Meta)

  /** `Math.ceil(n / d)` on integers: the fewest pages of `d` that hold `n` items. */
  function CeilDiv(n: nat, d: nat): (q: nat)
    requires d >= 1
    ensures q * d >= n
    ensures q == 0 || (q - 1) * d < n
  {
    var q := (n + d - 1) / d;
    assert q * d >= n by {
      assert (n + d - 1) == q * d + (n + d - 1) % d;
    }
    assert q == 0 || (q - 1) * d < n by {
      assert (n + d - 1) == q * d + (n + d - 1) % d;
      assert (q - 1) * d == q * d - d;
    }
    q
  }

  /** Page `page` (counted from 1) of `limit` users holds somebody exactly when it
      is one of the `totalPages` pages the metadata announces. */
  lemma PageIsOccupiedIff(totalItems: nat, page: int, limit: int)
    requires page >= 1 && limit >= 1
    ensures (page - 1) * limit < totalItems <==> page <= CeilDiv(totalItems, limit)
  {
    var q := CeilDiv(totalItems, limit);
    if page <= q {
      ScaleMonotone(page - 1, q - 1, limit);
    } else {
      ScaleMonotone(q, page - 1, limit);
    }
  }

  lemma ScaleMonotone(a: int, b: int, c: nat)
    requires a <= b
    ensures a * c <= b * c
  {
    var d := b - a;
    assert b * c == a * c + d * c;
  }

  /** There is a user with that e-mail whose stored hash verifies the password. */
  ghost predicate Credentials(users: map<UserId, Dao.User>, email: string, password: string) {
    exists id :: id in users && users[id].email == email && Bcrypt.Verifies(users[id].password, password)
  }

  /** After a password change, the new password logs the user in and any other
      password, the old one included, does not. */
  lemma NewPasswordReplacesOld(users: map<UserId, Dao.User>, id: UserId, h: Bcrypt.Hash, newPassword: string, other: string)
    requires Dao.KeysMatch(users) && Dao.EmailsUnique(users)
    requires id in users
    requires Bcrypt.Verifies(h, newPassword) && other != newPassword
    ensures Credentials(users[id := users[id].(password := h)], users[id].email, newPassword)
    ensures !Credentials(users[id := users[id].(password := h)], users[id].email, other)
  {
    var after := users[id := users[id].(password := h)];
    assert after[id].email == users[id].email;
    forall x | x in after && after[x].email == users[id].email
      ensures !Bcrypt.Verifies(after[x].password, other)
    {
      assert users[x].email == users[id].email;
      if Bcrypt.Verifies(h, other) {
        Bcrypt.VerifiesOnlyOne(h, other, newPassword);
      }
    }
  }

  /** The service. Every instance works on the one shared DAO. */
  class UserService {
    const dao: Dao.UserDao

    constructor (dao: Dao.UserDao)
      ensures this.dao == dao
    {
      this.dao := dao;
    }

    /** `createUser`: the DAO's `create`, with the hash stripped. */
    method CreateUser(data: Dao.CreateData, id: UserId, now: int, salt: nat) returns (r: Result<PublicUser>)
      requires dao.Valid()
      requires id !in dao.users && Dao.NotAfter(dao.users, now)
      modifies dao
      ensures dao.Valid()
      ensures var issues := Validation.CreateIssues(data.name, data.email, data.password);
        && (issues != [] ==> r == Err(Invalid(issues)))
        && (issues == [] && Dao.EmailInUse(old(dao.users), data.email) ==> r == Err(Thrown(Dao.EMAIL_IN_USE)))
        && (r.Ok? <==> issues == [] && !Dao.EmailInUse(old(dao.users), data.email))
      ensures r.Err? ==> dao.users == old(dao.users) && dao.order == old(dao.order)
      ensures r.Ok? ==>
        && r.value == PublicUser(id, data.name, data.email, now)
        && id in dao.users && dao.users == old(dao.users)[id := dao.users[id]]
        && WithoutPassword(dao.users[id]) == r.value
        && Bcrypt.Verifies(dao.users[id].password, data.password)
    {
      var created := dao.Create(data, id, now, salt);
      match created
      case Err(e) => r := Err(e);
      case Ok(user) => r := Ok(WithoutPassword(user));
    }

    /** `getUsers`: one page of users without their hashes, and the metadata. */
    method GetUsers(page: int, limit: int) returns (r: UsersPage)
      requires dao.Valid()
      requires page >= 1 && limit >= 1
      ensures var skip := Dao.Skip(page, limit);
        && |r.items| == (if skip >= |dao.users| then 0 else if skip + limit <= |dao.users| then limit else |dao.users| - skip)
        && forall k :: 0 <= k < |r.items| ==> r.items[k] == WithoutPassword(dao.Rows()[skip + k])
      ensures r.meta.totalItems == |dao.users| && r.meta.currentPage == page && r.meta.perPage == limit
      ensures r.meta.totalPages == CeilDiv(|dao.users|, limit)
      ensures r.meta.totalPages * limit >= |dao.users|
      ensures r.meta.totalPages == 0 || (r.meta.totalPages - 1) * limit < |dao.users|
    {
      var users := dao.GetAll(page, limit);
      var totalItems := dao.GetTotalCount();
      var totalPages := CeilDiv(totalItems, limit);
      r := UsersPage(WithoutPasswords(users), Meta(totalItems, totalPages, page, limit));
    }

    /** `getUserById`: the user without the hash, or `undefined`. */
    method GetUserById(id: UserId) returns (r: Option<PublicUser>)
      requires dao.Valid()
      ensures r.Some? <==> id in dao.users
      ensures r.Some? ==> r.value == WithoutPassword(dao.users[id]) && r.value.id == id
    {
      var user := dao.GetUserById(id);
      if user.Some? {
        r := Some(WithoutPassword(user.value));
      } else {
        r := None;
      }
    }

    /** `updateUser`: the DAO's `update`, with the hash stripped. */
    method UpdateUser(id: UserId, data: Dao.UpdateData, salt: nat) returns (r: Result<Option<PublicUser>>)
      requires dao.Valid()
      modifies dao
      ensures dao.Valid() && dao.order == old(dao.order)
      ensures var issues := Validation.UpdateIssues(data.name, data.email, data.password);
        && (issues != [] ==> r == Err(Invalid(issues)))
        && (issues == [] && id !in old(dao.users) ==> r == Ok(None))
        && ((issues == [] && id in old(dao.users) && data.email.Some? && Dao.EmailHeldByOther(old(dao.users), data.email.value, id))
              ==> r == Err(Thrown(Dao.EMAIL_IN_USE)))
        && (r.Ok? && r.value.Some? <==>
              issues == [] && id in old(dao.users)
              && !(data.email.Some? && Dao.EmailHeldByOther(old(dao.users), data.email.value, id)))
      ensures !(r.Ok? && r.value.Some?) ==> dao.users == old(dao.users)
      ensures r.Ok? && r.value.Some? ==>
        var before := old(dao.users)[id];
        && id in old(dao.users) && id in dao.users
        && dao.users == old(dao.users)[id := dao.users[id]]
        && r.value.value == WithoutPassword(dao.users[id])
        && r.value.value.name == data.name.GetOr(before.name)
        && r.value.value.email == data.email.GetOr(before.email)
        && r.value.value.createdAt == before.createdAt
        && (data.password.None? ==> dao.users[id].password == before.password)
        && (data.password.Some? ==> Bcrypt.Verifies(dao.users[id].password, data.password.value))
    {
      var updated := dao.Update(id, data, salt);
      match updated
      case Err(e) => r := Err(e);
      case Ok(None) => r := Ok(None);
      case Ok(Some(user)) => r := Ok(Some(WithoutPassword(user)));
    }

    /** `changePassword`: the user must exist, then the current password must
        verify, and only then is the new one hashed and stored. */
    method ChangePassword(userId: UserId, currentPassword: string, newPassword: string, salt: nat)
      returns (r: Result<Option<PublicUser>>)
      requires dao.Valid()
      modifies dao
      ensures dao.Valid() && dao.order == old(dao.order)
      ensures userId !in old(dao.users) ==> r == Err(Thrown(USER_NOT_FOUND))
      ensures userId in old(dao.users) && !Bcrypt.Verifies(old(dao.users)[userId].password, currentPassword)
        ==> r == Err(Thrown(WRONG_CURRENT_PASSWORD))
      ensures (userId in old(dao.users) && Bcrypt.Verifies(old(dao.users)[userId].password, currentPassword)
        && |newPassword| < 6) ==> r == Err(Thrown(Validation.NEW_PASSWORD_TOO_SHORT))
      ensures r.Err? ==> dao.users == old(dao.users)
      ensures r.Ok? <==>
        userId in old(dao.users) && Bcrypt.Verifies(old(dao.users)[userId].password, currentPassword) && |newPassword| >= 6
      ensures r.Ok? ==>
        && userId in dao.users
        && dao.users == old(dao.users)[userId := old(dao.users)[userId].(password := dao.users[userId].password)]
        && Bcrypt.Verifies(dao.users[userId].password, newPassword)
        && r.value == Some(WithoutPassword(dao.users[userId]))
    {
      var user := dao.GetUserById(userId);
      if user.None? {
        return Err(Thrown(USER_NOT_FOUND));
      }
      var isCurrentPasswordValid := Dao.UserDao.VerifyPassword(user.value, currentPassword);
      if !isCurrentPasswordValid {
        return Err(Thrown(WRONG_CURRENT_PASSWORD));
      }
      var updated := dao.UpdatePassword(userId, newPassword, salt);
      match updated
      case Err(e) => r := Err(e);
      case Ok(u) => r := Ok(Some(WithoutPassword(u)));
    }

    /** `deleteUser`: the DAO's `delete`, with the hash stripped. */
    method DeleteUser(id: UserId) returns (r: Result<Option<PublicUser>>)
      requires dao.Valid()
      modifies dao
      ensures dao.Valid()
      ensures id !in old(dao.users) ==> r == Err(Thrown(Dao.RECORD_TO_DELETE_NOT_FOUND)) && dao.users == old(dao.users)
      ensures id in old(dao.users) ==>
        && r == Ok(Some(WithoutPassword(old(dao.users)[id])))
        && dao.users == old(dao.users) - {id}
    {
      var deleted := dao.Delete(id);
      match deleted
      case Err(e) => r := Err(e);
      case Ok(user) => r := Ok(Some(WithoutPassword(user)));
    }

    /** `authenticateUser`: the user when the e-mail exists and the password
        verifies against its hash; otherwise null, the same null for both
        failures. */
    method AuthenticateUser(email: string, password: string) returns (r: Option<PublicUser>)
      requires dao.Valid()
      ensures r.Some? <==> Credentials(dao.users, email, password)
      ensures r.Some? ==> r.value.email == email && r.value.id in dao.users && r.value == WithoutPassword(dao.users[r.value.id])
    {
      var user := dao.GetUserByEmail(email);
      if user.None? {
        return None;
      }
      var isValidPassword := Dao.UserDao.VerifyPassword(user.value, password);
      if !isValidPassword {
        assert forall id :: id in dao.users && dao.users[id].email == email ==> id == user.value.id;
        return None;
      }
      r := Some(WithoutPassword(user.value));
    }
  }
}
