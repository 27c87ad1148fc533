/** The user table and its data-access object. The table maps each id to its
    record; `order` lists the ids newest first, which is the order the database's
    `createdAt` descending query returns them in. */
module Dao {
  import opened Common
  import opened Validation
  import Bcrypt

  const EMAIL_IN_USE := "Email já está em uso"
  /** The cause the database client reports (as part of its longer "record not
      found" error message) when `update` or `delete` finds no record. */
  const RECORD_TO_UPDATE_NOT_FOUND := "Record to update not found."
  const RECORD_TO_DELETE_NOT_FOUND := "Record to delete does not exist."

  /** A stored user. `password` holds a bcrypt hash, never a plaintext. */
  datatype User = User(id: UserId, name: string, email: string, password: Bcrypt.Hash, createdAt: int)

  datatype CreateData = CreateData(name: string, email: string, password: string)

  /** The fields of an update; `None` is a field left out of the request. */
  datatype UpdateData = UpdateData(name: Option<string>, email: Option<string>, password: Option<string>)

  ghost predicate KeysMatch(users: map<UserId, User>) {
    forall id :: id in users ==> users[id].id == id
  }

  /** No two users share an e-mail (the `@unique` column the DAO checks before writing). */
  ghost predicate EmailsUnique(users: map<UserId, User>) {
    forall a, b :: a in users && b in users && users[a].email == users[b].email ==> a == b
  }

  ghost predicate EmailInUse(users: map<UserId, User>, email: string) {
    exists id :: id in users && users[id].email == email
  }

  /** `email` belongs to a user other than `id`. */
  ghost predicate EmailHeldByOther(users: map<UserId, User>, email: string, id: UserId) {
    exists other :: other in users && users[other].email == email && other != id
  }

  /** No stored user was created after `now`. */
  ghost predicate NotAfter(users: map<UserId, User>, now: int) {
    forall id :: id in users ==> users[id].createdAt <= now
  }

  ghost predicate Distinct(s: seq<UserId>) {
    forall i, j :: 0 <= i < j < |s| ==> s[i] != s[j]
  }

  ghost predicate NewestFirst(order: seq<UserId>, users: map<UserId, User>) {
    forall i, j :: 0 <= i < j < |order| && order[i] in users && order[j] in users ==>
      users[order[i]].createdAt >= users[order[j]].createdAt
  }

  /** The table invariant: records sit under their own id, e-mails are unique,
      and `order` lists every id once, newest first. */
  ghost predicate Wellformed(users: map<UserId, User>, order: seq<UserId>) {
    && KeysMatch(users)
    && EmailsUnique(users)
    && Distinct(order)
    && (forall id :: id in order <==> id in users)
    && |order| == |users|
    && NewestFirst(order, users)
  }

  /** The records in `order`'s order. */
  function Listing(users: map<UserId, User>, order: seq<UserId>): (r: seq<User>)
    requires forall id :: id in order ==> id in users
    ensures |r| == |order|
    ensures forall k :: 0 <= k < |order| ==> r[k] == users[order[k]]
  {
    seq(|order|, k requires 0 <= k < |order| => users[order[k]])
  }

  /** `order` without `id`. */
  function Remove(order: seq<UserId>, id: UserId): seq<UserId> {
    if order == [] then []
    else if order[0] == id then Remove(order[1..], id)
    else [order[0]] + Remove(order[1..], id)
  }

  lemma {:induction false} RemoveMembers(order: seq<UserId>, id: UserId)
    ensures forall x :: x in Remove(order, id) <==> x in order && x != id
  {
    if order != [] {
      RemoveMembers(order[1..], id);
      assert order == [order[0]] + order[1..];
    }
  }

  lemma {:induction false} RemoveDistinct(order: seq<UserId>, id: UserId)
    requires Distinct(order)
    ensures Distinct(Remove(order, id))
    ensures id in order ==> |Remove(order, id)| == |order| - 1
    ensures id !in order ==> Remove(order, id) == order
  {
    if order != [] {
      assert Distinct(order[1..]);
      RemoveDistinct(order[1..], id);
      RemoveMembers(order[1..], id);
      assert order == [order[0]] + order[1..];
      assert order[0] !in order[1..];
    }
  }

  lemma {:induction false} RemoveNewestFirst(order: seq<UserId>, id: UserId, users: map<UserId, User>)
    requires NewestFirst(order, users)
    ensures NewestFirst(Remove(order, id), users)
  {
    if order != [] {
      var tail := order[1..];
      assert NewestFirst(tail, users);
      RemoveNewestFirst(tail, id, users);
      if order[0] != id {
        var r := Remove(order, id);
        RemoveMembers(tail, id);
        forall i, j | 0 <= i < j < |r| && r[i] in users && r[j] in users
          ensures users[r[i]].createdAt >= users[r[j]].createdAt
        {
          if i == 0 {
            assert r[j] in Remove(tail, id);
            var k :| 0 <= k < |tail| && tail[k] == r[j];
            assert order[k + 1] == r[j];
          } else {
            assert r[i] == Remove(tail, id)[i - 1] && r[j] == Remove(tail, id)[j - 1];
          }
        }
      }
    }
  }

  /** At most `take` elements of `s`, starting at index `skip`. */
  function Window<T>(s: seq<T>, skip: nat, take: nat): (w: seq<T>)
    ensures |w| == (if skip >= |s| then 0 else if skip + take <= |s| then take else |s| - skip)
    ensures forall k :: 0 <= k < |w| ==> w[k] == s[skip + k]
  {
    if skip >= |s| then [] else if skip + take <= |s| then s[skip..skip + take] else s[skip..]
  }

  /** Inserting a new record, created no earlier than any stored one and with an
      e-mail nobody holds, at the front of the listing keeps the table well formed. */
  lemma InsertKeepsWellformed(users: map<UserId, User>, order: seq<UserId>, u: User)
    requires Wellformed(users, order)
    requires u.id !in users && NotAfter(users, u.createdAt) && !EmailInUse(users, u.email)
    ensures Wellformed(users[u.id := u], [u.id] + order)
  {
    var after := users[u.id := u];
    var listing := [u.id] + order;
    assert forall x :: x in listing <==> x in after;
    InsertKeepsEmailsUnique(users, u);
    InsertKeepsNewestFirst(users, order, u);
  }

  lemma InsertKeepsEmailsUnique(users: map<UserId, User>, u: User)
    requires EmailsUnique(users) && u.id !in users && !EmailInUse(users, u.email)
    ensures EmailsUnique(users[u.id := u])
  {
    var after := users[u.id := u];
    forall a, b | a in after && b in after
      ensures after[a].email == after[b].email ==> a == b
    {
      if a != u.id && b != u.id {
        assert after[a] == users[a] && after[b] == users[b];
      }
    }
  }

  lemma InsertKeepsNewestFirst(users: map<UserId, User>, order: seq<UserId>, u: User)
    requires NewestFirst(order, users) && u.id !in users && NotAfter(users, u.createdAt)
    requires forall id :: id in order ==> id in users
    ensures NewestFirst([u.id] + order, users[u.id := u])
  {
    var after := users[u.id := u];
    var listing := [u.id] + order;
    forall i, j | 0 <= i < j < |listing| && listing[i] in after && listing[j] in after
      ensures after[listing[i]].createdAt >= after[listing[j]].createdAt
    {
      assert listing[j] == order[j - 1] && listing[j] != u.id;
      if i > 0 {
        assert listing[i] == order[i - 1] && listing[i] != u.id;
      }
    }
  }

  /** Overwriting one record with one of the same id and creation time, whose
      e-mail no other user holds, keeps the table well formed. */
  lemma ReplaceKeepsWellformed(users: map<UserId, User>, order: seq<UserId>, u: User)
    requires Wellformed(users, order)
    requires u.id in users && users[u.id].createdAt == u.createdAt
    requires !EmailHeldByOther(users, u.email, u.id)
    ensures Wellformed(users[u.id := u], order)
  {
    var after := users[u.id := u];
    assert after.Keys == users.Keys;
    forall a, b | a in after && b in after
      ensures after[a].email == after[b].email ==> a == b
    {
      if a == u.id && b != u.id {
        assert after[b] == users[b];
      } else if a != u.id && b == u.id {
        assert after[a] == users[a];
      }
    }
  }

  /** The number of users `getAll` skips: the `limit` users of each page before
      `page`. */
  function Skip(page: int, limit: int): nat
    requires page >= 1 && limit >= 1
  {
    (page - 1) * limit
  }

  /** The user table. The database generates ids (`uuid()`) and creation times
      (`now()`); here they are parameters of `Create`. */
  class UserDao {
    var users: map<UserId, User>
    var order: seq<UserId>

    ghost predicate Valid()
      reads this
    {
      Wellformed(users, order)
    }

    /** Every user, newest first. */
    function Rows(): (rows: seq<User>)
      reads this
      requires Valid()
      ensures |rows| == |users|
      ensures forall k :: 0 <= k < |rows| ==> rows[k] == users[order[k]]
    {
      Listing(users, order)
    }

    constructor ()
      ensures Valid() && users == map[] && order == []
    {
      users := map[];
      order := [];
    }

    /** `create`: validate, refuse an e-mail already in use, hash the password,
        insert the new record. */
    method Create(data: CreateData, id: UserId, now: int, salt: nat) returns (r: Result<User>)
      requires Valid()
      requires id !in users
      requires NotAfter(users, now)
      modifies this
      ensures Valid()
      ensures var issues := CreateIssues(data.name, data.email, data.password);
        && (issues != [] ==> r == Err(Invalid(issues)))
        && (issues == [] && EmailInUse(old(users), data.email) ==> r == Err(Thrown(EMAIL_IN_USE)))
        && (r.Ok? <==> issues == [] && !EmailInUse(old(users), data.email))
      ensures r.Err? ==> users == old(users) && order == old(order)
      ensures r.Ok? ==>
        && r.value == User(id, data.name, data.email, r.value.password, now)
        && Bcrypt.Verifies(r.value.password, data.password)
        && users == old(users)[id := r.value]
        && order == [id] + old(order)
    {
      var issues := CreateIssues(data.name, data.email, data.password);
      if issues != [] {
        return Err(Invalid(issues));
      }
      var existing := GetUserByEmail(data.email);
      if existing.Some? {
        return Err(Thrown(EMAIL_IN_USE));
      }
      var hashed := Bcrypt.HashPassword(data.password, salt);
      var user := User(id, data.name, data.email, hashed, now);
      InsertKeepsWellformed(users, order, user);
      users := users[id := user];
      order := [id] + order;
      r := Ok(user);
    }

    /** `getAll(page, limit)`: skip `(page - 1) * limit` users of the newest-first
        listing and take at most `limit`. */
    method GetAll(page: int, limit: int) returns (r: seq<User>)
      requires Valid()
      requires page >= 1 && limit >= 1
      ensures var skip := Skip(page, limit);
        && |r| == (if skip >= |users| then 0 else if skip + limit <= |users| then limit else |users| - skip)
        && forall k :: 0 <= k < |r| ==> r[k] == Rows()[skip + k]
    {
      var rows := Rows();
      r := Window(rows, Skip(page, limit), limit);
    }

    /** `getTotalCount`: the number of users, which is the length of the listing. */
    method GetTotalCount() returns (n: nat)
      requires Valid()
      ensures n == |users| && n == |Rows()|
    {
      n := |users|;
    }

    /** `getUserById`: the record stored under `id`, if any. */
    method GetUserById(id: UserId) returns (r: Option<User>)
      requires Valid()
      ensures r.Some? <==> id in users
      ensures r.Some? ==> r.value == users[id] && r.value.id == id
    {
      if id in users {
        r := Some(users[id]);
      } else {
        r := None;
      }
    }

    /** `getUserByEmail`: the one record with that e-mail, if any. */
    method GetUserByEmail(email: string) returns (r: Option<User>)
      requires Valid()
      ensures r.None? <==> !EmailInUse(users, email)
      ensures r.Some? ==> r.value.id in users && users[r.value.id] == r.value && r.value.email == email
    {
      if exists id :: id in users && users[id].email == email {
        var id :| id in users && users[id].email == email;
        r := Some(users[id]);
      } else {
        r := None;
      }
    }

    /** `update`: validate, give up with null on an unknown id, refuse an e-mail
        held by another user, then overwrite the supplied fields (re-hashing a
        supplied password). */
    method Update(id: UserId, data: UpdateData, salt: nat) returns (r: Result<Option<User>>)
      requires Valid()
      modifies this
      ensures Valid() && order == old(order)
      ensures var issues := UpdateIssues(data.name, data.email, data.password);
        && (issues != [] ==> r == Err(Invalid(issues)))
        && (issues == [] && id !in old(users) ==> r == Ok(None))
        && ((issues == [] && id in old(users) && data.email.Some? && EmailHeldByOther(old(users), data.email.value, id))
              ==> r == Err(Thrown(EMAIL_IN_USE)))
        && (r.Ok? && r.value.Some? <==>
              issues == [] && id in old(users) && !(data.email.Some? && EmailHeldByOther(old(users), data.email.value, id)))
      ensures !(r.Ok? && r.value.Some?) ==> users == old(users)
      ensures r.Ok? && r.value.Some? ==>
        var before := old(users)[id];
        var after := r.value.value;
        && users == old(users)[id := after]
        && after.id == id && after.createdAt == before.createdAt
        && after.name == data.name.GetOr(before.name)
        && after.email == data.email.GetOr(before.email)
        && (data.password.None? ==> after.password == before.password)
        && (data.password.Some? ==> Bcrypt.Verifies(after.password, data.password.value))
    {
      var issues := UpdateIssues(data.name, data.email, data.password);
      if issues != [] {
        return Err(Invalid(issues));
      }
      var existing := GetUserById(id);
      if existing.None? {
        return Ok(None);
      }
      if data.email.Some? {
        var holder := GetUserByEmail(data.email.value);
        if holder.Some? && holder.value.id != id {
          return Err(Thrown(EMAIL_IN_USE));
        }
        assert !EmailHeldByOther(users, data.email.value, id);
      }
      var password := existing.value.password;
      if data.password.Some? {
        password := Bcrypt.HashPassword(data.password.value, salt);
      }
      var updated := existing.value.(
        name := data.name.GetOr(existing.value.name),
        email := data.email.GetOr(existing.value.email),
        password := password);
      ReplaceKeepsWellformed(users, order, updated);
      users := users[id := updated];
      r := Ok(Some(updated));
    }

    /** `updatePassword`: refuse a new password under 6 characters, otherwise
        store a hash of it in that one record. */
    method UpdatePassword(id: UserId, newPassword: string, salt: nat) returns (r: Result<User>)
      requires Valid()
      modifies this
      ensures Valid() && order == old(order)
      ensures |newPassword| < 6 ==> r == Err(Thrown(NEW_PASSWORD_TOO_SHORT))
      ensures |newPassword| >= 6 && id !in old(users) ==> r == Err(Thrown(RECORD_TO_UPDATE_NOT_FOUND))
      ensures r.Err? ==> users == old(users)
      ensures r.Ok? <==> |newPassword| >= 6 && id in old(users)
      ensures r.Ok? ==>
        && r.value == old(users)[id].(password := r.value.password)
        && Bcrypt.Verifies(r.value.password, newPassword)
        && users == old(users)[id := r.value]
    {
      if |newPassword| < 6 {
        return Err(Thrown(NEW_PASSWORD_TOO_SHORT));
      }
      var hashed := Bcrypt.HashPassword(newPassword, salt);
      if id !in users {
        return Err(Thrown(RECORD_TO_UPDATE_NOT_FOUND));
      }
      var updated := users[id].(password := hashed);
      ReplaceKeepsWellformed(users, order, updated);
      users := users[id := updated];
      r := Ok(updated);
    }

    /** `delete`: remove the record and return it; a missing id throws. */
    method Delete(id: UserId) returns (r: Result<User>)
      requires Valid()
      modifies this
      ensures Valid()
      ensures id !in old(users) ==> r == Err(Thrown(RECORD_TO_DELETE_NOT_FOUND)) && users == old(users) && order == old(order)
      ensures id in old(users) ==>
        && r == Ok(old(users)[id])
        && users == old(users) - {id}
        && order == Remove(old(order), id)
    {
      if id !in users {
        return Err(Thrown(RECORD_TO_DELETE_NOT_FOUND));
      }
      r := Ok(users[id]);
      RemoveMembers(order, id);
      RemoveDistinct(order, id);
      RemoveNewestFirst(order, id, users);
      users := users - {id};
      order := Remove(order, id);
    }

    /** `verifyPassword`: `bcrypt.compare` against the stored hash. */
    static function VerifyPassword(user: User, password: string): (ok: bool)
      ensures Bcrypt.Verifies(user.password, password) ==> ok
      ensures ok ==> Bcrypt.Verifies(user.password, password)
      ensures ok ==> forall other :: Bcrypt.Verifies(user.password, other) ==> other == password
    {
      var ok := Bcrypt.Verifies(user.password, password);
      if ok then
        assert forall other :: Bcrypt.Verifies(user.password, other) ==> other == password by {
          forall other | Bcrypt.Verifies(user.password, other)
            ensures other == password
          {
            Bcrypt.VerifiesOnlyOne(user.password, other, password);
          }
        }
        ok
      else ok
    }
  }

  /** A record whose hash was made from `p` (as `create`, `update` and
      `updatePassword` store it) passes `verifyPassword` for `p` and for no
      other password. */
  lemma VerifyPasswordRoundTrip(user: User, p: string, q: string)
    requires Bcrypt.Verifies(user.password, p)
    ensures UserDao.VerifyPassword(user, q) <==> q == p
  {
    if UserDao.VerifyPassword(user, q) {
      Bcrypt.VerifiesOnlyOne(user.password, p, q);
    }
  }

  /** Every user appears in the listing exactly once, newest first. */
  lemma ListingIsTable(dao: UserDao)
    requires dao.Valid()
    ensures |dao.Rows()| == |dao.users|
    ensures forall id :: id in dao.users <==> exists k :: 0 <= k < |dao.Rows()| && dao.Rows()[k].id == id
    ensures forall i, j :: 0 <= i < j < |dao.Rows()| ==>
      dao.Rows()[i].id != dao.Rows()[j].id && dao.Rows()[i].createdAt >= dao.Rows()[j].createdAt
  {
    var rows := dao.Rows();
    forall id | id in dao.users
      ensures exists k :: 0 <= k < |rows| && rows[k].id == id
    {
      var k :| 0 <= k < |dao.order| && dao.order[k] == id;
      assert rows[k].id == id;
    }
    forall i, j | 0 <= i < j < |rows|
      ensures rows[i].id != rows[j].id && rows[i].createdAt >= rows[j].createdAt
    {
      assert rows[i].id == dao.order[i] && rows[j].id == dao.order[j];
    }
  }
}
