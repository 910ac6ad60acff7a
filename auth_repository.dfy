/**
 * src/v1/repositories/auth.repository.ts: the user table and the refresh-token table.
 * Each table is a class holding a map keyed by row id; the user table also keeps the
 * unique index on email that the database enforces.
 */
module AuthRepository {
  import opened Wrappers
  import opened CustomErrors
  import opened Hashing

  type Id = string

  /** A user row. The password is stored only as a digest. */
  datatype User = User(
    id: Id, email: string, password: Digest, role: string,
    first_name: Option<string>, last_name: Option<string>)

  /** The columns `getUserById` selects: everything but the password. */
  datatype UserInfo = UserInfo(
    id: Id, first_name: Option<string>, last_name: Option<string>, email: string, role: string)

  /** The data given to `createUser`; the id is generated by the database. */
  datatype UserInput = UserInput(
    email: string, password: Digest, role: string,
    first_name: Option<string>, last_name: Option<string>)

  /** The data given to `updateUser`: a column is written only when present. */
  datatype UserChanges = UserChanges(
    email: Option<string>, password: Option<Digest>, role: Option<string>,
    first_name: Option<Option<string>>, last_name: Option<Option<string>>)

  /** A refresh-token row. */
  datatype TokenRow = TokenRow(
    id: Id, user_id: Id, token_hash: Digest, ip_address: string, user_agent: string,
    device: string, expires_at: int, is_active: bool, revoked_at: Option<int>,
    last_used: Option<int>)

  function Info(u: User): (i: UserInfo)
    ensures i.id == u.id && i.email == u.email && i.role == u.role
    ensures i.first_name == u.first_name && i.last_name == u.last_name
  {
    UserInfo(u.id, u.first_name, u.last_name, u.email, u.role)
  }

  function Apply(u: User, c: UserChanges): User {
    User(u.id, c.email.GetOr(u.email), c.password.GetOr(u.password), c.role.GetOr(u.role),
         c.first_name.GetOr(u.first_name), c.last_name.GetOr(u.last_name))
  }

  /** The row after `is_active: false, revoked_at: now`. */
  function Revoked(row: TokenRow, now: int): (r: TokenRow)
    ensures !r.is_active && r.revoked_at == Some(now)
    ensures r.(is_active := row.is_active, revoked_at := row.revoked_at) == row
  {
    row.(is_active := false, revoked_at := Some(now))
  }

  /** Revoking twice leaves the row inactive: a revoked row never comes back. */
  lemma RevokeTwice(row: TokenRow, t1: int, t2: int)
    ensures !Revoked(Revoked(row, t1), t2).is_active
    ensures Revoked(Revoked(row, t1), t2) == Revoked(row, t2)
  {
  }

  ghost predicate EmailInUse(users: map<Id, User>, email: string) {
    exists id :: id in users && users[id].email == email
  }

  class UserStore {
    var users: map<Id, User>
    /** The unique index on `email`. */
    var emails: map<string, Id>

    ghost predicate Valid()
      reads this
    {
      && (forall id :: id in users ==>
            users[id].id == id && users[id].email in emails && emails[users[id].email] == id)
      && (forall e :: e in emails ==> emails[e] in users && users[emails[e]].email == e)
    }

    constructor ()
      ensures Valid() && users == map[]
    {
      users, emails := map[], map[];
    }

    /** `getUserByEmail`: the user with that email, or null. */
    function GetUserByEmail(email: string): (r: Option<User>)
      reads this
      requires Valid()
      ensures r.Some? <==> EmailInUse(users, email)
      ensures r.Some? ==> r.value.id in users && users[r.value.id] == r.value && r.value.email == email
    {
      if email in emails then Some(users[emails[email]]) else None
    }

    /** `getUserById`: id, names, email and role of that user, or null. */
    function GetUserById(id: Id): (r: Option<UserInfo>)
      reads this
      ensures r.Some? <==> id in users
      ensures r.Some? ==> r.value == Info(users[id])
    {
      if id in users then Some(Info(users[id])) else None
    }

    /** `createUser`: insert a row under the generated `id`; a taken id or email violates a unique constraint. */
    method CreateUser(data: UserInput, id: Id) returns (r: Result<User, Thrown>)
      requires Valid()
      modifies this
      ensures Valid()
      ensures r.Ok? <==> id !in old(users) && !EmailInUse(old(users), data.email)
      ensures r.Ok? ==> r.value == User(id, data.email, data.password, data.role, data.first_name, data.last_name)
      ensures r.Ok? ==> users == old(users)[id := r.value]
      ensures r.Err? ==> r.error == StoreFailure(UniqueViolation) && users == old(users) && emails == old(emails)
    {
      if id in users || data.email in emails {
        r := Err(StoreFailure(UniqueViolation));
        return;
      }
      var u := User(id, data.email, data.password, data.role, data.first_name, data.last_name);
      users := users[id := u];
      emails := emails[data.email := id];
      r := Ok(u);
    }

    /** `updateUser`: write the given columns of that user. */
    method UpdateUser(id: Id, changes: UserChanges) returns (r: Result<User, Thrown>)
      requires Valid()
      modifies this
      ensures Valid()
      ensures id !in old(users) ==> r == Err(StoreFailure(RecordNotFound))
      ensures (id in old(users) && changes.email.Some? && changes.email.value != old(users)[id].email
               && EmailInUse(old(users), changes.email.value)) ==> r == Err(StoreFailure(UniqueViolation))
      ensures r.Ok? <==> id in old(users) && (changes.email.None? || changes.email.value == old(users)[id].email
                                              || !EmailInUse(old(users), changes.email.value))
      ensures r.Ok? ==> r.value == Apply(old(users)[id], changes) && users == old(users)[id := r.value]
      ensures r.Err? ==> users == old(users) && emails == old(emails)
    {
      if id !in users {
        r := Err(StoreFailure(RecordNotFound));
        return;
      }
      var before := users[id];
      var after := Apply(before, changes);
      if after.email != before.email && after.email in emails {
        r := Err(StoreFailure(UniqueViolation));
        return;
      }
      users := users[id := after];
      emails := (emails - {before.email})[after.email := id];
      r := Ok(after);
    }

    /** `deleteUser`: remove exactly that user. */
    method DeleteUser(id: Id) returns (r: Result<User, Thrown>)
      requires Valid()
      modifies this
      ensures Valid()
      ensures r.Ok? <==> id in old(users)
      ensures r.Ok? ==> r.value == old(users)[id] && users == old(users) - {id}
      ensures r.Err? ==> r.error == StoreFailure(RecordNotFound) && users == old(users) && emails == old(emails)
    {
      if id !in users {
        r := Err(StoreFailure(RecordNotFound));
        return;
      }
      r := Ok(users[id]);
      emails := emails - {users[id].email};
      users := users - {id};
    }

    /** `updatePassword`: only that user's password column changes. */
    method UpdatePassword(id: Id, newHashedPassword: Digest) returns (r: Result<User, Thrown>)
      requires Valid()
      modifies this
      ensures Valid()
      ensures r.Ok? <==> id in old(users)
      ensures r.Ok? ==> r.value == old(users)[id].(password := newHashedPassword)
      ensures r.Ok? ==> users == old(users)[id := r.value]
      ensures r.Err? ==> r.error == StoreFailure(RecordNotFound) && users == old(users) && emails == old(emails)
    {
      if id !in users {
        r := Err(StoreFailure(RecordNotFound));
        return;
      }
      var u := users[id].(password := newHashedPassword);
      users := users[id := u];
      r := Ok(u);
    }
  }

  class TokenStore {
    var rows: map<Id, TokenRow>

    ghost predicate Valid()
      reads this
    {
      forall id :: id in rows ==> rows[id].id == id
    }

    constructor ()
      ensures Valid() && rows == map[]
    {
      rows := map[];
    }

    /** `verifyRefreshToken`: the row with that id, or null. Being a function, it writes nothing. */
    function VerifyRefreshToken(id: Id): (r: Option<TokenRow>)
      reads this
      requires Valid()
      ensures r.Some? <==> id in rows
      ensures r.Some? ==> r.value == rows[id] && r.value.id == id
    {
      if id in rows then Some(rows[id]) else None
    }

    /** `prisma.refresh_token.create`: insert a row under its own id, which must be new. */
    method Create(row: TokenRow) returns (r: Result<TokenRow, Thrown>)
      requires Valid()
      modifies this
      ensures Valid()
      ensures r.Ok? <==> row.id !in old(rows)
      ensures r.Ok? ==> r.value == row && rows == old(rows)[row.id := row]
      ensures r.Err? ==> r.error == StoreFailure(UniqueViolation) && rows == old(rows)
    {
      if row.id in rows {
        r := Err(StoreFailure(UniqueViolation));
        return;
      }
      rows := rows[row.id := row];
      r := Ok(row);
    }

    /** `revokeRefreshToken`: that row becomes inactive with `revoked_at = now`; no other row changes. */
    method RevokeRefreshToken(id: Id, now: int) returns (r: Result<TokenRow, Thrown>)
      requires Valid()
      modifies this
      ensures Valid()
      ensures r.Ok? <==> id in old(rows)
      ensures r.Ok? ==> r.value == Revoked(old(rows)[id], now) && rows == old(rows)[id := r.value]
      ensures r.Err? ==> r.error == StoreFailure(RecordNotFound) && rows == old(rows)
    {
      if id !in rows {
        r := Err(StoreFailure(RecordNotFound));
        return;
      }
      var revoked := Revoked(rows[id], now);
      rows := rows[id := revoked];
      r := Ok(revoked);
    }
  }
}
