/** `server/src/routes/auth.js`: the login decision and the contents of the
    token payload.  Signing the token is not part of this model. */
module AuthRoute {
  import opened Common
  import opened ServerDb

  datatype LoginBody = LoginBody(username: Option<string>, password: Option<string>)

  /** What the token carries: the account's public columns, its role names
      and the permissions of those roles.  There is no password field. */
  datatype Payload = Payload(
    id: int,
    username: string,
    name: string,
    email: string,
    department: Option<string>,
    position: Option<string>,
    roles: seq<string>,
    permissions: seq<string>)

  const MissingCredentials := "Missing credentials"
  const InvalidCredentials := "Invalid credentials"
  const DefaultPassword := "admin123"

  /** `!user.password_hash ? password === 'admin123' : password === hash`. */
  predicate PasswordAccepted(u: UserRow, password: string)
  {
    if TruthyText(u.passwordHash) then password == u.passwordHash.value else password == DefaultPassword
  }

  /** The role keys linked to a user, in link order. */
  function LinkedRoleIds(db: UserDb, userId: int): (r: seq<int>)
    ensures forall rid :: rid in r <==> UserRole(userId, rid) in db.userRoles
  {
    Map(Filter(db.userRoles, (l: UserRole) => l.userId == userId), (l: UserRole) => l.roleId)
  }

  /** The names of the roles with key `rid` (the `JOIN roles`). */
  function NamesWithId(roles: seq<RoleRow>, rid: int): (r: seq<string>)
    ensures forall n :: n in r <==> exists k :: 0 <= k < |roles| && roles[k].name == n && roles[k].id == rid
  {
    var kept := Filter(roles, (role: RoleRow) => role.id == rid);
    var r := Map(kept, (role: RoleRow) => role.name);
    forall n ensures n in r <==> exists k :: 0 <= k < |roles| && roles[k].name == n && roles[k].id == rid {
      if n in r {
        var i :| 0 <= i < |r| && r[i] == n;
        assert kept[i] in kept;
        var k :| 0 <= k < |roles| && roles[k] == kept[i];
      }
      if exists k :: 0 <= k < |roles| && roles[k].name == n && roles[k].id == rid {
        var k :| 0 <= k < |roles| && roles[k].name == n && roles[k].id == rid;
        assert roles[k] in kept;
        var i :| 0 <= i < |kept| && kept[i] == roles[k];
        assert r[i] == n;
      }
    }
    r
  }

  /** `SELECT r.name FROM user_roles ur JOIN roles r … WHERE ur.user_id = ?`. */
  function RoleNames(roles: seq<RoleRow>, linked: seq<int>): (r: seq<string>)
    ensures forall n :: n in r <==> exists k :: 0 <= k < |roles| && roles[k].name == n && roles[k].id in linked
  {
    if |linked| == 0 then []
    else
      var head := NamesWithId(roles, linked[0]);
      var rest := RoleNames(roles, linked[1..]);
      assert forall x :: x in linked <==> x == linked[0] || x in linked[1..];
      head + rest
  }

  /** The `role_permissions` rows whose role is linked to the user, each
      kept: a permission granted by two linked roles appears twice. */
  function GrantedRows(db: UserDb, userId: int): seq<RolePermission>
  {
    Filter(db.rolePermissions, (rp: RolePermission) => UserRole(userId, rp.roleId) in db.userRoles)
  }

  function PermissionOf(rp: RolePermission): string { rp.permission }

  /** `POST /login`: 400 without both fields; 401 when no account has the
      username or the password is not accepted; otherwise the payload of
      the first account with that username. */
  function Login(db: UserDb, b: LoginBody): (r: Answer<Payload>)
    ensures (!TruthyText(b.username) || !TruthyText(b.password)) <==> r == Failure(400, MissingCredentials)
    ensures (TruthyText(b.username) && TruthyText(b.password)
             && forall i :: 0 <= i < |db.users| ==> db.users[i].username != b.username.value) ==>
      r == Failure(401, InvalidCredentials)
    ensures r.Failure? ==> r.status in {400, 401}
    ensures r.Json? ==> UserIndex(db.users, b.username.value).Some?
    ensures TruthyText(b.username) && TruthyText(b.password) ==>
      var k := UserIndex(db.users, b.username.value);
      r.Json? <==> k.Some? && PasswordAccepted(db.users[k.value], b.password.value)
    ensures r.Json? ==>
      var u := db.users[UserIndex(db.users, b.username.value).value];
      PasswordAccepted(u, b.password.value)
      && r.value.id == u.id && r.value.username == u.username
      && r.value.name == u.name && r.value.email == u.email
      && r.value.department == u.department && r.value.position == u.position
    ensures r.Json? ==>
      && r.status == 200
      && r.value.roles == RoleNames(db.roles, LinkedRoleIds(db, r.value.id))
      && r.value.permissions == Map(GrantedRows(db, r.value.id), PermissionOf)
  {
    if !TruthyText(b.username) || !TruthyText(b.password) then Failure(400, MissingCredentials)
    else match UserIndex(db.users, b.username.value)
      case None => Failure(401, InvalidCredentials)
      case Some(i) =>
        var u := db.users[i];
        if !PasswordAccepted(u, b.password.value) then Failure(401, InvalidCredentials)
        else
          Json(200, Payload(u.id, u.username, u.name, u.email, u.department, u.position,
                            RoleNames(db.roles, LinkedRoleIds(db, u.id)),
                            Map(GrantedRows(db, u.id), PermissionOf)))
  }

  /** `users.find(u => u.username === username)`: the first account with
      that username. */
  function UserIndex(users: seq<UserRow>, username: string): (r: Option<nat>)
    ensures r.None? <==> forall i :: 0 <= i < |users| ==> users[i].username != username
    ensures r.Some? ==> r.value < |users| && users[r.value].username == username
    ensures r.Some? ==> forall k :: 0 <= k < r.value ==> users[k].username != username
  {
    FindIndex(users, (u: UserRow) => u.username == username)
  }

  /** An account without a stored password is let in by 'admin123' and by
      nothing else. */
  lemma DefaultPasswordOnly(db: UserDb, b: LoginBody, i: nat)
    requires i < |db.users| && !TruthyText(db.users[i].passwordHash)
    requires TruthyText(b.username) && TruthyText(b.password) && b.username.value == db.users[i].username
    requires forall k :: 0 <= k < i ==> db.users[k].username != b.username.value
    ensures Login(db, b).Json? <==> b.password.value == DefaultPassword
  {
    assert UserIndex(db.users, b.username.value) == Some(i);
  }

  /** How often `p` occurs in the payload's permissions: once per granting
      row of a linked role. */
  lemma PermissionMultiplicity(db: UserDb, userId: int, p: string)
    ensures Count(Map(GrantedRows(db, userId), PermissionOf), (x: string) => x == p)
         == Count(GrantedRows(db, userId), (rp: RolePermission) => rp.permission == p)
  {
    MapCount(GrantedRows(db, userId), p);
  }

  lemma {:induction false} MapCount(rows: seq<RolePermission>, p: string)
    ensures Count(Map(rows, PermissionOf), (x: string) => x == p)
         == Count(rows, (rp: RolePermission) => rp.permission == p)
  {
    if |rows| > 0 {
      MapCount(rows[1..], p);
      assert Map(rows, PermissionOf)[1..] == Map(rows[1..], PermissionOf);
    }
  }
}
