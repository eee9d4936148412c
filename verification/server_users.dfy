/** `server/src/routes/users.js`: validation and uniqueness of created and
    updated accounts, the replacement of a user's role links, the
    cascading delete, the active toggle, and the splitting of the
    `GROUP_CONCAT` role and permission columns. */
module UsersRoute {
  import opened Common
  import opened ServerDb

  /** The JSON body of `POST /` and `PUT /:id`; a falsy field is `None` or
      empty, and `roles` is `None` when absent. */
  datatype UserBody = UserBody(
    username: Option<string>,
    name: Option<string>,
    email: Option<string>,
    department: Option<string>,
    position: Option<string>,
    password: Option<string>,
    roles: Option<seq<string>>)

  const MissingFields := "Все обязательные поля должны быть заполнены"
  const ShortPassword := "Пароль должен содержать минимум 6 символов"
  const UsernameTaken := "Пользователь с таким именем уже существует"
  const EmailTaken := "Пользователь с таким email уже существует"
  const UserNotFound := "Пользователь не найден"
  const UserDeleted := "Пользователь успешно удален"
  const MinPasswordLength := 6

  /** `!username || !name || !email || !roles || roles.length === 0`. */
  predicate MissingRequired(b: UserBody)
  {
    !TruthyText(b.username) || !TruthyText(b.name) || !TruthyText(b.email)
    || b.roles.None? || |b.roles.value| == 0
  }

  predicate UsernameHeld(users: seq<UserRow>, username: string, except: Option<int>)
  {
    exists i :: 0 <= i < |users| && users[i].username == username && Some(users[i].id) != except
  }

  predicate EmailHeld(users: seq<UserRow>, email: string, except: Option<int>)
  {
    exists i :: 0 <= i < |users| && users[i].email == email && Some(users[i].id) != except
  }

  /** The key of the first role with that name, if any (`SELECT id FROM
      roles WHERE name = ?`, first row). */
  function RoleIdOf(roles: seq<RoleRow>, name: string): (r: Option<int>)
    ensures r.None? <==> forall k :: 0 <= k < |roles| ==> roles[k].name != name
    ensures r.Some? ==> exists k :: 0 <= k < |roles| && roles[k].name == name && roles[k].id == r.value
  {
    match FindIndex(roles, (role: RoleRow) => role.name == name)
    case None => None
    case Some(k) => Some(roles[k].id)
  }

  /** The role links the loop inserts for `userId`: one per listed name
      that names a role, in list order; unknown names are dropped. */
  function LinksFor(roles: seq<RoleRow>, userId: int, names: seq<string>): (r: seq<UserRole>)
    ensures |r| <= |names|
    ensures forall l :: l in r ==> l.userId == userId
    ensures forall l :: l in r ==> exists n :: n in names && RoleIdOf(roles, n) == Some(l.roleId)
    ensures forall n :: n in names && RoleIdOf(roles, n).Some? ==> UserRole(userId, RoleIdOf(roles, n).value) in r
  {
    if |names| == 0 then []
    else
      var rest := LinksFor(roles, userId, names[1..]);
      assert forall n :: n in names[1..] ==> n in names;
      match RoleIdOf(roles, names[0])
      case None => rest
      case Some(id) => [UserRole(userId, id)] + rest
  }

  /** The links of every other user. */
  function LinksNotOf(links: seq<UserRole>, userId: int): seq<UserRole>
  {
    Filter(links, (l: UserRole) => l.userId != userId)
  }

  /** `POST /`: 400 for a missing field or an empty role list, then for a
      password shorter than 6, then for a username, then an email already
      present; otherwise inserts an active user (department and position
      NULL when falsy, the password stored as given) and its role links,
      and answers 201 with the new row. */
  function CreateUser(db: UserDb, b: UserBody): (r: (UserDb, Answer<UserRow>))
    ensures r.1.Failure? ==> r.0 == db && r.1.status == 400
    ensures MissingRequired(b) ==> r.1 == Failure(400, MissingFields)
    ensures !MissingRequired(b) && (!TruthyText(b.password) || |b.password.value| < MinPasswordLength) ==>
      r.1.Failure?
    ensures !MissingRequired(b) && TruthyText(b.password) && |b.password.value| < MinPasswordLength ==>
      r.1 == Failure(400, ShortPassword)
    ensures r.1.Json? <==>
      && !MissingRequired(b) && TruthyText(b.password) && |b.password.value| >= MinPasswordLength
      && !UsernameHeld(db.users, b.username.value, None)
      && !EmailHeld(db.users, b.email.value, None)
    ensures r.1.Json? ==>
      && r.1.status == 201
      && r.1.value == UserRow(db.nextUserId, b.username.value, b.name.value, b.email.value,
                              TextOrNull(b.department), TextOrNull(b.position), b.password, true)
      && r.0.users == db.users + [r.1.value]
      && r.0.nextUserId == db.nextUserId + 1
      && r.0.userRoles == db.userRoles + LinksFor(db.roles, db.nextUserId, b.roles.value)
      && r.0.roles == db.roles && r.0.rolePermissions == db.rolePermissions
  {
    if MissingRequired(b) || !TruthyText(b.password) then (db, Failure(400, MissingFields))
    else if |b.password.value| < MinPasswordLength then (db, Failure(400, ShortPassword))
    else if UsernameHeld(db.users, b.username.value, None) then (db, Failure(400, UsernameTaken))
    else if EmailHeld(db.users, b.email.value, None) then (db, Failure(400, EmailTaken))
    else
      var row := UserRow(db.nextUserId, b.username.value, b.name.value, b.email.value,
                         TextOrNull(b.department), TextOrNull(b.position), b.password, true);
      var db' := db.(users := db.users + [row], nextUserId := db.nextUserId + 1,
                     userRoles := db.userRoles + LinksFor(db.roles, db.nextUserId, b.roles.value));
      (db', Json(201, row))
  }

  /** Usernames and emails are each held by at most one user. */
  predicate DistinctLogins(users: seq<UserRow>)
  {
    forall i, j :: 0 <= i < j < |users| ==>
      users[i].username != users[j].username && users[i].email != users[j].email
  }

  /** The uniqueness checks keep usernames and emails distinct. */
  lemma CreateKeepsLoginsDistinct(db: UserDb, b: UserBody)
    requires DistinctLogins(db.users)
    ensures DistinctLogins(CreateUser(db, b).0.users)
  {
    var r := CreateUser(db, b);
    if r.1.Json? {
      var users := r.0.users;
      forall i, j | 0 <= i < j < |users|
        ensures users[i].username != users[j].username && users[i].email != users[j].email
      {
        if j == |db.users| {
          assert users[i] == db.users[i];
          assert !UsernameHeld(db.users, b.username.value, None);
          assert !EmailHeld(db.users, b.email.value, None);
        }
      }
    }
  }

  predicate UserExists(users: seq<UserRow>, id: int)
  {
    exists i :: 0 <= i < |users| && users[i].id == id
  }

  /** The overwritten columns of an updated row: the password only when
      one is given. */
  function Updated(u: UserRow, b: UserBody): (r: UserRow)
    requires TruthyText(b.username) && TruthyText(b.name) && TruthyText(b.email)
    ensures r.id == u.id && r.active == u.active
    ensures r.username == b.username.value && r.name == b.name.value && r.email == b.email.value
    ensures r.department == TextOrNull(b.department) && r.position == TextOrNull(b.position)
    ensures r.passwordHash == if TruthyText(b.password) then b.password else u.passwordHash
  {
    u.(username := b.username.value, name := b.name.value, email := b.email.value,
       department := TextOrNull(b.department), position := TextOrNull(b.position),
       passwordHash := if TruthyText(b.password) then b.password else u.passwordHash)
  }

  /** `PUT /:id`: 400 for a missing field, then for a given password shorter
      than 6; 404 for an unknown key; 400 for a username or an email held by
      another user; otherwise overwrites the row, replaces all its role
      links with those of the listed, existing roles, and answers the
      user's row as now stored. */
  function UpdateUser(db: UserDb, id: int, b: UserBody): (r: (UserDb, Answer<UserRow>))
    ensures r.1.Failure? ==> r.0 == db
    ensures MissingRequired(b) ==> r.1 == Failure(400, MissingFields)
    ensures !MissingRequired(b) && TruthyText(b.password) && |b.password.value| < MinPasswordLength ==>
      r.1 == Failure(400, ShortPassword)
    ensures (!MissingRequired(b) && !(TruthyText(b.password) && |b.password.value| < MinPasswordLength)
             && !UserExists(db.users, id)) ==> r.1 == Failure(404, UserNotFound)
    ensures r.1.Json? <==>
      && !MissingRequired(b) && !(TruthyText(b.password) && |b.password.value| < MinPasswordLength)
      && UserExists(db.users, id)
      && !UsernameHeld(db.users, b.username.value, Some(id))
      && !EmailHeld(db.users, b.email.value, Some(id))
    ensures r.1.Json? ==>
      && |r.0.users| == |db.users|
      && (forall i :: 0 <= i < |db.users| ==>
            r.0.users[i] == if db.users[i].id == id then Updated(db.users[i], b) else db.users[i])
      && r.0.userRoles == LinksNotOf(db.userRoles, id) + LinksFor(db.roles, id, b.roles.value)
      && r.0.roles == db.roles && r.0.rolePermissions == db.rolePermissions
      && r.0.nextUserId == db.nextUserId
    ensures r.1.Json? ==>
      && r.1.status == 200 && UserExists(db.users, id)
      && r.1.value == Updated(db.users[RowIndex(db.users, id).value], b)
      && r.1.value == r.0.users[RowIndex(db.users, id).value] && r.1.value.id == id
  {
    if MissingRequired(b) then (db, Failure(400, MissingFields))
    else if TruthyText(b.password) && |b.password.value| < MinPasswordLength then (db, Failure(400, ShortPassword))
    else if !UserExists(db.users, id) then (db, Failure(404, UserNotFound))
    else if UsernameHeld(db.users, b.username.value, Some(id)) then (db, Failure(400, UsernameTaken))
    else if EmailHeld(db.users, b.email.value, Some(id)) then (db, Failure(400, EmailTaken))
    else
      var users := seq(|db.users|, i requires 0 <= i < |db.users| =>
        if db.users[i].id == id then Updated(db.users[i], b) else db.users[i]);
      var links := LinksNotOf(db.userRoles, id) + LinksFor(db.roles, id, b.roles.value);
      var k := RowIndex(db.users, id).value;
      (db.(users := users, userRoles := links), Json(200, users[k]))
  }

  /** The role keys linked to a user. */
  function RoleIdsOf(links: seq<UserRole>, userId: int): (r: seq<int>)
    ensures forall rid :: rid in r <==> UserRole(userId, rid) in links
  {
    Map(Filter(links, (l: UserRole) => l.userId == userId), (l: UserRole) => l.roleId)
  }

  /** After an update the user holds exactly the listed roles that exist,
      and every other user's roles are as before. */
  lemma UpdateReplacesRoles(db: UserDb, id: int, b: UserBody, other: int)
    requires UpdateUser(db, id, b).1.Json?
    requires other != id
    ensures forall rid :: rid in RoleIdsOf(UpdateUser(db, id, b).0.userRoles, id) <==>
      exists n :: n in b.roles.value && RoleIdOf(db.roles, n) == Some(rid)
    ensures forall rid :: rid in RoleIdsOf(UpdateUser(db, id, b).0.userRoles, other) <==>
      rid in RoleIdsOf(db.userRoles, other)
  {
    var links := UpdateUser(db, id, b).0.userRoles;
    var added := LinksFor(db.roles, id, b.roles.value);
    forall rid ensures rid in RoleIdsOf(links, id) <==>
      exists n :: n in b.roles.value && RoleIdOf(db.roles, n) == Some(rid)
    {
      if rid in RoleIdsOf(links, id) {
        assert UserRole(id, rid) in links;
        assert UserRole(id, rid) in added;
      }
    }
  }

  /** `DELETE /:id`: 404 for an unknown key; otherwise removes the user's
      role links and then the user. */
  function DeleteUser(db: UserDb, id: int): (r: (UserDb, Answer<string>))
    ensures !UserExists(db.users, id) <==> r.1 == Failure(404, UserNotFound)
    ensures r.1.Failure? ==> r.0 == db
    ensures UserExists(db.users, id) ==> r.1 == Json(200, UserDeleted)
    ensures r.1.Json? ==>
      && (forall u :: u in r.0.users <==> u in db.users && u.id != id)
      && (forall l :: l in r.0.userRoles <==> l in db.userRoles && l.userId != id)
      && SubseqOf(r.0.users, db.users) && SubseqOf(r.0.userRoles, db.userRoles)
      && r.0.roles == db.roles && r.0.rolePermissions == db.rolePermissions
      && r.0.nextUserId == db.nextUserId
  {
    if !UserExists(db.users, id) then (db, Failure(404, UserNotFound))
    else
      var links := LinksNotOf(db.userRoles, id);
      var users := Filter(db.users, (u: UserRow) => u.id != id);
      (db.(users := users, userRoles := links), Json(200, UserDeleted))
  }

  /** `PATCH /:id/toggle-status`: 404 for an unknown key; otherwise sets
      `active` to the negation of the first matching row's value and
      answers the new value. */
  function ToggleStatus(db: UserDb, id: int): (r: (UserDb, Answer<bool>))
    ensures !UserExists(db.users, id) <==> r.1 == Failure(404, UserNotFound)
    ensures UserExists(db.users, id) ==> r.1.Json?
    ensures r.1.Failure? ==> r.0 == db
    ensures r.1.Json? ==> r.1.status == 200
    ensures r.1.Json? ==> UserExists(db.users, id) && r.1.value == !db.users[RowIndex(db.users, id).value].active
    ensures r.1.Json? ==> |r.0.users| == |db.users| && forall i :: 0 <= i < |db.users| ==>
      r.0.users[i] == if db.users[i].id == id then db.users[i].(active := r.1.value) else db.users[i]
    ensures r.0.userRoles == db.userRoles && r.0.roles == db.roles
    ensures r.0.rolePermissions == db.rolePermissions && r.0.nextUserId == db.nextUserId
  {
    match RowIndex(db.users, id)
    case None => (db, Failure(404, UserNotFound))
    case Some(k) =>
      var status := !db.users[k].active;
      var users := seq(|db.users|, i requires 0 <= i < |db.users| =>
        if db.users[i].id == id then db.users[i].(active := status) else db.users[i]);
      (db.(users := users), Json(200, status))
  }

  predicate UniqueUserIds(users: seq<UserRow>)
  {
    forall i, j :: 0 <= i < j < |users| ==> users[i].id != users[j].id
  }

  /** `SELECT ... WHERE id = ?` on the first row with that key. */
  function RowIndex(users: seq<UserRow>, id: int): (r: Option<nat>)
    ensures r.None? <==> !UserExists(users, id)
    ensures r.Some? ==> r.value < |users| && users[r.value].id == id
    ensures r.Some? ==> forall k :: 0 <= k < r.value ==> users[k].id != id
  {
    FindIndex(users, (u: UserRow) => u.id == id)
  }

  /** With unique keys, toggling twice restores the table. */
  lemma ToggleTwiceRestores(db: UserDb, id: int)
    requires UniqueUserIds(db.users)
    ensures ToggleStatus(ToggleStatus(db, id).0, id).0 == db
  {
    match RowIndex(db.users, id)
    case None =>
    case Some(k) =>
      var once := ToggleStatus(db, id).0;
      ToggleAt(db, id, k);
      assert RowIndex(once.users, id) == Some(k);
      ToggleAt(once, id, k);
      assert ToggleStatus(once, id).0.users == db.users;
  }

  /** With unique keys a toggle flips the one row at the key's position. */
  lemma ToggleAt(db: UserDb, id: int, k: nat)
    requires UniqueUserIds(db.users)
    requires RowIndex(db.users, id) == Some(k)
    ensures var r := ToggleStatus(db, id).0;
      r == db.(users := db.users[k := db.users[k].(active := !db.users[k].active)])
      && UniqueUserIds(r.users)
  {
    var r := ToggleStatus(db, id).0;
    forall i | 0 <= i < |db.users| && i != k ensures r.users[i] == db.users[i] {
      assert db.users[i].id != id;
    }
    assert r.users == db.users[k := db.users[k].(active := !db.users[k].active)];
  }

  /** A `GROUP_CONCAT` column split on ','; NULL or '' gives no names. */
  function SplitColumn(column: Option<string>): (r: seq<string>)
    ensures !TruthyText(column) ==> r == []
    ensures TruthyText(column) ==> |r| >= 1 && Join(r, ",") == column.value
    ensures forall i :: 0 <= i < |r| ==> ',' !in r[i]
  {
    if TruthyText(column) then
      JoinSplit(column.value, ',');
      Split(column.value, ',')
    else []
  }

  /** `GROUP_CONCAT(DISTINCT name)` over the joined rows' names: NULL over
      no rows, otherwise each name once, comma-joined.  The join with
      `role_permissions` repeats a role once per permission it grants, and
      a permission once per role granting it; `DISTINCT` folds those. */
  function GroupConcat(names: seq<string>): (r: Option<string>)
    ensures |names| == 0 <==> r.None?
    ensures r.Some? ==> r.value == Join(Distinct(names), ",")
  {
    if |names| == 0 then None else Some(Join(Distinct(names), ","))
  }

  /** Splitting the concatenated column recovers each joined name exactly
      once, as long as none is empty or contains a comma. */
  lemma SplitColumnRoundTrip(names: seq<string>)
    requires forall i :: 0 <= i < |names| ==> names[i] != "" && ',' !in names[i]
    ensures SplitColumn(GroupConcat(names)) == Distinct(names)
    ensures forall x :: x in SplitColumn(GroupConcat(names)) <==> x in names
    ensures var r := SplitColumn(GroupConcat(names));
      forall i, j :: 0 <= i < j < |r| ==> r[i] != r[j]
  {
    if |names| > 0 {
      var d := Distinct(names);
      assert names[0] in d;
      assert forall i :: 0 <= i < |d| ==> d[i] in names;
      JoinNonEmpty(d, ",");
      SplitJoin(d, ',');
    }
  }

  /** A role granting two permissions: the join yields its name twice,
      and the column still lists it once. */
  lemma RepeatedNameListedOnce(name: string)
    requires name != "" && ',' !in name
    ensures SplitColumn(GroupConcat([name, name])) == [name]
  {
    var names := [name, name];
    assert names[..1] == [name];
    assert Distinct(names[..1]) == [name];
    SplitColumnRoundTrip(names);
  }

  lemma {:induction false} JoinNonEmpty(parts: seq<string>, sep: string)
    requires |parts| > 0 && parts[0] != ""
    ensures Join(parts, sep) != ""
  {
    if |parts| > 1 {
      assert Join(parts, sep) == parts[0] + sep + Join(parts[1..], sep);
      assert |Join(parts, sep)| >= |parts[0]|;
    }
  }
}
