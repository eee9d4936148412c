/** `js/users.js`: the user administration page — form validation, the
    e-mail check, permissions suggested by roles, the search filter, the
    counters and the demo-mode create and delete. */
module ClientUsers {
  import opened Common

  datatype UserRecord = UserRecord(
    id: int,
    username: string,
    name: string,
    email: string,
    department: Option<string>,
    roles: seq<string>,
    permissions: seq<string>,
    active: bool,
    lastLogin: Option<int>)

  /** What `getFormData` collects: text inputs by id (absent when the form
      has no such input) and the checked role and permission boxes. */
  datatype FormData = FormData(
    username: Option<string>,
    fullName: Option<string>,
    email: Option<string>,
    department: Option<string>,
    roles: seq<string>,
    permissions: seq<string>)

  const ShortUsername := "Имя пользователя должно содержать минимум 3 символа"
  const ShortFullName := "Полное имя должно содержать минимум 2 символа"
  const BadEmail := "Введите корректный email адрес"
  const NoRole := "Выберите хотя бы одну роль"
  const NoPermission := "Выберите хотя бы одно разрешение"
  const UsernameTaken := "Пользователь с таким именем уже существует"

  // ---------------------------------------------------------------------
  // E-mail

  /** A non-empty run of characters that are neither white space nor '@'
      (`[^\s@]+`). */
  predicate Plain(env: Env, t: string)
  {
    |t| > 0 && forall k :: 0 <= k < |t| ==> !env.isSpace(t[k]) && t[k] != '@'
  }

  /** `/^[^\s@]+@[^\s@]+\.[^\s@]+$/`, read as a regular expression: some
      '@' and some later '.' cut the string into three plain runs. */
  ghost predicate EmailPattern(env: Env, s: string)
  {
    exists i, j :: 0 < i < j < |s| && s[i] == '@' && s[j] == '.'
      && Plain(env, s[..i]) && Plain(env, s[i + 1..j]) && Plain(env, s[j + 1..])
  }

  predicate IsAt(c: char) { c == '@' }

  /** `isValidEmail(email)`: no white space anywhere, exactly one '@' and
      it is not first, and the part after it has a '.' that is neither its
      first nor its last character. */
  function IsValidEmail(env: Env, s: string): (r: bool)
    ensures r ==> '@' in s && CountChar(s, '@') == 1
    ensures r ==> forall k :: 0 <= k < |s| ==> !env.isSpace(s[k])
  {
    match FindIndex(s, IsAt)
    case None => false
    case Some(at) =>
      if 0 < at && at + 3 <= |s|
         && (forall k :: 0 <= k < |s| ==> !env.isSpace(s[k]))
         && (forall k :: at < k < |s| ==> s[k] != '@')
         && '.' in s[at + 2..|s| - 1]
      then
        OneAt(s, at);
        true
      else false
  }

  /** A string whose only '@' is at `at` holds one '@'. */
  lemma {:induction false} OneAt(s: string, at: nat)
    requires at < |s| && s[at] == '@'
    requires forall k :: 0 <= k < |s| && k != at ==> s[k] != '@'
    ensures CountChar(s, '@') == 1
  {
    assert s == s[..at] + [s[at]] + s[at + 1..];
    CountCharAppend(s[..at] + [s[at]], s[at + 1..], '@');
    CountCharAppend(s[..at], [s[at]], '@');
    CountCharAbsent(s[..at], '@');
    CountCharAbsent(s[at + 1..], '@');
  }

  /** The scan accepts exactly the strings the pattern matches (for a host
      whose white space excludes '@' and '.', as `\s` does). */
  lemma IsValidEmailMatchesPattern(env: Env, s: string)
    requires !env.isSpace('@') && !env.isSpace('.')
    ensures IsValidEmail(env, s) <==> EmailPattern(env, s)
  {
    if IsValidEmail(env, s) {
      AcceptedMatchesPattern(env, s);
    }
    if EmailPattern(env, s) {
      PatternIsAccepted(env, s);
    }
  }

  lemma AcceptedMatchesPattern(env: Env, s: string)
    requires IsValidEmail(env, s)
    ensures EmailPattern(env, s)
  {
    var at := FindIndex(s, IsAt).value;
    var tail := s[at + 2..|s| - 1];
    var d :| 0 <= d < |tail| && tail[d] == '.';
    var j := at + 2 + d;
    assert s[j] == tail[d];
    assert Plain(env, s[..at]);
    assert Plain(env, s[at + 1..j]);
    assert Plain(env, s[j + 1..]);
  }

  lemma PatternIsAccepted(env: Env, s: string)
    requires !env.isSpace('@') && !env.isSpace('.')
    requires EmailPattern(env, s)
    ensures IsValidEmail(env, s)
  {
    var i, j :| 0 < i < j < |s| && s[i] == '@' && s[j] == '.'
      && Plain(env, s[..i]) && Plain(env, s[i + 1..j]) && Plain(env, s[j + 1..]);
    PatternCharacters(env, s, i, j);
    FirstAt(env, s, i);
    DotInDomain(env, s, i, j);
  }

  /** The cutting '@' is the first one. */
  lemma FirstAt(env: Env, s: string, i: nat)
    requires i < |s| && s[i] == '@' && Plain(env, s[..i])
    ensures FindIndex(s, IsAt) == Some(i)
  {
    assert forall k :: 0 <= k < i ==> s[k] == s[..i][k];
  }

  /** The cutting '.' lies strictly inside the part after the '@'. */
  lemma DotInDomain(env: Env, s: string, i: nat, j: nat)
    requires 0 < i < j < |s| && s[j] == '.'
    requires Plain(env, s[i + 1..j]) && Plain(env, s[j + 1..])
    ensures i + 3 <= |s| && '.' in s[i + 2..|s| - 1]
  {
    var tail := s[i + 2..|s| - 1];
    assert tail[j - i - 2] == s[j];
  }

  /** Every character of a matched string is free of white space, and the
      cutting '@' is its only '@'. */
  lemma PatternCharacters(env: Env, s: string, i: nat, j: nat)
    requires !env.isSpace('@') && !env.isSpace('.')
    requires 0 < i < j < |s| && s[i] == '@' && s[j] == '.'
    requires Plain(env, s[..i]) && Plain(env, s[i + 1..j]) && Plain(env, s[j + 1..])
    ensures forall k :: 0 <= k < |s| ==> !env.isSpace(s[k])
    ensures forall k :: i < k < |s| ==> s[k] != '@'
  {
    forall k | 0 <= k < |s|
      ensures !env.isSpace(s[k]) && (k != i ==> s[k] != '@')
    {
      if k < i {
        assert s[k] == s[..i][k];
      } else if i < k < j {
        assert s[k] == s[i + 1..j][k - i - 1];
      } else if j < k {
        assert s[k] == s[j + 1..][k - j - 1];
      }
    }
  }

  // ---------------------------------------------------------------------
  // Validation

  /** `validateUserData(formData)`: the checks in order, stopping at the
      first failure; `editId` is the edit form's hidden id after
      `parseInt(... || 0)` (`None` for NaN, which no key equals). */
  function ValidateUserData(env: Env, users: seq<UserRecord>, f: FormData, editId: Option<int>)
    : (r: Result<(), string>)
    ensures f.username.None? || |Trim(env, f.username.value)| < 3 ==> r == Err(ShortUsername)
    ensures r.Ok? ==> f.username.Some? && |Trim(env, f.username.value)| >= 3
    ensures r.Ok? ==> f.fullName.Some? && |Trim(env, f.fullName.value)| >= 2
    ensures r.Ok? ==> f.email.Some? && IsValidEmail(env, f.email.value)
    ensures r.Ok? ==> |f.roles| > 0 && |f.permissions| > 0
    ensures r.Ok? <==>
      && f.username.Some? && |Trim(env, f.username.value)| >= 3
      && f.fullName.Some? && |Trim(env, f.fullName.value)| >= 2
      && f.email.Some? && IsValidEmail(env, f.email.value)
      && |f.roles| > 0 && |f.permissions| > 0
      && !UsernameHeldByOther(users, f.username.value, editId)
  {
    if f.username.None? || |Trim(env, f.username.value)| < 3 then Err(ShortUsername)
    else if f.fullName.None? || |Trim(env, f.fullName.value)| < 2 then Err(ShortFullName)
    else if f.email.None? || !IsValidEmail(env, f.email.value) then Err(BadEmail)
    else if |f.roles| == 0 then Err(NoRole)
    else if |f.permissions| == 0 then Err(NoPermission)
    else if UsernameHeldByOther(users, f.username.value, editId) then Err(UsernameTaken)
    else Ok(())
  }

  /** The first user with that exact username exists and is not the one
      being edited. */
  predicate UsernameHeldByOther(users: seq<UserRecord>, username: string, editId: Option<int>)
  {
    match FindIndex(users, (u: UserRecord) => u.username == username)
    case None => false
    case Some(i) => editId != Some(users[i].id)
  }

  /** Editing a user without renaming it never trips the duplicate check
      when usernames are distinct; any other holder of the name does. */
  lemma UsernameCheckSpotsOthers(users: seq<UserRecord>, username: string, editId: Option<int>)
    requires forall a, b :: 0 <= a < b < |users| ==> users[a].username != users[b].username
    ensures UsernameHeldByOther(users, username, editId) <==>
      exists k :: 0 <= k < |users| && users[k].username == username && editId != Some(users[k].id)
  {
    var found := FindIndex(users, (u: UserRecord) => u.username == username);
    if exists k :: 0 <= k < |users| && users[k].username == username && editId != Some(users[k].id) {
      var k :| 0 <= k < |users| && users[k].username == username && editId != Some(users[k].id);
      assert found.Some?;
      assert found.value == k;
    }
  }

  // ---------------------------------------------------------------------
  // Permissions suggested by roles

  const Read := "read"
  const Write := "write"
  const Delete := "delete"
  const Admin := "admin"

  /** `updatePermissionsFromRoles()`: the permission boxes the checked role
      boxes switch on, the highest role winning. */
  function PermissionsFromRoles(roles: seq<string>): (r: seq<string>)
    ensures "admin" in roles ==> r == [Read, Write, Delete, Admin]
    ensures "admin" !in roles && "manager" in roles ==> r == [Read, Write]
    ensures "admin" !in roles && "manager" !in roles && ("operator" in roles || "viewer" in roles) ==> r == [Read]
    ensures r == [] <==> "admin" !in roles && "manager" !in roles && "operator" !in roles && "viewer" !in roles
    ensures r != [] ==> Read in r
  {
    if "admin" in roles then [Read, Write, Delete, Admin]
    else if "manager" in roles then [Read, Write]
    else if "operator" in roles then [Read]
    else if "viewer" in roles then [Read]
    else []
  }

  /** Adding a role never takes a permission away. */
  lemma PermissionsGrowWithRoles(roles: seq<string>, extra: string, p: string)
    requires p in PermissionsFromRoles(roles)
    ensures p in PermissionsFromRoles(roles + [extra])
  {
    assert forall x :: x in roles ==> x in roles + [extra];
  }

  // ---------------------------------------------------------------------
  // Search and counters

  /** One user against the search box and the role filter. */
  predicate MatchesSearch(env: Env, u: UserRecord, term: string, roleFilter: string)
  {
    (term == ""
     || Contains(Lower(env, u.name), term) || Contains(Lower(env, u.username), term)
     || Contains(Lower(env, u.email), term)
     || (u.department.Some? && u.department.value != "" && Contains(Lower(env, u.department.value), term)))
    && (roleFilter == "" || roleFilter in u.roles)
  }

  /** `handleSearch(query)`: the users matching the lower-cased query and
      the role filter, in list order. */
  function HandleSearch(env: Env, users: seq<UserRecord>, query: string, roleFilter: string): (r: seq<UserRecord>)
    ensures SubseqOf(r, users)
    ensures forall u :: u in r <==> u in users && MatchesSearch(env, u, Lower(env, query), roleFilter)
    ensures query == "" && roleFilter == "" ==> r == users
    ensures roleFilter != "" ==> forall k :: 0 <= k < |r| ==> roleFilter in r[k].roles
  {
    var term := Lower(env, query);
    Filter(users, (u: UserRecord) => MatchesSearch(env, u, term, roleFilter))
  }

  datatype UserStats = UserStats(total: nat, active: nat, admins: nat, managers: nat)

  function IsActive(u: UserRecord): bool { u.active }

  function HasRoleNamed(role: string): UserRecord -> bool
  {
    (u: UserRecord) => role in u.roles
  }

  /** `updateStatistics()`. */
  function Statistics(users: seq<UserRecord>): (r: UserStats)
    ensures r.total == |users|
    ensures r.active <= r.total && r.admins <= r.total && r.managers <= r.total
    ensures r.active == Count(users, IsActive)
    ensures r.admins == Count(users, HasRoleNamed("admin"))
    ensures r.managers == Count(users, HasRoleNamed("manager"))
  {
    UserStats(|users|, Count(users, IsActive), Count(users, HasRoleNamed("admin")), Count(users, HasRoleNamed("manager")))
  }

  // ---------------------------------------------------------------------
  // Demo-mode create and delete

  /** The demo-mode record: the form's fields, active and never logged in.
      The display name is taken from `fullName`; the source's record keeps
      that field under its own name and has no `name`. */
  function NewRecord(id: int, f: FormData): UserRecord
  {
    UserRecord(id, OrEmpty(f.username), OrEmpty(f.fullName), OrEmpty(f.email), f.department,
               f.roles, f.permissions, true, None)
  }

  /** `handleAddUser` when the API is unreachable, as written: the key is
      one past the list's length. */
  function DemoCreate(users: seq<UserRecord>, f: FormData): (r: (seq<UserRecord>, seq<UserRecord>))
    ensures r.0 == users + [NewRecord(|users| + 1, f)]
    ensures r.1 == r.0
    ensures r.0[|users|].active && r.0[|users|].lastLogin.None?
  {
    var all := users + [NewRecord(|users| + 1, f)];
    (all, all)
  }

  /** After one user of three is deleted, the length-based key of the next
      demo user repeats a key still in the list. */
  lemma DemoCreateRepeatsKey(f: FormData)
    ensures var u := NewRecord(0, f);
      var before := [u.(id := 1), u.(id := 3)];
      var after := DemoCreate(before, f).0;
      after[1].id == after[2].id
  {
  }

  /** One past the largest key (1 for an empty list). */
  function NextUserId(users: seq<UserRecord>): (r: int)
    ensures r >= 1
    ensures forall k :: 0 <= k < |users| ==> users[k].id < r
  {
    if |users| == 0 then 1
    else
      var rest := NextUserId(users[1..]);
      assert forall k :: 1 <= k < |users| ==> users[k] == users[1..][k - 1];
      if users[0].id + 1 > rest then users[0].id + 1 else rest
  }

  /** The demo-mode create with a key no listed user holds. */
  function DemoCreateFresh(users: seq<UserRecord>, f: FormData): (r: (seq<UserRecord>, seq<UserRecord>))
    ensures r.0 == users + [NewRecord(NextUserId(users), f)]
    ensures r.1 == r.0
    ensures forall k :: 0 <= k < |users| ==> r.0[k].id != r.0[|users|].id
  {
    var all := users + [NewRecord(NextUserId(users), f)];
    (all, all)
  }

  /** The corrected create keeps keys unique, and it counts the new user as
      active. */
  lemma DemoCreateFreshKeepsKeysUnique(users: seq<UserRecord>, f: FormData)
    requires forall a, b :: 0 <= a < b < |users| ==> users[a].id != users[b].id
    ensures var all := DemoCreateFresh(users, f).0;
      forall a, b :: 0 <= a < b < |all| ==> all[a].id != all[b].id
    ensures Statistics(DemoCreateFresh(users, f).0).total == Statistics(users).total + 1
    ensures Statistics(DemoCreateFresh(users, f).0).active == Statistics(users).active + 1
  {
    var all := DemoCreateFresh(users, f).0;
    FilterAppend(users, [all[|users|]], IsActive);
  }

  /** `handleDeleteUser` after the server agrees: the key leaves both the
      full and the filtered list. */
  function DeleteFromLists(users: seq<UserRecord>, filtered: seq<UserRecord>, id: int)
    : (r: (seq<UserRecord>, seq<UserRecord>))
    ensures forall u :: u in r.0 <==> u in users && u.id != id
    ensures forall u :: u in r.1 <==> u in filtered && u.id != id
    ensures SubseqOf(r.0, users) && SubseqOf(r.1, filtered)
  {
    (Filter(users, (u: UserRecord) => u.id != id), Filter(filtered, (u: UserRecord) => u.id != id))
  }
}
