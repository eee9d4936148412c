/** `js/auth.js`: the browser-side session, its role and permission tests,
    the demo login against a fixed account list, page gating and the
    admin-only user commands. */
module ClientAuth {
  import opened Common

  /** A demo account, password included. */
  datatype Account = Account(
    id: int,
    username: string,
    password: string,
    name: string,
    email: string,
    roles: seq<string>,
    permissions: seq<string>,
    department: string,
    position: string)

  /** The signed-in user as the session keeps it: no password, and the
      role and permission lists may be missing. */
  datatype SessionUser = SessionUser(
    id: int,
    username: string,
    name: string,
    email: string,
    roles: Option<seq<string>>,
    permissions: Option<seq<string>>,
    department: string,
    position: string)

  datatype Session = Session(currentUser: Option<SessionUser>, authenticated: bool)

  const SignedOut := Session(None, false)

  /** `hasRole(role)`. */
  predicate HasRole(s: Session, role: string)
  {
    s.currentUser.Some? && s.currentUser.value.roles.Some? && role in s.currentUser.value.roles.value
  }

  /** `hasPermission(permission)`. */
  predicate HasPermission(s: Session, permission: string)
  {
    s.currentUser.Some? && s.currentUser.value.permissions.Some? && permission in s.currentUser.value.permissions.value
  }

  /** `isUserAuthenticated()`. */
  predicate IsAuthenticated(s: Session)
  {
    s.authenticated && s.currentUser.Some?
  }

  /** The four demo accounts of `getUsers`. */
  const DemoAccounts: seq<Account> := [
    Account(1, "admin", "admin123", "Администратор", "admin@company.com",
            ["admin"], ["read", "write", "delete", "admin"], "IT", "Системный администратор"),
    Account(2, "manager", "manager123", "Менеджер склада", "manager@company.com",
            ["manager"], ["read", "write"], "Склад", "Менеджер склада"),
    Account(3, "operator", "operator123", "Оператор", "operator@company.com",
            ["operator"], ["read"], "Склад", "Оператор склада"),
    Account(4, "viewer", "viewer123", "Наблюдатель", "viewer@company.com",
            ["viewer"], ["read"], "Бухгалтерия", "Бухгалтер")]

  /** The account without its password, as stored in the session. */
  function WithoutPassword(a: Account): (u: SessionUser)
    ensures u.id == a.id && u.username == a.username && u.name == a.name && u.email == a.email
    ensures u.roles == Some(a.roles) && u.permissions == Some(a.permissions)
  {
    SessionUser(a.id, a.username, a.name, a.email, Some(a.roles), Some(a.permissions), a.department, a.position)
  }

  datatype LoginOutcome = FillAllFields | SignedIn | WrongCredentials

  predicate Matches(a: Account, username: string, password: string)
  {
    a.username == username && a.password == password
  }

  /** `login()`: both inputs are trimmed; a blank one only warns; otherwise
      the first account matching both exactly is signed in, and a miss
      leaves the session as it was. */
  function Login(env: Env, s: Session, accounts: seq<Account>, usernameInput: string, passwordInput: string)
    : (r: (Session, LoginOutcome))
    ensures Trim(env, usernameInput) == "" || Trim(env, passwordInput) == "" ==> r == (s, FillAllFields)
    ensures r.1 == SignedIn <==>
      Trim(env, usernameInput) != "" && Trim(env, passwordInput) != ""
      && exists i :: 0 <= i < |accounts| && Matches(accounts[i], Trim(env, usernameInput), Trim(env, passwordInput))
    ensures r.1 == SignedIn ==> IsAuthenticated(r.0) && exists i :: (0 <= i < |accounts|
      && Matches(accounts[i], Trim(env, usernameInput), Trim(env, passwordInput))
      && r.0.currentUser == Some(WithoutPassword(accounts[i])))
    ensures r.1 != SignedIn ==> r.0 == s
  {
    var username := Trim(env, usernameInput);
    var password := Trim(env, passwordInput);
    if username == "" || password == "" then (s, FillAllFields)
    else match FindIndex(accounts, (a: Account) => Matches(a, username, password))
      case None => (s, WrongCredentials)
      case Some(i) => (Session(Some(WithoutPassword(accounts[i])), true), SignedIn)
  }

  /** After signing in, the role and permission tests answer from the
      matched account's lists. */
  lemma SignedInRolesAreAccountRoles(env: Env, s: Session, accounts: seq<Account>, u: string, p: string, role: string)
    requires Login(env, s, accounts, u, p).1 == SignedIn
    ensures exists i :: (0 <= i < |accounts| && Matches(accounts[i], Trim(env, u), Trim(env, p))
      && (HasRole(Login(env, s, accounts, u, p).0, role) <==> role in accounts[i].roles)
      && (HasPermission(Login(env, s, accounts, u, p).0, role) <==> role in accounts[i].permissions))
  {
  }

  /** Among the demo accounts, the admin role belongs to the account named
      'admin' alone. */
  lemma DemoAdminRole(i: nat)
    requires i < |DemoAccounts|
    ensures "admin" in DemoAccounts[i].roles <==> DemoAccounts[i].username == "admin"
  {
    if i == 0 {
      assert DemoAccounts[0].roles == ["admin"];
    } else if i == 1 {
      assert DemoAccounts[1].roles == ["manager"];
    } else if i == 2 {
      assert DemoAccounts[2].roles == ["operator"];
    } else {
      assert DemoAccounts[3].roles == ["viewer"];
    }
  }

  /** Only the demo admin's credentials unlock the admin role. */
  lemma OnlyAdminGetsAdminRole(env: Env, s: Session, u: string, p: string)
    requires Login(env, s, DemoAccounts, u, p).1 == SignedIn
    ensures HasRole(Login(env, s, DemoAccounts, u, p).0, "admin") <==> Trim(env, u) == "admin"
  {
    var r := Login(env, s, DemoAccounts, u, p);
    var i :| 0 <= i < |DemoAccounts| && Matches(DemoAccounts[i], Trim(env, u), Trim(env, p))
      && r.0.currentUser == Some(WithoutPassword(DemoAccounts[i]));
    DemoAdminRole(i);
  }

  /** `logout()`. */
  function Logout(s: Session): (r: Session)
    ensures !IsAuthenticated(r)
    ensures forall role :: !HasRole(r, role)
    ensures forall p :: !HasPermission(r, p)
  {
    SignedOut
  }

  const ProtectedPages: seq<string> := ["/index.html", "/catalog.html", "/history.html", "/search.html", "/profile.html", "/admin/"]
  const AdminPage := "/admin/"

  datatype PageDecision = Stay | ToLogin | ToIndex

  predicate NeedsAuth(path: string)
  {
    exists k :: 0 <= k < |ProtectedPages| && Contains(path, ProtectedPages[k])
  }

  /** `checkPageAccess()`: a protected path without the authenticated flag
      goes to the login page; a path containing '/admin/' without the admin
      role goes to the start page. */
  function CheckPageAccess(s: Session, path: string): (r: PageDecision)
    ensures r == ToLogin <==> NeedsAuth(path) && !s.authenticated
    ensures r == ToIndex <==> !(NeedsAuth(path) && !s.authenticated) && Contains(path, AdminPage) && !HasRole(s, "admin")
  {
    if NeedsAuth(path) && !s.authenticated then ToLogin
    else if Contains(path, AdminPage) && !HasRole(s, "admin") then ToIndex
    else Stay
  }

  /** An admin path is only ever shown to an authenticated admin. */
  lemma AdminPagesNeedAdmin(s: Session, path: string)
    requires Contains(path, AdminPage)
    requires CheckPageAccess(s, path) == Stay
    ensures s.authenticated && HasRole(s, "admin")
  {
    assert ProtectedPages[5] == AdminPage;
  }

  /** The fields a caller passes to `createUser`; `id` is present when the
      caller supplies one, and then overrides the generated key. */
  datatype UserData = UserData(
    id: Option<int>,
    username: string,
    name: string,
    email: string,
    roles: Option<seq<string>>,
    permissions: Option<seq<string>>)

  datatype NewUser = NewUser(id: int, username: string, name: string, email: string,
                             roles: seq<string>, permissions: seq<string>)

  const NoRightToCreate := "Недостаточно прав для создания пользователей"
  const NoRightToUpdate := "Недостаточно прав для редактирования пользователей"
  const NoRightToDelete := "Недостаточно прав для удаления пользователей"

  /** `createUser(userData)`: only for admins; the key is one past the demo
      list's length unless the data brings its own, and missing role or
      permission lists become ['viewer'] and ['read'] (an empty list is
      kept: arrays are truthy). */
  function CreateUser(s: Session, data: UserData): (r: Result<NewUser, string>)
    ensures !HasRole(s, "admin") <==> r == Err(NoRightToCreate)
    ensures r.Ok? ==> r.value.id == (if data.id.Some? then data.id.value else |DemoAccounts| + 1)
    ensures r.Ok? ==> r.value.roles == (if data.roles.Some? then data.roles.value else ["viewer"])
    ensures r.Ok? ==> r.value.permissions == (if data.permissions.Some? then data.permissions.value else ["read"])
    ensures r.Ok? ==> r.value.username == data.username && r.value.name == data.name && r.value.email == data.email
  {
    if !HasRole(s, "admin") then Err(NoRightToCreate)
    else
      Ok(NewUser(if data.id.Some? then data.id.value else |DemoAccounts| + 1,
                 data.username, data.name, data.email,
                 if data.roles.Some? then data.roles.value else ["viewer"],
                 if data.permissions.Some? then data.permissions.value else ["read"]))
  }

  /** `updateUser` and `deleteUser`: only the admin check is real. */
  function UpdateUser(s: Session): (r: Result<bool, string>)
    ensures r.Ok? <==> HasRole(s, "admin")
    ensures r.Err? ==> r.error == NoRightToUpdate
  {
    if HasRole(s, "admin") then Ok(true) else Err(NoRightToUpdate)
  }

  function DeleteUser(s: Session): (r: Result<bool, string>)
    ensures r.Ok? <==> HasRole(s, "admin")
    ensures r.Err? ==> r.error == NoRightToDelete
  {
    if HasRole(s, "admin") then Ok(true) else Err(NoRightToDelete)
  }

  datatype AccessInfo = AccessInfo(
    user: SessionUser,
    canRead: bool, canWrite: bool, canDelete: bool, canAdmin: bool,
    isAdmin: bool, isManager: bool, isOperator: bool, isViewer: bool)

  /** `getAccessInfo()`: nothing without a user; otherwise each flag is the
      matching role or permission test. */
  function GetAccessInfo(s: Session): (r: Option<AccessInfo>)
    ensures r.None? <==> s.currentUser.None?
    ensures r.Some? ==> r.value.user == s.currentUser.value
    ensures r.Some? ==>
      && (r.value.canRead <==> HasPermission(s, "read")) && (r.value.canWrite <==> HasPermission(s, "write"))
      && (r.value.canDelete <==> HasPermission(s, "delete")) && (r.value.canAdmin <==> HasPermission(s, "admin"))
    ensures r.Some? ==>
      && (r.value.isAdmin <==> HasRole(s, "admin")) && (r.value.isManager <==> HasRole(s, "manager"))
      && (r.value.isOperator <==> HasRole(s, "operator")) && (r.value.isViewer <==> HasRole(s, "viewer"))
  {
    if s.currentUser.None? then None
    else Some(AccessInfo(s.currentUser.value,
      HasPermission(s, "read"), HasPermission(s, "write"), HasPermission(s, "delete"), HasPermission(s, "admin"),
      HasRole(s, "admin"), HasRole(s, "manager"), HasRole(s, "operator"), HasRole(s, "viewer")))
  }
}
