/** `js/profile.js`: the signed-in user's own page — the password and
    profile forms, the list of the user's latest operations, the display
    names of roles and permissions, the tips under the profile and the
    notification settings. */
module ClientProfile {
  import opened Common
  import Ledger
  import Sorting
  import ClientUsers

  // ---------------------------------------------------------------------
  // Password form

  const FillAllFields := "Пожалуйста, заполните все поля"
  const PasswordsDiffer := "Новые пароли не совпадают"
  const PasswordTooShort := "Новый пароль должен содержать минимум 6 символов"
  const MinPasswordLength := 6

  /** `savePassword()`: the checks run in order and the first one that fails
      names the problem.  Nothing is sent anywhere; success only closes the
      dialog. */
  function SavePassword(current: string, newPassword: string, confirm: string): (r: Result<(), string>)
    ensures r == Err(FillAllFields) <==> current == "" || newPassword == "" || confirm == ""
    ensures r == Err(PasswordsDiffer) <==>
      current != "" && newPassword != "" && confirm != "" && newPassword != confirm
    ensures r == Err(PasswordTooShort) <==>
      current != "" && newPassword != "" && newPassword == confirm && |newPassword| < MinPasswordLength
    ensures r.Ok? <==>
      current != "" && newPassword == confirm && |newPassword| >= MinPasswordLength
  {
    if current == "" || newPassword == "" || confirm == "" then Err(FillAllFields)
    else if newPassword != confirm then Err(PasswordsDiffer)
    else if |newPassword| < MinPasswordLength then Err(PasswordTooShort)
    else Ok(())
  }

  // ---------------------------------------------------------------------
  // Profile form

  /** The stored user object; a missing phone is the empty string. */
  datatype Profile = Profile(
    id: int,
    username: string,
    name: string,
    email: string,
    department: string,
    position: string,
    phone: string,
    roles: seq<string>,
    permissions: seq<string>)

  /** The five inputs of the edit dialog. */
  datatype ProfileForm = ProfileForm(
    name: string, email: string, department: string, position: string, phone: string)

  const FillRequired := "Пожалуйста, заполните обязательные поля"
  const BadEmail := "Пожалуйста, введите корректный email"

  /** `editProfile()`: the dialog opens with the current values. */
  function EditForm(u: Profile): (f: ProfileForm)
    ensures f.name == u.name && f.email == u.email && f.phone == u.phone
    ensures f.department == u.department && f.position == u.position
  {
    ProfileForm(u.name, u.email, u.department, u.position, u.phone)
  }

  /** `saveProfile()`: name and email are required and the email must have
      the `isValidEmail` shape; the form's five values then overwrite the
      user's, and the id, login, roles and permissions stay. */
  function SaveProfile(env: Env, u: Profile, f: ProfileForm): (r: Result<Profile, string>)
    ensures r == Err(FillRequired) <==> f.name == "" || f.email == ""
    ensures r == Err(BadEmail) <==>
      f.name != "" && f.email != "" && !ClientUsers.IsValidEmail(env, f.email)
    ensures r.Ok? <==> f.name != "" && ClientUsers.IsValidEmail(env, f.email)
    ensures r.Ok? ==> EditForm(r.value) == f
    ensures r.Ok? ==> (r.value.id == u.id && r.value.username == u.username
      && r.value.roles == u.roles && r.value.permissions == u.permissions)
  {
    if f.name == "" || f.email == "" then Err(FillRequired)
    else if !ClientUsers.IsValidEmail(env, f.email) then Err(BadEmail)
    else Ok(u.(name := f.name, email := f.email, department := f.department,
               position := f.position, phone := f.phone))
  }

  /** Saving the dialog untouched gives the same user back whenever the
      stored user would itself pass the checks. */
  lemma SaveUnchangedForm(env: Env, u: Profile)
    requires u.name != "" && ClientUsers.IsValidEmail(env, u.email)
    ensures SaveProfile(env, u, EditForm(u)) == Ok(u)
  {
  }

  // ---------------------------------------------------------------------
  // Operations of the user

  const RecentLimit := 10

  predicate ByUser(userId: int, op: Ledger.Operation)
  {
    op.employeeId == userId
  }

  /** The operations `userId` carried out, in list order. */
  function Mine(ops: seq<Ledger.Operation>, userId: int): (r: seq<Ledger.Operation>)
    ensures forall x :: x in r <==> x in ops && ByUser(userId, x)
  {
    Filter(ops, x => ByUser(userId, x))
  }

  /** `loadUserOperations()`: the user's operations, newest first, at most
      ten of them. */
  function UserOperations(ops: seq<Ledger.Operation>, userId: int): (r: seq<Ledger.Operation>)
    ensures |r| <= RecentLimit
    ensures |r| == if |Mine(ops, userId)| < RecentLimit then |Mine(ops, userId)| else RecentLimit
    ensures forall x :: x in r ==> x in ops && ByUser(userId, x)
    ensures Sorting.SortedDescBy(r, (op: Ledger.Operation) => op.date)
    ensures multiset(r) <= multiset(Mine(ops, userId))
    ensures |Mine(ops, userId)| <= RecentLimit ==> multiset(r) == multiset(Mine(ops, userId))
    ensures |Mine(ops, userId)| <= RecentLimit ==>
      forall x :: x in ops && ByUser(userId, x) ==> x in r
  {
    var r := Sorting.TopBy(Mine(ops, userId), (op: Ledger.Operation) => op.date, RecentLimit);
    InMultisetIn(r, Mine(ops, userId));
    r
  }

  lemma InMultisetIn(r: seq<Ledger.Operation>, s: seq<Ledger.Operation>)
    requires multiset(r) <= multiset(s)
    ensures forall x :: x in r ==> x in s
    ensures multiset(r) == multiset(s) ==> forall x :: x in s ==> x in r
  {
    forall x | x in r ensures x in s {
      assert x in multiset(r);
    }
    if multiset(r) == multiset(s) {
      forall x | x in s ensures x in r {
        assert x in multiset(s);
      }
    }
  }

  /** An operation of the user left off the list is no newer than any
      operation on it. */
  lemma UserOperationsAreLatest(ops: seq<Ledger.Operation>, userId: int, x: Ledger.Operation)
    requires x in ops && ByUser(userId, x) && x !in UserOperations(ops, userId)
    ensures forall k :: 0 <= k < |UserOperations(ops, userId)| ==>
      x.date <= UserOperations(ops, userId)[k].date
  {
    var key := (op: Ledger.Operation) => op.date;
    var r := Sorting.TopBy(Mine(ops, userId), key, RecentLimit);
    assert x in Mine(ops, userId);
    assert x !in multiset(r);
    Sorting.TopByKeepsLargest(Mine(ops, userId), key, RecentLimit, x);
  }

  // ---------------------------------------------------------------------
  // Display names

  const RoleNames: map<string, string> := map[
    "admin" := "Администратор",
    "manager" := "Менеджер",
    "operator" := "Оператор",
    "viewer" := "Наблюдатель"]

  const PermissionNames: map<string, string> := map[
    "read" := "Чтение",
    "write" := "Запись",
    "delete" := "Удаление",
    "admin" := "Администрирование"]

  /** `getRoleDisplayName(role)`. */
  function RoleDisplayName(role: string): (r: string)
    ensures role !in RoleNames ==> r == role
    ensures role in RoleNames ==> r == RoleNames[role] && r != role
  {
    LabelOf(RoleNames, role)
  }

  /** `getPermissionDisplayName(permission)`. */
  function PermissionDisplayName(permission: string): (r: string)
    ensures permission !in PermissionNames ==> r == permission
    ensures permission in PermissionNames ==> r == PermissionNames[permission] && r != permission
  {
    LabelOf(PermissionNames, permission)
  }

  /** Known roles get pairwise different names, none of which is itself a
      role key; an unknown role is shown verbatim.  So two roles with the
      same caption are the same role unless one of them is literally a
      caption. */
  lemma RoleNamesTellRolesApart(a: string, b: string)
    requires RoleDisplayName(a) == RoleDisplayName(b)
    requires a !in RoleNames.Values && b !in RoleNames.Values
    ensures a == b
  {
  }

  /** The same for permission captions. */
  lemma PermissionNamesTellPermissionsApart(a: string, b: string)
    requires PermissionDisplayName(a) == PermissionDisplayName(b)
    requires a !in PermissionNames.Values && b !in PermissionNames.Values
    ensures a == b
  {
  }

  // ---------------------------------------------------------------------
  // Recommendations

  datatype Tip = Tip(kind: string, title: string, message: string)

  const AdminTip := Tip("info", "Административные функции",
    "У вас есть доступ ко всем функциям системы. Не забудьте регулярно проверять отчеты и управлять пользователями.")
  const ManagerTip := Tip("warning", "Управление складом",
    "Следите за товарами с низким запасом и контролируйте операции операторов.")
  const WelcomeTip := Tip("success", "Добро пожаловать!",
    "Сегодня у вас пока нет операций. Начните работу с добавления товаров или оформления операций.")

  /** Position of each tip in the order the page adds them. */
  function Rank(t: Tip): nat
  {
    if t == AdminTip then 0 else if t == ManagerTip then 1 else 2
  }

  /** `getRecommendations()`, with the count of today's operations that
      `getActivityStats()` produces passed in. */
  function Recommendations(roles: seq<string>, todayCount: nat): (r: seq<Tip>)
    ensures |r| <= 3
    ensures AdminTip in r <==> "admin" in roles
    ensures ManagerTip in r <==> "manager" in roles
    ensures WelcomeTip in r <==> todayCount == 0
    ensures forall t :: t in r ==> t == AdminTip || t == ManagerTip || t == WelcomeTip
    ensures forall i, j :: 0 <= i < j < |r| ==> Rank(r[i]) < Rank(r[j])
  {
    (if "admin" in roles then [AdminTip] else [])
    + (if "manager" in roles then [ManagerTip] else [])
    + (if todayCount == 0 then [WelcomeTip] else [])
  }

  /** A user with more roles sees every tip a user with fewer roles sees. */
  lemma MoreRolesMoreTips(roles: seq<string>, more: seq<string>, todayCount: nat)
    requires forall x :: x in roles ==> x in more
    ensures forall t :: t in Recommendations(roles, todayCount) ==> t in Recommendations(more, todayCount)
  {
  }

  // ---------------------------------------------------------------------
  // Settings

  /** A value read back from the stored settings object. */
  datatype Stored = Flag(b: bool) | Text(s: string) | Number(n: int) | Null

  /** JavaScript truthiness of a stored value. */
  predicate Truthy(v: Stored)
  {
    match v
    case Flag(b) => b
    case Text(s) => s != ""
    case Number(n) => n != 0
    case Null => false
  }

  datatype Settings = Settings(emailNotifications: bool, lowStockAlerts: bool, operationReports: bool)

  /** `loadSettings()` over the parsed `user_settings` object (the empty map
      when nothing is stored). */
  function LoadSettings(stored: map<string, Stored>): (r: Settings)
    ensures r.emailNotifications <==>
      !("emailNotifications" in stored && stored["emailNotifications"] == Flag(false))
    ensures r.lowStockAlerts <==>
      !("lowStockAlerts" in stored && stored["lowStockAlerts"] == Flag(false))
    ensures r.operationReports <==>
      "operationReports" in stored && Truthy(stored["operationReports"])
  {
    Settings(
      !("emailNotifications" in stored && stored["emailNotifications"] == Flag(false)),
      !("lowStockAlerts" in stored && stored["lowStockAlerts"] == Flag(false)),
      "operationReports" in stored && Truthy(stored["operationReports"]))
  }

  /** `saveSettings()`: the three check boxes as booleans. */
  function SaveSettings(s: Settings): (r: map<string, Stored>)
    ensures r.Keys == {"emailNotifications", "lowStockAlerts", "operationReports"}
    ensures forall k :: k in r ==> r[k].Flag?
  {
    map["emailNotifications" := Flag(s.emailNotifications),
        "lowStockAlerts" := Flag(s.lowStockAlerts),
        "operationReports" := Flag(s.operationReports)]
  }

  /** Saved settings load back unchanged, and with nothing saved the first
      two boxes start checked and the third unchecked. */
  lemma SettingsRoundTrip(s: Settings)
    ensures LoadSettings(SaveSettings(s)) == s
    ensures LoadSettings(map[]) == Settings(true, true, false)
  {
  }
}
