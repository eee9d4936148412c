/** The MySQL tables behind the Express routes, as sequences of rows with an
    AUTO_INCREMENT counter each, and the JSON answers the routes send.  Each
    route is modelled as one atomic step over these tables: a committed
    transaction is the new state, a rolled-back or never-started one leaves
    the old state. */
module ServerDb {
  import opened Common

  datatype ItemRow = ItemRow(
    id: int,
    name: string,
    categoryId: Option<int>,
    price: int,
    quantity: int,
    description: string,
    barcode: string,
    minQuantity: int,
    location: string,
    supplier: string)

  /** `date` is the row's DATETIME as a timestamp in seconds. */
  datatype OperationRow = OperationRow(
    id: int,
    kind: string,
    itemId: int,
    quantity: int,
    employeeId: int,
    status: string,
    notes: string,
    supplier: string,
    recipient: string,
    date: int)

  /** `active` is the TINYINT column: 1 or 0. */
  datatype CategoryRow = CategoryRow(
    id: int,
    name: string,
    description: string,
    icon: string,
    color: string,
    active: int)

  datatype StockDb = StockDb(
    items: seq<ItemRow>, nextItemId: int,
    operations: seq<OperationRow>, nextOperationId: int,
    categories: seq<CategoryRow>, nextCategoryId: int)

  /** Item keys are a primary key: no two rows share one. */
  predicate UniqueItemIds(db: StockDb)
  {
    forall i, j :: 0 <= i < j < |db.items| ==> db.items[i].id != db.items[j].id
  }

  /** Every stored key is below its table's AUTO_INCREMENT counter. */
  predicate KeysBelowCounters(db: StockDb)
  {
    && (forall i :: 0 <= i < |db.items| ==> db.items[i].id < db.nextItemId)
    && (forall i :: 0 <= i < |db.operations| ==> db.operations[i].id < db.nextOperationId)
    && (forall i :: 0 <= i < |db.categories| ==> db.categories[i].id < db.nextCategoryId)
  }

  /** `active` is a TINYINT; `password_hash` NULL when never set. */
  datatype UserRow = UserRow(
    id: int,
    username: string,
    name: string,
    email: string,
    department: Option<string>,
    position: Option<string>,
    passwordHash: Option<string>,
    active: bool)

  datatype RoleRow = RoleRow(id: int, name: string)

  datatype UserRole = UserRole(userId: int, roleId: int)

  /** `role_permissions` joined with `permissions`: the permission's name. */
  datatype RolePermission = RolePermission(roleId: int, permission: string)

  datatype UserDb = UserDb(
    users: seq<UserRow>, nextUserId: int,
    roles: seq<RoleRow>,
    userRoles: seq<UserRole>,
    rolePermissions: seq<RolePermission>)

  /** A JSON answer: a status with a body, or a status with `{ error }`. */
  datatype Answer<T> = Json(status: int, value: T) | Failure(status: int, message: string)

  /** A request body field that JavaScript treats as falsy when absent,
      `null`, `0` or `''`; the model keeps the numeric and the text cases
      apart. */
  predicate TruthyInt(o: Option<int>) { o.Some? && o.value != 0 }

  predicate TruthyText(o: Option<string>) { o.Some? && o.value != "" }

  /** `x || d` for a numeric field. */
  function IntOr(o: Option<int>, d: int): (r: int)
    ensures TruthyInt(o) ==> r == o.value
    ensures !TruthyInt(o) ==> r == d
  {
    if TruthyInt(o) then o.value else d
  }

  /** `x || d` for a text field. */
  function TextOr(o: Option<string>, d: string): (r: string)
    ensures TruthyText(o) ==> r == o.value
    ensures !TruthyText(o) ==> r == d
  {
    if TruthyText(o) then o.value else d
  }

  /** `x || null` for a text field. */
  function TextOrNull(o: Option<string>): (r: Option<string>)
    ensures TruthyText(o) ==> r == o
    ensures !TruthyText(o) ==> r == None
  {
    if TruthyText(o) then o else None
  }

  /** The position of the row with key `id`, if any. */
  function FindItemRow(rows: seq<ItemRow>, id: int): (r: Option<nat>)
    ensures r.None? <==> forall i :: 0 <= i < |rows| ==> rows[i].id != id
    ensures r.Some? ==> r.value < |rows| && rows[r.value].id == id
    ensures r.Some? ==> forall k :: 0 <= k < r.value ==> rows[k].id != id
  {
    FindIndex(rows, (row: ItemRow) => row.id == id)
  }
}
