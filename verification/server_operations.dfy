/** `server/src/routes/operations.js`: the filtered, ordered listing of
    operations and the two stock-movement transactions. */
module OperationsRoute {
  import opened Common
  import opened SqlWhere
  import opened ServerDb

  /** The recognised query-string fields of `GET /api/operations`. */
  datatype OperationsQuery = OperationsQuery(
    kind: Option<string>,
    startDate: Option<string>,
    endDate: Option<string>,
    itemId: Option<string>,
    sortBy: Option<string>,
    sortOrder: Option<string>)

  predicate NoFilter(q: OperationsQuery)
  {
    !Given(q.kind) && !Given(q.startDate) && !Given(q.endDate) && !Given(q.itemId)
  }

  /** The `WHERE` clause and its values: one condition and one value per
      given filter, in the fixed order type, startDate, endDate, itemId. */
  function OperationsWhere(q: OperationsQuery): (f: Fragment)
    ensures CountChar(f.whereSql, '?') == |f.params|
    ensures f.params == ParamOf(q.kind) + ParamOf(q.startDate) + ParamOf(q.endDate) + ParamOf(q.itemId)
    ensures NoFilter(q) <==> f.whereSql == ""
    ensures !NoFilter(q) ==> f.whereSql == WherePrefix + Join(
      TextOf(q.kind, "o.type = ") + TextOf(q.startDate, "o.date >= ")
      + TextOf(q.endDate, "o.date <= ") + TextOf(q.itemId, "o.item_id = "), Separator)
  {
    var c1 := Optional(q.kind, "o.type = ");
    var c2 := Optional(q.startDate, "o.date >= ");
    var c3 := Optional(q.endDate, "o.date <= ");
    var c4 := Optional(q.itemId, "o.item_id = ");
    Concat4(c1, c2, c3, c4);
    var f := Where(c1 + c2 + c3 + c4);
    assert |c1 + c2 + c3 + c4| == 0 <==> NoFilter(q);
    f
  }

  /** Four optional conditions, each well-formed, in a row. */
  lemma Concat4(c1: seq<Condition>, c2: seq<Condition>, c3: seq<Condition>, c4: seq<Condition>)
    requires AllWellFormed(c1) && AllWellFormed(c2) && AllWellFormed(c3) && AllWellFormed(c4)
    ensures AllWellFormed(c1 + c2 + c3 + c4)
    ensures Texts(c1 + c2 + c3 + c4) == Texts(c1) + Texts(c2) + Texts(c3) + Texts(c4)
    ensures AllParams(c1 + c2 + c3 + c4) == AllParams(c1) + AllParams(c2) + AllParams(c3) + AllParams(c4)
  {
    Append(c1, c2);
    Append(c1 + c2, c3);
    Append(c1 + c2 + c3, c4);
  }

  /** `ORDER BY o.<column> <direction>`: the column is `quantity` only for
      `sortBy = 'quantity'`, the direction ASC only when the upper-cased
      `sortOrder` (default 'desc') is 'ASC'. */
  function OrderSql(env: Env, q: OperationsQuery): (r: string)
    ensures r in {"ORDER BY o.quantity ASC", "ORDER BY o.quantity DESC", "ORDER BY o.date ASC", "ORDER BY o.date DESC"}
    ensures q.sortBy == Some("quantity") <==> r in {"ORDER BY o.quantity ASC", "ORDER BY o.quantity DESC"}
    ensures r in {"ORDER BY o.quantity ASC", "ORDER BY o.date ASC"} <==> Upper(env, if q.sortOrder.Some? then q.sortOrder.value else "desc") == "ASC"
  {
    var order := if q.sortOrder.Some? then q.sortOrder.value else "desc";
    var ascending := Upper(env, order) == "ASC";
    if q.sortBy == Some("quantity") then
      (if ascending then "ORDER BY o.quantity ASC" else "ORDER BY o.quantity DESC")
    else
      (if ascending then "ORDER BY o.date ASC" else "ORDER BY o.date DESC")
  }

  /** The JSON body of the two POST routes. */
  datatype MovementBody = MovementBody(
    itemId: int,
    quantity: int,
    party: Option<string>,      // supplier for incoming, recipient for outgoing
    notes: Option<string>,
    employeeId: Option<int>)

  /** `UPDATE items SET quantity = quantity + delta WHERE id = itemId`. */
  function AddToStock(rows: seq<ItemRow>, itemId: int, delta: int): (r: seq<ItemRow>)
    ensures |r| == |rows|
    ensures forall i :: 0 <= i < |rows| ==>
      r[i] == if rows[i].id == itemId then rows[i].(quantity := rows[i].quantity + delta) else rows[i]
  {
    seq(|rows|, i requires 0 <= i < |rows| =>
      if rows[i].id == itemId then rows[i].(quantity := rows[i].quantity + delta) else rows[i])
  }

  /** `INSERT INTO operations …`: the row gets the next AUTO_INCREMENT key. */
  function InsertOperation(db: StockDb, kind: string, body: MovementBody, now: int): (r: (StockDb, OperationRow))
    ensures r.1.id == db.nextOperationId && r.0.nextOperationId == db.nextOperationId + 1
    ensures r.0.operations == db.operations + [r.1]
    ensures r.0.items == db.items && r.0.categories == db.categories
    ensures r.1.kind == kind && r.1.itemId == body.itemId && r.1.quantity == body.quantity
    ensures r.1.status == "completed" && r.1.date == now
    ensures r.1.employeeId == IntOr(body.employeeId, 1) && r.1.notes == TextOr(body.notes, "")
    ensures kind == "incoming" ==> r.1.supplier == TextOr(body.party, "") && r.1.recipient == ""
    ensures kind != "incoming" ==> r.1.recipient == TextOr(body.party, "") && r.1.supplier == ""
  {
    var row := OperationRow(db.nextOperationId, kind, body.itemId, body.quantity, IntOr(body.employeeId, 1),
                            "completed", TextOr(body.notes, ""),
                            if kind == "incoming" then TextOr(body.party, "") else "",
                            if kind == "incoming" then "" else TextOr(body.party, ""), now);
    (db.(operations := db.operations + [row], nextOperationId := db.nextOperationId + 1), row)
  }

  /** `POST /incoming`: adds the quantity to the item and records a
      completed 'incoming' operation, answering 201 with it.  Neither
      statement checks that the item exists. */
  function PostIncoming(db: StockDb, body: MovementBody, now: int): (r: (StockDb, Answer<OperationRow>))
    ensures r.1.Json? && r.1.status == 201
    ensures r.0.items == AddToStock(db.items, body.itemId, body.quantity)
    ensures r.0.operations == db.operations + [r.1.value] && r.0.categories == db.categories
    ensures r.1.value.kind == "incoming" && r.1.value.status == "completed"
    ensures r.1.value.quantity == body.quantity && r.1.value.itemId == body.itemId
    ensures r.1.value.employeeId == IntOr(body.employeeId, 1)
    ensures r.1.value.notes == TextOr(body.notes, "") && r.1.value.supplier == TextOr(body.party, "")
    ensures KeysBelowCounters(db) ==> KeysBelowCounters(r.0)
  {
    var updated := db.(items := AddToStock(db.items, body.itemId, body.quantity));
    var (db', row) := InsertOperation(updated, "incoming", body, now);
    (db', Json(201, row))
  }

  /** `POST /outgoing`: refuses a missing item (500, rolled back) and a
      short stock (400, nothing written); otherwise subtracts the quantity
      and records a completed 'outgoing' operation, answering 201. */
  function PostOutgoing(db: StockDb, body: MovementBody, now: int): (r: (StockDb, Answer<OperationRow>))
    ensures (forall i :: 0 <= i < |db.items| ==> db.items[i].id != body.itemId) ==>
      r == (db, Failure(500, "Item not found"))
    ensures r.1.Failure? ==> r.0 == db
    ensures r.1 == Failure(400, "Insufficient quantity") <==>
      var found := FindItemRow(db.items, body.itemId);
      found.Some? && db.items[found.value].quantity < body.quantity
    ensures r.1.Json? <==>
      var found := FindItemRow(db.items, body.itemId);
      found.Some? && db.items[found.value].quantity >= body.quantity
    ensures r.1.Json? ==>
      r.1.status == 201
      && r.0.items == AddToStock(db.items, body.itemId, -body.quantity)
      && r.0.operations == db.operations + [r.1.value]
      && r.1.value.kind == "outgoing" && r.1.value.recipient == TextOr(body.party, "")
      && r.1.value.quantity == body.quantity
    ensures KeysBelowCounters(db) ==> KeysBelowCounters(r.0)
  {
    match FindItemRow(db.items, body.itemId)
    case None => (db, Failure(500, "Item not found"))
    case Some(i) =>
      if db.items[i].quantity < body.quantity then (db, Failure(400, "Insufficient quantity"))
      else Withdraw(db, body, now)
  }

  /** The write half of `POST /outgoing`, once the stock check passed:
      subtract, record, answer 201. */
  function Withdraw(db: StockDb, body: MovementBody, now: int): (r: (StockDb, Answer<OperationRow>))
    ensures r.1.Json? && r.1.status == 201
    ensures r.0.items == AddToStock(db.items, body.itemId, -body.quantity)
    ensures r.0.operations == db.operations + [r.1.value]
    ensures r.1.value.kind == "outgoing" && r.1.value.recipient == TextOr(body.party, "")
    ensures r.1.value.quantity == body.quantity
    ensures KeysBelowCounters(db) ==> KeysBelowCounters(r.0)
  {
    var updated := db.(items := AddToStock(db.items, body.itemId, -body.quantity));
    var (db', row) := InsertOperation(updated, "outgoing", body, now);
    (db', Json(201, row))
  }

  predicate NoNegativeStock(rows: seq<ItemRow>)
  {
    forall i :: 0 <= i < |rows| ==> rows[i].quantity >= 0
  }

  /** With item keys unique, `POST /outgoing` never drives stock below
      zero. */
  lemma OutgoingNeverNegative(db: StockDb, body: MovementBody, now: int)
    requires UniqueItemIds(db) && NoNegativeStock(db.items)
    ensures NoNegativeStock(PostOutgoing(db, body, now).0.items)
  {
    var r := PostOutgoing(db, body, now);
    if r.1.Json? {
      var i := FindItemRow(db.items, body.itemId).value;
      forall k | 0 <= k < |r.0.items| ensures r.0.items[k].quantity >= 0 {
        if db.items[k].id == body.itemId {
          assert k == i;
        }
      }
    }
  }
}
