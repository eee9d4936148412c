/** `server/src/routes/stats.js`: the dashboard aggregates over the items,
    operations and categories tables.  `CURDATE()` is the parameter
    `today`, a day number. */
module StatsRoute {
  import opened Common
  import opened ServerDb
  import opened OperationsRoute

  datatype DashboardStats = DashboardStats(
    totalItems: int,
    totalValue: int,
    lowStockItems: nat,
    todayOperations: nat,
    totalCategories: nat,
    totalOperations: nat)

  const SecondsPerDay := 86400

  /** `DATE(date)` as a day number. */
  function DayOf(timestamp: int): int
  {
    timestamp / SecondsPerDay
  }

  function RowQuantity(it: ItemRow): int { it.quantity }

  function RowValue(it: ItemRow): int { it.price * it.quantity }

  predicate RowLow(it: ItemRow) { it.quantity <= it.minQuantity }

  /** `GET /`: `COALESCE(SUM(...), 0)` makes both sums 0 on an empty table. */
  function GetStats(db: StockDb, today: int): (r: DashboardStats)
    ensures r.totalItems == SumOf(db.items, RowQuantity)
    ensures r.totalValue == SumOf(db.items, RowValue)
    ensures |db.items| == 0 ==> r.totalItems == 0 && r.totalValue == 0
    ensures r.lowStockItems == Count(db.items, RowLow) <= |db.items|
    ensures r.todayOperations == Count(db.operations, (o: OperationRow) => DayOf(o.date) == today)
    ensures r.todayOperations <= r.totalOperations == |db.operations|
    ensures r.totalCategories == |db.categories|
    ensures NoNegativeStock(db.items) ==> r.totalItems >= 0
  {
    assert NoNegativeStock(db.items) ==> SumOf(db.items, RowQuantity) >= 0 by {
      if NoNegativeStock(db.items) {
        SumOfNonNegative(db.items, RowQuantity);
      }
    }
    DashboardStats(
      SumOf(db.items, RowQuantity),
      SumOf(db.items, RowValue),
      Count(db.items, RowLow),
      Count(db.operations, (o: OperationRow) => DayOf(o.date) == today),
      |db.categories|,
      |db.operations|)
  }

  /** How many rows carry key `id`. */
  function Occurrences(rows: seq<ItemRow>, id: int): nat
  {
    if |rows| == 0 then 0 else (if rows[0].id == id then 1 else 0) + Occurrences(rows[1..], id)
  }

  /** Adding `delta` to the rows with key `id` moves the quantity sum by
      `delta` once per such row. */
  lemma {:induction false} AddToStockSum(rows: seq<ItemRow>, id: int, delta: int)
    ensures SumOf(AddToStock(rows, id, delta), RowQuantity) == SumOf(rows, RowQuantity) + delta * Occurrences(rows, id)
  {
    if |rows| > 0 {
      var moved := AddToStock(rows, id, delta);
      assert moved[1..] == AddToStock(rows[1..], id, delta);
      AddToStockSum(rows[1..], id, delta);
      var hit := if rows[0].id == id then 1 else 0;
      assert RowQuantity(moved[0]) == RowQuantity(rows[0]) + delta * hit;
      assert delta * Occurrences(rows, id) == delta * hit + delta * Occurrences(rows[1..], id);
    }
  }

  /** With unique keys, a stored key occurs exactly once. */
  lemma {:induction false} UniqueKeyOnce(rows: seq<ItemRow>, id: int)
    requires forall i, j :: 0 <= i < j < |rows| ==> rows[i].id != rows[j].id
    ensures Occurrences(rows, id) == if exists i :: 0 <= i < |rows| && rows[i].id == id then 1 else 0
  {
    if |rows| > 0 {
      UniqueKeyOnce(rows[1..], id);
      if rows[0].id == id {
        assert forall i :: 0 <= i < |rows[1..]| ==> rows[1..][i].id != id by {
          forall i | 0 <= i < |rows[1..]| ensures rows[1..][i].id != id {
            assert rows[1..][i] == rows[i + 1];
          }
        }
      } else {
        assert (exists i :: 0 <= i < |rows| && rows[i].id == id)
           <==> (exists i :: 0 <= i < |rows[1..]| && rows[1..][i].id == id) by {
          if exists i :: 0 <= i < |rows| && rows[i].id == id {
            var i :| 0 <= i < |rows| && rows[i].id == id;
            assert rows[1..][i - 1] == rows[i];
          }
        }
      }
    }
  }

  /** A completed `POST /incoming` for a stored item raises `totalItems` by
      the quantity and `totalOperations` by one, and `todayOperations` by
      one (the operation is stamped `now`); the category count is
      untouched. */
  lemma IncomingMovesDashboard(db: StockDb, body: MovementBody, now: int)
    requires UniqueItemIds(db)
    requires exists i :: 0 <= i < |db.items| && db.items[i].id == body.itemId
    ensures GetStats(PostIncoming(db, body, now).0, DayOf(now)).totalItems
         == GetStats(db, DayOf(now)).totalItems + body.quantity
    ensures GetStats(PostIncoming(db, body, now).0, DayOf(now)).totalOperations
         == GetStats(db, DayOf(now)).totalOperations + 1
    ensures GetStats(PostIncoming(db, body, now).0, DayOf(now)).todayOperations
         == GetStats(db, DayOf(now)).todayOperations + 1
    ensures GetStats(PostIncoming(db, body, now).0, DayOf(now)).totalCategories
         == GetStats(db, DayOf(now)).totalCategories
  {
    var after := PostIncoming(db, body, now);
    AddToStockSum(db.items, body.itemId, body.quantity);
    UniqueKeyOnce(db.items, body.itemId);
    var today := (o: OperationRow) => DayOf(o.date) == DayOf(now);
    FilterAppend(db.operations, [after.1.value], today);
  }
}
