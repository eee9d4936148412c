/** `server/src/routes/reports.js`: the shared filter builder of the report
    endpoints, and the ordering, grouping and row limits of `/summary`,
    `/operations` and `/top-items`.  The database evaluates the `WHERE`
    clause; the routes here receive the joined rows that satisfy it. */
module ReportsRoute {
  import opened Common
  import opened SqlWhere
  import opened Sorting

  /** The six recognised query-string fields. */
  datatype ReportsQuery = ReportsQuery(
    dateFrom: Option<string>,
    dateTo: Option<string>,
    opType: Option<string>,
    categoryId: Option<string>,
    itemQuery: Option<string>,
    employeeQuery: Option<string>)

  /** The `LIKE` pattern matching any text containing `v`. */
  function Like(v: string): (r: string)
    ensures |r| == |v| + 2 && r[0] == '%' && r[|r| - 1] == '%' && r[1..|r| - 1] == v
  {
    "%" + v + "%"
  }

  /** `(first LIKE ? OR second LIKE ?)`, both bound to `%v%`. */
  function LikeEither(first: string, second: string, v: Option<string>): (c: Condition)
    ensures '?' !in first && '?' !in second ==> WellFormed(c)
    ensures Text(c) == "(" + first + " LIKE ?" + " OR " + second + " LIKE ?" + ")"
    ensures c.params == [Like(OrEmpty(v)), Like(OrEmpty(v))]
  {
    var c := Condition(["(" + first + " LIKE ", " OR " + second + " LIKE ", ")"],
                       [Like(OrEmpty(v)), Like(OrEmpty(v))]);
    var p := c.pieces;
    assert p[1..][1..] == p[2..];
    assert Join(p[2..], "?") == p[2];
    assert Join(p[1..], "?") == p[1] + "?" + p[2];
    assert '?' !in "(" && '?' !in " LIKE " && '?' !in " OR " && '?' !in ")";
    c
  }

  /** The condition text of an optional two-column search. */
  function LikeText(v: Option<string>, first: string, second: string): (r: seq<string>)
    ensures Given(v) ==> r == ["(" + first + " LIKE ?" + " OR " + second + " LIKE ?" + ")"]
    ensures !Given(v) ==> r == []
  {
    if Given(v) then ["(" + first + " LIKE ?" + " OR " + second + " LIKE ?" + ")"] else []
  }

  /** The two values of an optional two-column search. */
  function LikeParams(v: Option<string>): (r: seq<string>)
    ensures Given(v) ==> r == [Like(v.value), Like(v.value)]
    ensures !Given(v) ==> r == []
  {
    if Given(v) then [Like(v.value), Like(v.value)] else []
  }

  /** The value of the `dateTo` filter: the given date at 23:59:59. */
  function EndOfDayParam(v: Option<string>): (r: seq<string>)
    ensures Given(v) ==> r == [v.value + " 23:59:59"]
    ensures !Given(v) ==> r == []
  {
    if Given(v) then [v.value + " 23:59:59"] else []
  }

  predicate NoFilter(q: ReportsQuery)
  {
    && !Given(q.dateFrom) && !Given(q.dateTo) && !Given(q.opType)
    && !Given(q.categoryId) && !Given(q.itemQuery) && !Given(q.employeeQuery)
  }

  /** `if (v) { where.push(c); params.push(...) }` for a condition of any shape. */
  function Search(v: Option<string>, first: string, second: string): (r: seq<Condition>)
    requires '?' !in first && '?' !in second
    ensures AllWellFormed(r)
    ensures Texts(r) == LikeText(v, first, second)
    ensures AllParams(r) == LikeParams(v)
  {
    When(Given(v), LikeEither(first, second, v))
  }

  function UpToEndOfDay(v: Option<string>): (r: seq<Condition>)
    ensures AllWellFormed(r)
    ensures Texts(r) == TextOf(v, "op.date <= ")
    ensures AllParams(r) == EndOfDayParam(v)
  {
    assert '?' !in "op.date <= ";
    var c := Compare("op.date <= ", Some(OrEmpty(v) + " 23:59:59"));
    When(Given(v), c)
  }

  /** Six groups of well-formed conditions pushed one after another. */
  lemma Concat6(c1: seq<Condition>, c2: seq<Condition>, c3: seq<Condition>,
                c4: seq<Condition>, c5: seq<Condition>, c6: seq<Condition>)
    requires AllWellFormed(c1) && AllWellFormed(c2) && AllWellFormed(c3)
    requires AllWellFormed(c4) && AllWellFormed(c5) && AllWellFormed(c6)
    ensures AllWellFormed(c1 + c2 + c3 + c4 + c5 + c6)
    ensures Texts(c1 + c2 + c3 + c4 + c5 + c6)
      == Texts(c1) + Texts(c2) + Texts(c3) + Texts(c4) + Texts(c5) + Texts(c6)
    ensures AllParams(c1 + c2 + c3 + c4 + c5 + c6)
      == AllParams(c1) + AllParams(c2) + AllParams(c3) + AllParams(c4) + AllParams(c5) + AllParams(c6)
  {
    Append(c1, c2);
    Append(c1 + c2, c3);
    Append(c1 + c2 + c3, c4);
    Append(c1 + c2 + c3 + c4, c5);
    Append(c1 + c2 + c3 + c4 + c5, c6);
  }

  /** The conditions `buildFilters` pushes, in its fixed order. */
  function Conditions(q: ReportsQuery): (c: seq<Condition>)
    ensures AllWellFormed(c)
    ensures Texts(c) == TextOf(q.dateFrom, "op.date >= ") + TextOf(q.dateTo, "op.date <= ")
      + TextOf(q.opType, "op.type = ") + TextOf(q.categoryId, "it.category_id = ")
      + LikeText(q.itemQuery, "it.name", "it.barcode") + LikeText(q.employeeQuery, "u.username", "u.name")
    ensures AllParams(c) == ParamOf(q.dateFrom) + EndOfDayParam(q.dateTo) + ParamOf(q.opType)
      + ParamOf(q.categoryId) + LikeParams(q.itemQuery) + LikeParams(q.employeeQuery)
    ensures |c| == 0 <==> NoFilter(q)
  {
    ColumnsHaveNoPlaceholder();
    var c1 := Optional(q.dateFrom, "op.date >= ");
    var c2 := UpToEndOfDay(q.dateTo);
    var c3 := Optional(q.opType, "op.type = ");
    var c4 := Optional(q.categoryId, "it.category_id = ");
    var c5 := Search(q.itemQuery, "it.name", "it.barcode");
    var c6 := Search(q.employeeQuery, "u.username", "u.name");
    Concat6(c1, c2, c3, c4, c5, c6);
    c1 + c2 + c3 + c4 + c5 + c6
  }

  lemma ColumnsHaveNoPlaceholder()
    ensures '?' !in "op.date >= " && '?' !in "op.type = " && '?' !in "it.category_id = "
    ensures '?' !in "it.name" && '?' !in "it.barcode" && '?' !in "u.username" && '?' !in "u.name"
  {
    assert '?' !in "op.date >= ";
    assert '?' !in "op.type = ";
    assert '?' !in "it.category_id = ";
    assert '?' !in "it.name" && '?' !in "it.barcode";
    assert '?' !in "u.username" && '?' !in "u.name";
  }

  /** `buildFilters`: one condition per given filter in the fixed order
      dateFrom, dateTo, opType, categoryId, itemQuery, employeeQuery, with
      exactly as many values as placeholders. */
  function BuildFilters(q: ReportsQuery): (f: Fragment)
    ensures CountChar(f.whereSql, '?') == |f.params|
    ensures f.params == ParamOf(q.dateFrom) + EndOfDayParam(q.dateTo) + ParamOf(q.opType)
      + ParamOf(q.categoryId) + LikeParams(q.itemQuery) + LikeParams(q.employeeQuery)
    ensures NoFilter(q) <==> f.whereSql == ""
    ensures NoFilter(q) ==> f.params == []
    ensures !NoFilter(q) ==> f.whereSql == WherePrefix + Join(
      TextOf(q.dateFrom, "op.date >= ") + TextOf(q.dateTo, "op.date <= ") + TextOf(q.opType, "op.type = ")
      + TextOf(q.categoryId, "it.category_id = ") + LikeText(q.itemQuery, "it.name", "it.barcode")
      + LikeText(q.employeeQuery, "u.username", "u.name"), Separator)
  {
    Where(Conditions(q))
  }

  /** A row of `operations` joined with its item, the item's category and
      the employee, as the report queries see it; `date` is a timestamp. */
  datatype ReportRow = ReportRow(
    id: int,
    date: int,
    kind: string,
    quantity: int,
    itemId: int,
    itemName: string,
    categoryName: Option<string>,
    username: Option<string>,
    employeeName: Option<string>)

  const OperationsLimit := 1000
  const TopItemsLimit := 20

  function Date(r: ReportRow): int { r.date }

  /** `/operations`: the matching rows, newest first, at most 1000. */
  function Operations(rows: seq<ReportRow>): (r: seq<ReportRow>)
    ensures |r| <= OperationsLimit
    ensures |r| == if |rows| < OperationsLimit then |rows| else OperationsLimit
    ensures SortedDescBy(r, Date)
    ensures multiset(r) <= multiset(rows)
    ensures |rows| <= OperationsLimit ==> multiset(r) == multiset(rows)
  {
    TopBy(rows, Date, OperationsLimit)
  }

  /** A matching row that `/operations` leaves out is no newer than any it
      returns. */
  lemma OperationsAreNewest(rows: seq<ReportRow>, x: ReportRow)
    requires x in multiset(rows) - multiset(Operations(rows))
    ensures forall k :: 0 <= k < |Operations(rows)| ==> x.date <= Operations(rows)[k].date
  {
    TopByKeepsLargest(rows, Date, OperationsLimit, x);
  }

  /** The distinct item keys of the rows, in order of first appearance
      (`GROUP BY it.id`). */
  function DistinctItems(rows: seq<ReportRow>): (r: seq<int>)
    ensures |r| <= |rows|
    ensures forall i, j :: 0 <= i < j < |r| ==> r[i] != r[j]
    ensures forall id :: id in r <==> exists i :: 0 <= i < |rows| && rows[i].itemId == id
  {
    if |rows| == 0 then []
    else
      var init := rows[..|rows| - 1];
      var rest := DistinctItems(init);
      var last := rows[|rows| - 1];
      assert forall i :: 0 <= i < |init| ==> init[i] == rows[i];
      if last.itemId in rest then rest else rest + [last.itemId]
  }

  datatype SummaryRow = SummaryRow(
    totalIncoming: Option<int>,
    totalOutgoing: Option<int>,
    totalOperations: int,
    uniqueItems: int)

  function QuantityOf(r: ReportRow): int { r.quantity }

  /** `SUM(CASE WHEN op.type = kind THEN op.quantity ELSE 0 END)`: NULL over
      no rows, the sum of that kind's quantities otherwise. */
  function SumOfKind(rows: seq<ReportRow>, kind: string): (r: Option<int>)
    ensures r.None? <==> |rows| == 0
    ensures r.Some? ==> r.value == SumOf(Filter(rows, (x: ReportRow) => x.kind == kind), QuantityOf)
  {
    if |rows| == 0 then None else Some(SumOf(Filter(rows, (x: ReportRow) => x.kind == kind), QuantityOf))
  }

  /** The single row the aggregate `/summary` query produces. */
  function Aggregate(rows: seq<ReportRow>): (r: SummaryRow)
    ensures r.totalOperations == |rows|
    ensures r.uniqueItems == |DistinctItems(rows)| <= r.totalOperations
    ensures r.uniqueItems == 0 <==> r.totalOperations == 0
    ensures r.totalIncoming == SumOfKind(rows, "incoming") && r.totalOutgoing == SumOfKind(rows, "outgoing")
  {
    var ids := DistinctItems(rows);
    assert |rows| > 0 ==> rows[0].itemId in ids;
    SummaryRow(SumOfKind(rows, "incoming"), SumOfKind(rows, "outgoing"), |rows|, |ids|)
  }

  const ZeroSummary := SummaryRow(Some(0), Some(0), 0, 0)

  /** `/summary`: the first row the driver returns, or the all-zero record
      when it returns none. */
  function Summary(result: seq<SummaryRow>): (r: SummaryRow)
    ensures |result| == 0 ==> r == ZeroSummary
    ensures |result| > 0 ==> r == result[0]
  {
    if |result| == 0 then ZeroSummary else result[0]
  }

  /** An aggregate without `GROUP BY` always yields one row, so `/summary`
      answers the aggregate itself and the zero fallback is never taken:
      over no matching rows it answers NULL sums and zero counts. */
  lemma SummaryOfNoRows()
    ensures Summary([Aggregate([])]) == SummaryRow(None, None, 0, 0)
    ensures Summary([Aggregate([])]) != ZeroSummary
  {
  }

  datatype TopItem = TopItem(itemId: int, itemName: string, totalIncoming: int, totalOutgoing: int)

  function Movement(t: TopItem): int { t.totalIncoming + t.totalOutgoing }

  /** The rows of one item and one kind. */
  function OfItemKind(rows: seq<ReportRow>, id: int, kind: string): seq<ReportRow>
  {
    Filter(rows, (x: ReportRow) => x.itemId == id && x.kind == kind)
  }

  /** The aggregate of one `GROUP BY it.id` group. */
  function Group(rows: seq<ReportRow>, id: int): (g: TopItem)
    ensures g.itemId == id
    ensures g.totalIncoming == SumOf(OfItemKind(rows, id, "incoming"), QuantityOf)
    ensures g.totalOutgoing == SumOf(OfItemKind(rows, id, "outgoing"), QuantityOf)
  {
    var name := match FindIndex(rows, (x: ReportRow) => x.itemId == id)
                case Some(i) => rows[i].itemName
                case None => "";
    TopItem(id, name, SumOf(OfItemKind(rows, id, "incoming"), QuantityOf),
            SumOf(OfItemKind(rows, id, "outgoing"), QuantityOf))
  }

  function Groups(rows: seq<ReportRow>): (r: seq<TopItem>)
    ensures |r| == |DistinctItems(rows)|
    ensures forall k :: 0 <= k < |r| ==> r[k] == Group(rows, DistinctItems(rows)[k])
  {
    var ids := DistinctItems(rows);
    seq(|ids|, k requires 0 <= k < |ids| => Group(rows, ids[k]))
  }

  /** `/top-items`: the per-item groups by total movement, largest first,
      at most 20; every listed group is one of the items the rows touch. */
  function TopItems(rows: seq<ReportRow>): (r: seq<TopItem>)
    ensures |r| <= TopItemsLimit
    ensures |r| == if |Groups(rows)| < TopItemsLimit then |Groups(rows)| else TopItemsLimit
    ensures SortedDescBy(r, Movement)
    ensures multiset(r) <= multiset(Groups(rows))
    ensures |Groups(rows)| <= TopItemsLimit ==> multiset(r) == multiset(Groups(rows))
  {
    TopBy(Groups(rows), Movement, TopItemsLimit)
  }

  /** Each listed group carries the true totals of an item that occurs in
      the rows. */
  lemma TopItemsAreGroups(rows: seq<ReportRow>, k: nat)
    requires k < |TopItems(rows)|
    ensures TopItems(rows)[k] == Group(rows, TopItems(rows)[k].itemId)
    ensures exists i :: 0 <= i < |rows| && rows[i].itemId == TopItems(rows)[k].itemId
  {
    var t := TopItems(rows);
    assert t[k] in multiset(t);
    assert t[k] in multiset(Groups(rows));
    var gs := Groups(rows);
    var j :| 0 <= j < |gs| && gs[j] == t[k];
    assert DistinctItems(rows)[j] in DistinctItems(rows);
  }

  /** An item group that `/top-items` leaves out moved no more than any
      group it lists. */
  lemma TopItemsAreBusiest(rows: seq<ReportRow>, g: TopItem)
    requires g in multiset(Groups(rows)) - multiset(TopItems(rows))
    ensures forall k :: 0 <= k < |TopItems(rows)| ==> Movement(g) <= Movement(TopItems(rows)[k])
  {
    TopByKeepsLargest(Groups(rows), Movement, TopItemsLimit, g);
  }
}
