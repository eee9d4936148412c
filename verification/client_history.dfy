/** `js/history.js`: the operation history page — its six filters, the
    sort by date or quantity, the twenty-row page, the counters above the
    table, the period check of the report dialog and the movement report
    written as CSV. */
module ClientHistory {
  import opened Common
  import Ledger
  import Sorting
  import Paging

  // ---------------------------------------------------------------------
  // Filters

  /** `this.filters` as read from the form.  Dates are calendar days
      (`None` for an empty date input); the item and employee filters are
      the raw option values, compared after `parseInt`. */
  datatype HistoryFilters = HistoryFilters(
    kind: string,
    startDate: Option<int>,
    endDate: Option<int>,
    itemId: string,
    employeeId: string,
    status: string)

  const NoHistoryFilters := HistoryFilters("", None, None, "", "", "")

  /** `new Date('YYYY-MM-DD')`: the first second of the day. */
  function StartOfDay(day: int): int
  {
    day * Ledger.SecondsPerDay
  }

  /** `endDate.setHours(23, 59, 59)`: the last second of the day. */
  function EndOfDay(day: int): int
  {
    day * Ledger.SecondsPerDay + Ledger.SecondsPerDay - 1
  }

  /** Every non-empty filter accepts the operation. */
  predicate Keep(env: Env, f: HistoryFilters, op: Ledger.Operation)
  {
    && (f.kind != "" ==> op.kind == f.kind)
    && (f.startDate.Some? ==> op.date >= StartOfDay(f.startDate.value))
    && (f.endDate.Some? ==> op.date <= EndOfDay(f.endDate.value))
    && (f.itemId != "" ==> env.parseInt(f.itemId) == Some(op.itemId))
    && (f.employeeId != "" ==> env.parseInt(f.employeeId) == Some(op.employeeId))
    && (f.status != "" ==> op.status == f.status)
  }

  /** `applyFilters()`: the operations every filter accepts, in list order,
      and the page reset to 1. */
  function ApplyFilters(env: Env, ops: seq<Ledger.Operation>, f: HistoryFilters)
    : (r: (seq<Ledger.Operation>, int))
    ensures SubseqOf(r.0, ops)
    ensures forall op :: op in r.0 <==> op in ops && Keep(env, f, op)
    ensures f.kind != "" ==> forall k :: 0 <= k < |r.0| ==> r.0[k].kind == f.kind
    ensures f.status != "" ==> forall k :: 0 <= k < |r.0| ==> r.0[k].status == f.status
    ensures f == NoHistoryFilters ==> r.0 == ops
    ensures r.1 == 1
  {
    (Filter(ops, (op: Ledger.Operation) => Keep(env, f, op)), 1)
  }

  /** The two date filters select whole calendar days: an operation passes
      them exactly when its day lies between the chosen days, both
      included, so the whole end day counts. */
  lemma DateFiltersAreWholeDays(op: Ledger.Operation, day: int)
    ensures op.date >= StartOfDay(day) <==> Ledger.Day(op.date) >= day
    ensures op.date <= EndOfDay(day) <==> Ledger.Day(op.date) <= day
  {
    var d := Ledger.Day(op.date);
    assert op.date == d * 86400 + op.date % 86400;
  }

  // ---------------------------------------------------------------------
  // Sorting

  /** The sortable columns modelled: dates compare as dates, quantities as
      integers. */
  datatype SortField = ByDate | ByQuantity

  function KeyOf(field: SortField): Ledger.Operation -> int
  {
    match field
    case ByDate => (op: Ledger.Operation) => op.date
    case ByQuantity => (op: Ledger.Operation) => op.quantity
  }

  /** `applySorting()`: ascending when the order is 'asc', descending for
      anything else. */
  function ApplySorting(ops: seq<Ledger.Operation>, field: SortField, order: string)
    : (r: seq<Ledger.Operation>)
    ensures multiset(r) == multiset(ops)
    ensures order == "asc" ==> Sorting.SortedBy(r, KeyOf(field))
    ensures order != "asc" ==> Sorting.SortedDescBy(r, KeyOf(field))
  {
    if order == "asc" then Sorting.Sort(ops, KeyOf(field))
    else Sorting.SortDesc(ops, KeyOf(field))
  }

  /** When no two operations share the sort key the order is fixed: any
      arrangement of the same operations ordered the same way is the one
      `ApplySorting` produces. */
  lemma SortingIsDeterminedByKeys(ops: seq<Ledger.Operation>, field: SortField, order: string,
                                  other: seq<Ledger.Operation>)
    requires forall i, j :: 0 <= i < j < |ops| ==> KeyOf(field)(ops[i]) != KeyOf(field)(ops[j])
    requires multiset(other) == multiset(ops)
    requires order == "asc" ==> Sorting.SortedBy(other, KeyOf(field))
    requires order != "asc" ==> Sorting.SortedDescBy(other, KeyOf(field))
    ensures ApplySorting(ops, field, order) == other
  {
    var key := KeyOf(field);
    var r := ApplySorting(ops, field, order);
    Sorting.DistinctKeysPermuted(ops, r, key);
    if order == "asc" {
      Sorting.SortedPermutationUnique(r, other, key);
    } else {
      var neg := (op: Ledger.Operation) => -key(op);
      assert Sorting.SortedBy(r, neg);
      assert Sorting.SortedBy(other, neg);
      assert forall i, j :: 0 <= i < j < |r| ==> neg(r[i]) != neg(r[j]);
      Sorting.SortedPermutationUnique(r, other, neg);
    }
  }

  // ---------------------------------------------------------------------
  // Page and counters

  const OperationsPerPage := 20

  /** The rows of page `page`: at most twenty. */
  function PageOperations(ops: seq<Ledger.Operation>, page: int): (r: seq<Ledger.Operation>)
    ensures |r| <= OperationsPerPage
    ensures page >= 1 && (page - 1) * OperationsPerPage <= |ops| ==>
      r == ops[(page - 1) * OperationsPerPage ..
               if page * OperationsPerPage < |ops| then page * OperationsPerPage else |ops|]
  {
    Paging.Page(ops, page, OperationsPerPage)
  }

  datatype HistoryStats = HistoryStats(total: nat, incoming: nat, outgoing: nat, totalQuantity: int)

  /** `updateStatistics()` over the filtered operations. */
  function UpdateStatistics(ops: seq<Ledger.Operation>): (r: HistoryStats)
    ensures r.total == |ops|
    ensures r.incoming + r.outgoing <= r.total
    ensures r.incoming == |Filter(ops, Ledger.OfKind("incoming"))|
    ensures r.outgoing == |Filter(ops, Ledger.OfKind("outgoing"))|
    ensures (forall op :: op in ops ==> op.quantity >= 0) ==> r.totalQuantity >= 0
  {
    Ledger.TallySplit(ops);
    NonNegativeQuantities(ops);
    HistoryStats(|ops|, Ledger.Tally(ops, "incoming"), Ledger.Tally(ops, "outgoing"),
                 SumOf(ops, Ledger.OpQuantity))
  }

  lemma NonNegativeQuantities(ops: seq<Ledger.Operation>)
    ensures (forall op :: op in ops ==> op.quantity >= 0) ==> SumOf(ops, Ledger.OpQuantity) >= 0
  {
    if forall op :: op in ops ==> op.quantity >= 0 {
      SumOfNonNegative(ops, Ledger.OpQuantity);
    }
  }

  /** When every operation is an incoming or an outgoing one the two
      counters add up to the total, and the total quantity is the incoming
      quantity plus the outgoing quantity. */
  lemma {:induction false} CountersSplitTheTotal(ops: seq<Ledger.Operation>)
    requires forall op :: op in ops ==> op.kind == "incoming" || op.kind == "outgoing"
    ensures UpdateStatistics(ops).incoming + UpdateStatistics(ops).outgoing == |ops|
    ensures UpdateStatistics(ops).totalQuantity
         == Ledger.QuantityOf(ops, "incoming") + Ledger.QuantityOf(ops, "outgoing")
  {
    if |ops| > 0 {
      CountersSplitTheTotal(ops[1..]);
    }
  }

  // ---------------------------------------------------------------------
  // Report dialog

  const PeriodMissing := "Пожалуйста, укажите период для отчета"

  /** What the report dialog asks the warehouse for; `item` is
      `reportItem || null`. */
  datatype ReportRequest =
    | MovementRequest(start: int, end: int, item: Option<string>)
    | DetailedRequest(start: int, end: int, item: Option<string>)
    | SummaryRequest

  /** `generateReport()` as written: a warning unless both dates are set;
      the movement report's period runs from midnight of the first day to
      midnight of the last, as `new Date(endDate)` gives it. */
  function GenerateReport(startDate: Option<int>, endDate: Option<int>, reportType: string, reportItem: string)
    : (r: Result<ReportRequest, string>)
    ensures r.Err? <==> startDate.None? || endDate.None?
    ensures r.Err? ==> r.error == PeriodMissing
    ensures r.Ok? && reportType == "movement" ==>
      r.value.MovementRequest? && r.value.start == StartOfDay(startDate.value)
      && r.value.end == StartOfDay(endDate.value)
    ensures r.Ok? && reportType != "movement" && reportType != "detailed" ==> r.value == SummaryRequest
  {
    if startDate.None? || endDate.None? then Err(PeriodMissing)
    else
      var item := if reportItem == "" then None else Some(reportItem);
      var start := StartOfDay(startDate.value);
      var end := StartOfDay(endDate.value);
      match reportType
      case "movement" => Ok(MovementRequest(start, end, item))
      case "detailed" => Ok(DetailedRequest(start, end, item))
      case _ => Ok(SummaryRequest)
  }

  /** The movement report of a period as written leaves out the last day:
      an operation at noon of the end day is outside it, though the
      history filter for the same days keeps it. */
  lemma MovementReportDropsLastDay(env: Env, day: int, op: Ledger.Operation)
    requires op.date == StartOfDay(day) + Ledger.SecondsPerDay / 2
    ensures var req := GenerateReport(Some(day), Some(day), "movement", "").value;
      Ledger.MovementReportFor(env, [op], req.start, req.end, req.item).operations == []
    ensures Keep(env, HistoryFilters("", Some(day), Some(day), "", "", ""), op)
  {
  }

  /** The report request with whole days: the period ends at the last
      second of the end day, as the history filter has it. */
  function GenerateReportWholeDays(startDate: Option<int>, endDate: Option<int>, reportType: string, reportItem: string)
    : (r: Result<ReportRequest, string>)
    ensures r.Err? <==> startDate.None? || endDate.None?
    ensures r.Err? ==> r.error == PeriodMissing
    ensures r.Ok? && reportType == "movement" ==>
      r.value.MovementRequest? && r.value.start == StartOfDay(startDate.value)
      && r.value.end == EndOfDay(endDate.value)
  {
    if startDate.None? || endDate.None? then Err(PeriodMissing)
    else
      var item := if reportItem == "" then None else Some(reportItem);
      var start := StartOfDay(startDate.value);
      var end := EndOfDay(endDate.value);
      match reportType
      case "movement" => Ok(MovementRequest(start, end, item))
      case "detailed" => Ok(DetailedRequest(start, end, item))
      case _ => Ok(SummaryRequest)
  }

  /** With whole days the movement report holds exactly the operations
      that the history page's date filter keeps for the same days. */
  lemma WholeDaysAgreeWithHistoryFilter(env: Env, ops: seq<Ledger.Operation>, startDay: int, endDay: int)
    ensures var req := GenerateReportWholeDays(Some(startDay), Some(endDay), "movement", "").value;
      forall op :: op in Ledger.MovementReportFor(env, ops, req.start, req.end, req.item).operations
        <==> op in ops && Keep(env, HistoryFilters("", Some(startDay), Some(endDay), "", "", ""), op)
  {
  }

  // ---------------------------------------------------------------------
  // Movement report as CSV

  /** 'Приход' for an incoming operation, 'Расход' for anything else. */
  function KindText(kind: string): string
  {
    if kind == "incoming" then "Приход" else "Расход"
  }

  /** One detail line: date, kind, item, quantity, employee. */
  function OperationLine(format: int -> string, op: Ledger.Operation): string
  {
    format(op.date) + "," + KindText(op.kind) + "," + op.itemName + ","
    + IntToString(op.quantity) + "," + op.employeeName
  }

  const HeaderLines := 11

  /** A caption and a number, as `${caption},${n}`. */
  function Total(caption: string, n: int): (line: string)
    ensures OneLine(caption) ==> OneLine(line)
  {
    DigitsAreOneLine(IntToString(n));
    caption + "," + IntToString(n)
  }

  const Title := "Отчет по движению товаров"
  const MetricsHeader := "Показатель,Значение"
  const DetailsTitle := "Детали операций"
  const ColumnsHeader := "Дата,Тип,Товар,Количество,Сотрудник"

  /** `Период: ${start} - ${end}`. */
  function PeriodLine(showDate: int -> string, r: Ledger.MovementReport): (line: string)
    ensures OneLine(showDate(r.startDate)) && OneLine(showDate(r.endDate)) ==> OneLine(line)
  {
    assert OneLine("Период: ") && OneLine(" - ");
    "Период: " + showDate(r.startDate) + " - " + showDate(r.endDate)
  }

  /** The four totals, each `${caption},${n}`. */
  function TotalsLines(r: Ledger.MovementReport): (t: seq<string>)
    ensures |t| == 4 && forall k :: 0 <= k < 4 ==> OneLine(t[k])
  {
    assert OneLine("Всего приходов") && OneLine("Всего расходов");
    assert OneLine("Количество прихода") && OneLine("Количество расхода");
    [ Total("Всего приходов", r.totalIncoming),
      Total("Всего расходов", r.totalOutgoing),
      Total("Количество прихода", r.totalIncomingQuantity),
      Total("Количество расхода", r.totalOutgoingQuantity) ]
  }

  /** The header block: the title, the period, the four totals and the
      column header.  `showDate` renders the period's dates as the dialog
      had them. */
  function HeaderBlock(showDate: int -> string, r: Ledger.MovementReport): (h: seq<string>)
    ensures |h| == HeaderLines
    ensures h[10] == ColumnsHeader
    ensures OneLine(showDate(r.startDate)) && OneLine(showDate(r.endDate)) ==>
      forall k :: 0 <= k < |h| ==> OneLine(h[k])
  {
    CaptionsAreOneLine();
    var t := TotalsLines(r);
    [Title, PeriodLine(showDate, r), "", MetricsHeader, t[0], t[1], t[2], t[3], "", DetailsTitle, ColumnsHeader]
  }

  lemma CaptionsAreOneLine()
    ensures OneLine(Title) && OneLine(MetricsHeader) && OneLine(DetailsTitle) && OneLine(ColumnsHeader)
  {
    TitleIsOneLine();
    HeadersAreOneLine();
  }

  lemma TitleIsOneLine()
    ensures OneLine(Title) && OneLine(DetailsTitle)
  {
    assert OneLine(Title);
  }

  lemma HeadersAreOneLine()
    ensures OneLine(MetricsHeader) && OneLine(ColumnsHeader)
  {
    assert OneLine(MetricsHeader);
  }

  /** The lines of `generateMovementCsv(report)`: the header block, then
      one line per operation. */
  function MovementLines(format: int -> string, showDate: int -> string, r: Ledger.MovementReport)
    : (lines: seq<string>)
    ensures |lines| == HeaderLines + |r.operations|
    ensures lines[..HeaderLines] == HeaderBlock(showDate, r)
    ensures forall k :: 0 <= k < |r.operations| ==>
      lines[HeaderLines + k] == OperationLine(format, r.operations[k])
  {
    HeaderBlock(showDate, r) + Map(r.operations, (op: Ledger.Operation) => OperationLine(format, op))
  }

  /** `generateMovementCsv(report)`: every line followed by '\n'. */
  function MovementCsv(format: int -> string, showDate: int -> string, r: Ledger.MovementReport): string
  {
    Join(MovementLines(format, showDate, r), "\n") + "\n"
  }

  /** No line break in a text. */
  predicate OneLine(s: string)
  {
    '\n' !in s
  }

  /** Cutting the CSV at its line breaks gives back the header block and
      then one line per operation, in order (and the empty text after the
      final break), provided no value holds a line break of its own. */
  lemma MovementCsvLines(format: int -> string, showDate: int -> string, r: Ledger.MovementReport)
    requires OneLine(showDate(r.startDate)) && OneLine(showDate(r.endDate))
    requires forall op :: op in r.operations ==>
      OneLine(format(op.date)) && OneLine(op.itemName) && OneLine(op.employeeName)
    ensures Split(MovementCsv(format, showDate, r), '\n') == MovementLines(format, showDate, r) + [""]
  {
    var lines := MovementLines(format, showDate, r);
    forall k | 0 <= k < |lines| ensures OneLine(lines[k]) {
      LineIsOneLine(format, showDate, r, k);
    }
    JoinAppendEmpty(lines, "\n");
    SplitJoin(lines + [""], '\n');
  }

  lemma LineIsOneLine(format: int -> string, showDate: int -> string, r: Ledger.MovementReport, k: nat)
    requires OneLine(showDate(r.startDate)) && OneLine(showDate(r.endDate))
    requires forall op :: op in r.operations ==>
      OneLine(format(op.date)) && OneLine(op.itemName) && OneLine(op.employeeName)
    requires k < |MovementLines(format, showDate, r)|
    ensures OneLine(MovementLines(format, showDate, r)[k])
  {
    if k >= HeaderLines {
      var op := r.operations[k - HeaderLines];
      assert op in r.operations;
      OperationLineIsOneLine(format, op);
    } else {
      assert MovementLines(format, showDate, r)[k] == HeaderBlock(showDate, r)[k];
    }
  }

  lemma OperationLineIsOneLine(format: int -> string, op: Ledger.Operation)
    requires OneLine(format(op.date)) && OneLine(op.itemName) && OneLine(op.employeeName)
    ensures OneLine(OperationLine(format, op))
  {
    DigitsAreOneLine(IntToString(op.quantity));
    assert OneLine(KindText(op.kind));
    var a := format(op.date) + "," + KindText(op.kind);
    assert OneLine(a);
    var b := a + "," + op.itemName + ",";
    assert OneLine(b);
    assert OneLine(b + IntToString(op.quantity) + "," + op.employeeName);
  }

  lemma DigitsAreOneLine(s: string)
    requires forall i :: 0 <= i < |s| ==> IsDigit(s[i]) || s[i] == '-'
    ensures OneLine(s)
  {
  }

  /** Joining with one more empty piece adds one trailing separator. */
  lemma {:induction false} JoinAppendEmpty(parts: seq<string>, sep: string)
    requires |parts| >= 1
    ensures Join(parts + [""], sep) == Join(parts, sep) + sep
  {
    if |parts| == 1 {
      assert Join(parts + [""], sep) == parts[0] + sep + Join([""], sep);
    } else {
      JoinAppendEmpty(parts[1..], sep);
      assert (parts + [""])[1..] == parts[1..] + [""];
    }
  }
}
