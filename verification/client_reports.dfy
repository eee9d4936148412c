/** `js/reports.js`: the reports page — its six filter fields and their
    reset, the summary shown when the load fails, the net column of the
    top-items table, the CSV export and the HTML escaping of table cells. */
module ClientReports {
  import opened Common
  import opened SqlWhere
  import Csv
  import opened ReportsRoute

  // ---------------------------------------------------------------------
  // Filters

  /** `state.filters`: the six form fields as typed. */
  datatype PageFilters = PageFilters(
    dateFrom: string, dateTo: string, opType: string,
    categoryId: string, itemQuery: string, employeeQuery: string)

  /** `resetFilters()`. */
  function ResetFilters(): (f: PageFilters)
    ensures f.dateFrom == "" && f.dateTo == "" && f.opType == ""
    ensures f.categoryId == "" && f.itemQuery == "" && f.employeeQuery == ""
  {
    PageFilters("", "", "", "", "", "")
  }

  /** `new URLSearchParams(state.filters)`: all six keys are sent, empty
      ones included, so the route sees each as present. */
  function AsQuery(f: PageFilters): (q: ReportsQuery)
    ensures q.dateFrom == Some(f.dateFrom) && q.dateTo == Some(f.dateTo) && q.opType == Some(f.opType)
    ensures q.categoryId == Some(f.categoryId) && q.itemQuery == Some(f.itemQuery)
    ensures q.employeeQuery == Some(f.employeeQuery)
  {
    ReportsQuery(Some(f.dateFrom), Some(f.dateTo), Some(f.opType),
                 Some(f.categoryId), Some(f.itemQuery), Some(f.employeeQuery))
  }

  /** After a reset the report endpoints filter on nothing: the empty
      strings they receive are falsy, so the WHERE clause is empty. */
  lemma ResetQueriesEverything()
    ensures BuildFilters(AsQuery(ResetFilters())).whereSql == ""
    ensures BuildFilters(AsQuery(ResetFilters())).params == []
  {
    assert NoFilter(AsQuery(ResetFilters()));
  }

  /** A field left empty on the page adds no condition, whatever the others
      hold: the page's query binds exactly the non-empty fields. */
  lemma EmptyFieldsAddNothing(f: PageFilters)
    ensures NoFilter(AsQuery(f)) <==>
      f.dateFrom == "" && f.dateTo == "" && f.opType == "" && f.categoryId == ""
      && f.itemQuery == "" && f.employeeQuery == ""
  {
  }

  // ---------------------------------------------------------------------
  // Summary and top items

  /** `renderSummary()`: the loaded summary, or zeros when there is none
      (before the first load, or after a failed one). */
  function ShownSummary(loaded: Option<SummaryRow>): (r: SummaryRow)
    ensures loaded.None? ==> r == ZeroSummary
    ensures loaded.Some? ==> r == loaded.value
  {
    if loaded.Some? then loaded.value else ZeroSummary
  }

  /** A successful load shows the operation count and the distinct items of
      exactly the matching rows. */
  lemma ShownSummaryCountsRows(rows: seq<ReportRow>)
    ensures ShownSummary(Some(Summary([Aggregate(rows)]))).totalOperations == |rows|
    ensures ShownSummary(Some(Summary([Aggregate(rows)]))).uniqueItems == |DistinctItems(rows)|
  {
  }

  /** The fourth column of the top-items table. */
  function NetColumn(t: TopItem): int
  {
    t.totalIncoming - t.totalOutgoing
  }

  /** For every listed item the net column is its incoming minus its
      outgoing quantity over the matching rows. */
  lemma NetColumnIsBalance(rows: seq<ReportRow>, k: nat)
    requires k < |TopItems(rows)|
    ensures var t := TopItems(rows)[k];
      NetColumn(t) == SumOf(OfItemKind(rows, t.itemId, "incoming"), QuantityOf)
                    - SumOf(OfItemKind(rows, t.itemId, "outgoing"), QuantityOf)
  {
    TopItemsAreGroups(rows, k);
  }

  // ---------------------------------------------------------------------
  // CSV export

  const CsvHeader: seq<string> := ["Дата", "Тип", "Товар", "Количество", "Сотрудник", "Категория"]

  /** One exported record; `format` is the host's `toLocaleString`. */
  function CsvRow(format: int -> string, o: ReportRow): (r: seq<string>)
    ensures |r| == |CsvHeader|
    ensures r[1] == o.kind && r[2] == o.itemName && r[3] == IntToString(o.quantity)
    ensures r[4] == OrEmpty(o.employeeName) && r[5] == OrEmpty(o.categoryName)
  {
    [format(o.date), o.kind, o.itemName, IntToString(o.quantity), OrEmpty(o.employeeName), OrEmpty(o.categoryName)]
  }

  /** The records of `exportCsv()`: the header, then one per operation. */
  function CsvRows(format: int -> string, ops: seq<ReportRow>): (r: seq<seq<string>>)
    ensures |r| == |ops| + 1 && r[0] == CsvHeader
    ensures forall k :: 0 <= k < |ops| ==> r[k + 1] == CsvRow(format, ops[k])
    ensures forall k :: 0 <= k < |r| ==> |r[k]| == |CsvHeader|
  {
    [CsvHeader] + Map(ops, (o: ReportRow) => CsvRow(format, o))
  }

  /** `exportCsv()`: every value quoted with inner quotes doubled, ',' between
      values and '\n' between records. */
  function ExportCsv(format: int -> string, ops: seq<ReportRow>): string
  {
    Csv.Document(CsvRows(format, ops))
  }

  /** Reading the exported text back gives the header and then each
      operation's six values, in order, whatever characters they hold. */
  lemma ExportCsvReadsBack(format: int -> string, ops: seq<ReportRow>)
    ensures Csv.Parse(ExportCsv(format, ops)) == Some(CsvRows(format, ops))
  {
    Csv.ParseDocument(CsvRows(format, ops), "");
    assert ExportCsv(format, ops) + "" == ExportCsv(format, ops);
  }

  // ---------------------------------------------------------------------
  // HTML escaping

  predicate Special(c: char)
  {
    c == '&' || c == '<' || c == '>' || c == '"'
  }

  /** The table `{'&': '&amp;', '<': '&lt;', '>': '&gt;', '"': '&quot;'}`;
      other characters stand for themselves. */
  function Entity(c: char): (r: string)
    ensures !Special(c) ==> r == [c]
    ensures Special(c) ==> |r| >= 4 && r[0] == '&'
  {
    if c == '&' then "&amp;"
    else if c == '<' then "&lt;"
    else if c == '>' then "&gt;"
    else if c == '"' then "&quot;"
    else [c]
  }

  /** The length of the run of special characters `s` starts with. */
  function RunLength(s: string): (n: nat)
    ensures n <= |s|
    ensures forall k :: 0 <= k < n ==> Special(s[k])
    ensures n < |s| ==> !Special(s[n])
  {
    if |s| == 0 || !Special(s[0]) then 0 else 1 + RunLength(s[1..])
  }

  /** The replacement as written: `/[&<>"]+/g` hands each maximal run to the
      callback, which looks the whole run up in a table of single
      characters; a run of two or more finds nothing and is replaced by
      the text 'undefined'. */
  function EscapeRuns(s: string): string
    decreases |s|
  {
    if |s| == 0 then ""
    else if Special(s[0]) then
      var n := RunLength(s);
      (if n == 1 then Entity(s[0]) else "undefined") + EscapeRuns(s[n..])
    else [s[0]] + EscapeRuns(s[1..])
  }

  /** `escapeHtml(s)` as written; a missing or empty value gives ''. */
  function EscapeHtmlAsWritten(s: Option<string>): (r: string)
    ensures s.None? || s.value == "" ==> r == ""
  {
    EscapeRuns(OrEmpty(s))
  }

  /** Two adjacent '<' become 'undefined' instead of two entities. */
  lemma EscapeHtmlLosesRuns()
    ensures EscapeHtmlAsWritten(Some("<<")) == "undefined"
    ensures EscapeHtml(Some("<<")) == "&lt;&lt;"
  {
    assert RunLength("<<") == 2;
    assert EscapeRuns("<<") == "undefined" + EscapeRuns("");
    assert EscapeChars("<<") == Entity('<') + EscapeChars("<");
    assert EscapeChars("<") == Entity('<') + EscapeChars("");
  }

  /** Each character replaced by its entity. */
  function EscapeChars(s: string): (r: string)
    ensures forall k :: 0 <= k < |r| ==> r[k] != '<' && r[k] != '>' && r[k] != '"'
  {
    if |s| == 0 then ""
    else
      var head := Entity(s[0]);
      assert forall k :: 0 <= k < |head| ==> head[k] != '<' && head[k] != '>' && head[k] != '"';
      head + EscapeChars(s[1..])
  }

  /** The intended `escapeHtml`: every special character replaced, runs
      included. */
  function EscapeHtml(s: Option<string>): (r: string)
    ensures s.None? || s.value == "" ==> r == ""
    ensures '<' !in r && '>' !in r && '"' !in r
  {
    EscapeChars(OrEmpty(s))
  }

  /** The written version is right wherever no two special characters are
      adjacent. */
  lemma {:induction false} AsWrittenAgreesOnLoneSpecials(s: string)
    requires forall k :: 0 <= k < |s| - 1 ==> !(Special(s[k]) && Special(s[k + 1]))
    ensures EscapeRuns(s) == EscapeChars(s)
  {
    if |s| > 0 {
      AsWrittenAgreesOnLoneSpecials(s[1..]);
      if Special(s[0]) {
        assert RunLength(s) == 1 by {
          if |s| > 1 {
            assert !Special(s[1]);
          }
        }
      }
    }
  }

  /** Decoding the four entities. */
  function Unescape(s: string): string
    decreases |s|
  {
    if |s| == 0 then ""
    else if HasPrefix(s, "&amp;") then "&" + Unescape(s[5..])
    else if HasPrefix(s, "&lt;") then "<" + Unescape(s[4..])
    else if HasPrefix(s, "&gt;") then ">" + Unescape(s[4..])
    else if HasPrefix(s, "&quot;") then "\"" + Unescape(s[6..])
    else [s[0]] + Unescape(s[1..])
  }

  lemma UnescapeEntity(c: char, t: string)
    ensures Unescape(Entity(c) + t) == [c] + Unescape(t)
  {
    if c == '&' {
      UnescapeNamed("&amp;", t);
    } else if c == '<' {
      UnescapeNamed("&lt;", t);
    } else if c == '>' {
      UnescapeNamed("&gt;", t);
    } else if c == '"' {
      UnescapeNamed("&quot;", t);
    } else {
      UnescapePlain(c, t);
    }
  }

  /** A character that starts no entity decodes to itself. */
  lemma UnescapePlain(c: char, t: string)
    requires c != '&'
    ensures Unescape([c] + t) == [c] + Unescape(t)
  {
    var s := [c] + t;
    assert s[0] == c && s[1..] == t;
    assert !HasPrefix(s, "&amp;") && !HasPrefix(s, "&lt;") by {
      assert s[..1][0] == c;
    }
    assert !HasPrefix(s, "&gt;") && !HasPrefix(s, "&quot;") by {
      assert s[..1][0] == c;
    }
  }

  /** One named entity in front of `t` decodes to its character. */
  lemma UnescapeNamed(e: string, t: string)
    requires e in {"&amp;", "&lt;", "&gt;", "&quot;"}
    ensures Unescape(e + t) == [if e == "&amp;" then '&' else if e == "&lt;" then '<'
                                else if e == "&gt;" then '>' else '"'] + Unescape(t)
  {
    var s := e + t;
    assert s[..|e|] == e && s[|e|..] == t;
    assert s[1] == e[1];
  }

  /** The intended escaping loses nothing: decoding its entities gives the
      text back. */
  lemma {:induction false} UnescapeEscapeHtml(s: string)
    ensures Unescape(EscapeHtml(Some(s))) == s
  {
    EscapeCharsRoundTrip(s);
  }

  lemma {:induction false} EscapeCharsRoundTrip(s: string)
    ensures Unescape(EscapeChars(s)) == s
  {
    if |s| > 0 {
      EscapeCharsRoundTrip(s[1..]);
      UnescapeEntity(s[0], EscapeChars(s[1..]));
      assert [s[0]] + s[1..] == s;
    }
  }
}
