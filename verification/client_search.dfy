/** `js/search.js`: the search page — the blank-query guard, the item and
    operation searches and the search-type switch, the regular-expression
    escaping of the query, the highlight guard, the result sorting and the
    category lookup table. */
module ClientSearch {
  import opened Common
  import Ledger
  import Sorting

  // ---------------------------------------------------------------------
  // Searching

  /** `this.filters` after `collectFilters()`: the category id, the price
      bounds (`None` for an empty field) and the instants that
      `new Date(startDate)` and `new Date(endDate)` denote (`None` for an
      empty field). */
  datatype SearchFilters = SearchFilters(
    category: string,
    minPrice: Option<int>,
    maxPrice: Option<int>,
    startDate: Option<int>,
    endDate: Option<int>)

  /** What one search found, and the query it was run for. */
  datatype SearchResults = SearchResults(
    query: string,
    items: seq<Ledger.Item>,
    operations: seq<Ledger.Operation>)

  const EnterQuery := "Введите поисковый запрос"

  /** A price bound as the store's `searchItems` reads it: a missing one is
      `null`, which is falsy like 0. */
  function Bound(b: Option<int>): int
  {
    if b.Some? then b.value else 0
  }

  /** `searchItems(query)`: nothing when only operations are wanted;
      otherwise the store's item search with the category and price
      filters. */
  function SearchItems(env: Env, items: seq<Ledger.Item>, query: string, f: SearchFilters, searchType: string)
    : (r: seq<Ledger.Item>)
    ensures searchType == "operations" ==> r == []
    ensures searchType != "operations" ==>
      r == Ledger.SearchItems(env, items, query,
                              Ledger.ItemFilters(f.category, Bound(f.minPrice), Bound(f.maxPrice), false, false))
  {
    if searchType == "operations" then []
    else Ledger.SearchItems(env, items, query,
                            Ledger.ItemFilters(f.category, Bound(f.minPrice), Bound(f.maxPrice), false, false))
  }

  /** The lower-cased query occurs in one of the five lower-cased text
      fields of the operation. */
  predicate OperationMatches(env: Env, op: Ledger.Operation, query: string)
  {
    var q := Lower(env, query);
    || Contains(Lower(env, op.itemName), q)
    || Contains(Lower(env, op.employeeName), q)
    || Contains(Lower(env, op.notes), q)
    || Contains(Lower(env, op.supplier), q)
    || Contains(Lower(env, op.recipient), q)
  }

  /** Both date bounds are inclusive. */
  predicate InDateRange(f: SearchFilters, op: Ledger.Operation)
  {
    && (f.startDate.Some? ==> op.date >= f.startDate.value)
    && (f.endDate.Some? ==> op.date <= f.endDate.value)
  }

  /** `searchOperations(query)` over the list the store answered: nothing
      when only items are wanted; otherwise the matching operations within
      the date bounds, in list order. */
  function SearchOperations(env: Env, ops: seq<Ledger.Operation>, query: string, f: SearchFilters, searchType: string)
    : (r: seq<Ledger.Operation>)
    ensures searchType == "items" ==> r == []
    ensures SubseqOf(r, ops)
    ensures searchType != "items" ==>
      forall op :: op in r <==> op in ops && OperationMatches(env, op, query) && InDateRange(f, op)
  {
    if searchType == "items" then []
    else
      var matching := Filter(ops, (op: Ledger.Operation) => OperationMatches(env, op, query));
      var r := Filter(matching, (op: Ledger.Operation) => InDateRange(f, op));
      Ledger.SubseqTrans(r, matching, ops);
      r
  }

  /** Matching ignores case: two queries with the same lower-cased form find
      the same operations. */
  lemma OperationSearchIgnoresCase(env: Env, ops: seq<Ledger.Operation>, q1: string, q2: string,
                                   f: SearchFilters, searchType: string)
    requires Lower(env, q1) == Lower(env, q2)
    ensures SearchOperations(env, ops, q1, f, searchType) == SearchOperations(env, ops, q2, f, searchType)
  {
    if searchType != "items" {
      var m1 := (op: Ledger.Operation) => OperationMatches(env, op, q1);
      var m2 := (op: Ledger.Operation) => OperationMatches(env, op, q2);
      FilterSamePredicate(ops, m1, m2);
    }
  }

  /** `performSearch()`: a query that trims to nothing is refused with a
      warning and searches nothing; otherwise both searches run with the
      trimmed query. */
  function PerformSearch(env: Env, items: seq<Ledger.Item>, ops: seq<Ledger.Operation>,
                         rawQuery: string, searchType: string, f: SearchFilters)
    : (r: Result<SearchResults, string>)
    ensures r.Err? <==> forall i :: 0 <= i < |rawQuery| ==> env.isSpace(rawQuery[i])
    ensures r.Err? ==> r.error == EnterQuery
    ensures r.Ok? ==> r.value.query == Trim(env, rawQuery) && r.value.query != ""
    ensures r.Ok? ==> r.value.items == SearchItems(env, items, r.value.query, f, searchType)
    ensures r.Ok? ==> r.value.operations == SearchOperations(env, ops, r.value.query, f, searchType)
  {
    TrimEmptyIffBlank(env, rawQuery);
    var q := Trim(env, rawQuery);
    if q == "" then Err(EnterQuery)
    else Ok(SearchResults(q, SearchItems(env, items, q, f, searchType), SearchOperations(env, ops, q, f, searchType)))
  }

  /** The search type picks the tabs: 'operations' finds no items, 'items'
      finds no operations, and any other value runs both searches. */
  lemma SearchTypeSelectsTabs(env: Env, items: seq<Ledger.Item>, ops: seq<Ledger.Operation>,
                              rawQuery: string, f: SearchFilters)
    ensures var r := PerformSearch(env, items, ops, rawQuery, "operations", f);
      r.Ok? ==> r.value.items == [] && r.value.operations == PerformSearch(env, items, ops, rawQuery, "all", f).value.operations
    ensures var r := PerformSearch(env, items, ops, rawQuery, "items", f);
      r.Ok? ==> r.value.operations == [] && r.value.items == PerformSearch(env, items, ops, rawQuery, "all", f).value.items
  {
  }

  // ---------------------------------------------------------------------
  // Query escaping and highlighting

  /** The characters `escapeRegex` escapes: `. * + ? ^ $ { } ( ) | [ ] \`. */
  predicate RegexSpecial(c: char)
  {
    || c == '.' || c == '*' || c == '+' || c == '?' || c == '^' || c == '$'
    || c == '{' || c == '}' || c == '(' || c == ')' || c == '|'
    || c == '[' || c == ']' || c == '\\'
  }

  /** `escapeRegex(s)`: a backslash before each special character, every
      other character unchanged. */
  function EscapeRegex(s: string): (r: string)
    ensures |r| >= |s|
    ensures (forall i :: 0 <= i < |s| ==> !RegexSpecial(s[i])) ==> r == s
  {
    if |s| == 0 then ""
    else (if RegexSpecial(s[0]) then ['\\', s[0]] else [s[0]]) + EscapeRegex(s[1..])
  }

  /** The text a pattern matches literally, when it is built only of plain
      characters and backslash-escaped special characters; `None` when it
      holds an operator, a dangling backslash or any other escape. */
  function LiteralText(p: string): (r: Option<string>)
    decreases |p|
  {
    if |p| == 0 then Some("")
    else if p[0] == '\\' then
      if |p| >= 2 && RegexSpecial(p[1]) then
        match LiteralText(p[2..])
        case None => None
        case Some(t) => Some([p[1]] + t)
      else None
    else if RegexSpecial(p[0]) then None
    else
      match LiteralText(p[1..])
      case None => None
      case Some(t) => Some([p[0]] + t)
  }

  /** The escaped query is a pattern without operators that matches
      exactly the query's own text. */
  lemma {:induction false} EscapeRegexIsLiteral(s: string)
    ensures LiteralText(EscapeRegex(s)) == Some(s)
  {
    if |s| > 0 {
      EscapeRegexIsLiteral(s[1..]);
      var p := EscapeRegex(s);
      if RegexSpecial(s[0]) {
        assert p[2..] == EscapeRegex(s[1..]);
      } else {
        assert p[1..] == EscapeRegex(s[1..]);
      }
      assert [s[0]] + s[1..] == s;
    }
  }

  /** Escaping loses nothing: different queries give different patterns. */
  lemma EscapeRegexInjective(a: string, b: string)
    requires EscapeRegex(a) == EscapeRegex(b)
    ensures a == b
  {
    EscapeRegexIsLiteral(a);
    EscapeRegexIsLiteral(b);
  }

  /** `highlightQuery(text)`: the text as it is while there is no current
      query; otherwise the host's regular-expression replacement
      `highlight`, which the model does not look into. */
  function HighlightQuery(query: string, text: string, highlight: string -> string): (r: string)
    ensures query == "" ==> r == text
    ensures query != "" ==> r == highlight(text)
  {
    if query == "" then text else highlight(text)
  }

  // ---------------------------------------------------------------------
  // Sorting the results

  /** The sort choices modelled.  A key a record lacks (items have no date,
      operations no price) is left out: the comparator then answers -1 for
      every pair and the order is whatever the engine makes of it. */
  datatype SearchSort = Relevance | ByQuantity | ByPrice | ByDate

  function ItemQuantity(it: Ledger.Item): int { it.quantity }
  function ItemPrice(it: Ledger.Item): int { it.price }
  function OperationQuantity(op: Ledger.Operation): int { op.quantity }
  function OperationDate(op: Ledger.Operation): int { op.date }

  /** `applySorting()`: 'relevance' leaves results and page as they are;
      any other key sorts both lists ascending by it and returns to page 1. */
  function ApplySorting(res: SearchResults, page: int, sortBy: SearchSort): (r: (SearchResults, int))
    ensures sortBy == Relevance ==> r == (res, page)
    ensures sortBy != Relevance ==> r.1 == 1
    ensures r.0.query == res.query
    ensures multiset(r.0.items) == multiset(res.items)
    ensures multiset(r.0.operations) == multiset(res.operations)
    ensures sortBy == ByQuantity ==>
      Sorting.SortedBy(r.0.items, ItemQuantity) && Sorting.SortedBy(r.0.operations, OperationQuantity)
    ensures sortBy == ByPrice ==> Sorting.SortedBy(r.0.items, ItemPrice)
    ensures sortBy == ByDate ==> Sorting.SortedBy(r.0.operations, OperationDate)
  {
    match sortBy
    case Relevance => (res, page)
    case ByQuantity =>
      (SearchResults(res.query, Sorting.Sort(res.items, ItemQuantity), Sorting.Sort(res.operations, OperationQuantity)), 1)
    case ByPrice => (res.(items := Sorting.Sort(res.items, ItemPrice)), 1)
    case ByDate => (res.(operations := Sorting.Sort(res.operations, OperationDate)), 1)
  }

  /** Sorting twice by the same key changes nothing the second time, once
      no two results share the key. */
  lemma SortingTwiceIsSortingOnce(res: SearchResults, page: int)
    requires forall i, j :: 0 <= i < j < |res.items| ==> res.items[i].price != res.items[j].price
    ensures var once := ApplySorting(res, page, ByPrice);
      ApplySorting(once.0, once.1, ByPrice) == once
  {
    var once := ApplySorting(res, page, ByPrice).0;
    var twice := ApplySorting(once, 1, ByPrice).0;
    assert forall i, j :: 0 <= i < j < |res.items| ==> ItemPrice(res.items[i]) != ItemPrice(res.items[j]);
    Sorting.DistinctKeysPermuted(res.items, once.items, ItemPrice);
    Sorting.DistinctKeysPermuted(once.items, twice.items, ItemPrice);
    Sorting.SortedPermutationUnique(twice.items, once.items, ItemPrice);
  }

  // ---------------------------------------------------------------------
  // Category lookup

  datatype CategoryInfo = CategoryInfo(id: string, name: string, icon: string)

  /** The page's own table of six categories. */
  const KnownCategories: seq<CategoryInfo> := [
    CategoryInfo("electronics", "Электроника", "fas fa-laptop"),
    CategoryInfo("clothing", "Одежда", "fas fa-tshirt"),
    CategoryInfo("tools", "Инструменты", "fas fa-tools"),
    CategoryInfo("office", "Офисные принадлежности", "fas fa-briefcase"),
    CategoryInfo("furniture", "Мебель", "fas fa-couch"),
    CategoryInfo("books", "Книги", "fas fa-book")
  ]

  const UnknownCategory := CategoryInfo("unknown", "Неизвестная категория", "fas fa-box")

  /** The first entry of `table` with that id, or `fallback`. */
  function Lookup(table: seq<CategoryInfo>, fallback: CategoryInfo, id: string): (r: CategoryInfo)
    ensures (forall k :: 0 <= k < |table| ==> table[k].id != id) ==> r == fallback
    ensures (exists k :: 0 <= k < |table| && table[k].id == id) ==>
      exists k :: 0 <= k < |table| && table[k].id == id && r == table[k]
  {
    match FindIndex(table, (c: CategoryInfo) => c.id == id)
    case None => fallback
    case Some(k) => table[k]
  }

  /** `getCategoryInfo(id)`: the table entry with that id, or the 'unknown'
      record. */
  function GetCategoryInfo(id: string): (r: CategoryInfo)
    ensures (forall k :: 0 <= k < |KnownCategories| ==> KnownCategories[k].id != id) ==> r == UnknownCategory
    ensures (exists k :: 0 <= k < |KnownCategories| && KnownCategories[k].id == id) ==>
      r in KnownCategories && r.id == id
  {
    Lookup(KnownCategories, UnknownCategory, id)
  }

  /** In a table with distinct ids that does not hold the fallback, every
      entry is found by its id and the fallback comes back exactly for ids
      outside the table. */
  lemma LookupDistinct(table: seq<CategoryInfo>, fallback: CategoryInfo, k: nat, id: string)
    requires forall i, j :: 0 <= i < j < |table| ==> table[i].id != table[j].id
    requires forall i :: 0 <= i < |table| ==> table[i].id != fallback.id
    requires k < |table|
    ensures Lookup(table, fallback, table[k].id) == table[k]
    ensures Lookup(table, fallback, id) == fallback <==> forall j :: 0 <= j < |table| ==> table[j].id != id
  {
  }

  /** Looking up an entry's own id gives that entry back, and the 'unknown'
      record comes back exactly for ids outside the table. */
  lemma LookupFindsEntry(k: nat, id: string)
    requires k < |KnownCategories|
    ensures GetCategoryInfo(KnownCategories[k].id) == KnownCategories[k]
    ensures GetCategoryInfo(id) == UnknownCategory <==>
      forall j :: 0 <= j < |KnownCategories| ==> KnownCategories[j].id != id
  {
    DistinctIds();
    LookupDistinct(KnownCategories, UnknownCategory, k, id);
  }

  /** The table's ids start with six different letters, none of them the
      'u' of the unknown record, so they differ from each other and from
      the unknown record's. */
  lemma DistinctIds()
    ensures forall i, j :: 0 <= i < j < |KnownCategories| ==> KnownCategories[i].id != KnownCategories[j].id
    ensures forall i :: 0 <= i < |KnownCategories| ==> KnownCategories[i].id != UnknownCategory.id
  {
    var first := "ectofb";
    assert forall j :: 0 <= j < |KnownCategories| ==>
      |KnownCategories[j].id| > 0 && KnownCategories[j].id[0] == first[j];
    assert forall i, j :: 0 <= i < j < 6 ==> first[i] != first[j];
    assert UnknownCategory.id[0] == 'u' && 'u' !in first;
  }
}
