/** `js/catalog.js`: the catalog page — its filter predicate, the page
    slice and the page-number window, the stock badge, the counters, the
    edit-form check and the CSV export. */
module ClientCatalog {
  import opened Common
  import Ledger
  import opened ItemForm
  import Csv
  import Paging

  // ---------------------------------------------------------------------
  // Filters

  /** `this.filters`: the search text, the category id, the price bounds
      after `parseFloat` (`None` for an empty field or NaN) and the two
      check boxes. */
  datatype CatalogFilters = CatalogFilters(
    search: string,
    category: string,
    minPrice: Option<real>,
    maxPrice: Option<real>,
    inStock: bool,
    lowStock: bool)

  /** A bound is active when it is a number other than 0. */
  predicate Active(bound: Option<real>)
  {
    bound.Some? && bound.value != 0.0
  }

  /** Each active filter of `applyFilters` accepts the item. */
  predicate Keep(env: Env, f: CatalogFilters, it: Ledger.Item)
  {
    && (f.search != "" ==> Ledger.MatchesQuery(env, it, f.search))
    && (f.category != "" ==> it.category == f.category)
    && (Active(f.minPrice) ==> it.price as real >= f.minPrice.value)
    && (Active(f.maxPrice) ==> it.price as real <= f.maxPrice.value)
    && (f.inStock ==> it.quantity > 0)
    && (f.lowStock ==> it.quantity <= it.minQuantity)
  }

  /** `applyFilters()`: the items every active filter accepts, in list
      order, and the page reset to 1. */
  function ApplyFilters(env: Env, items: seq<Ledger.Item>, f: CatalogFilters): (r: (seq<Ledger.Item>, int))
    ensures SubseqOf(r.0, items)
    ensures forall it :: it in r.0 <==> it in items && Keep(env, f, it)
    ensures f.search != "" ==> forall k :: 0 <= k < |r.0| ==> Ledger.MatchesQuery(env, r.0[k], f.search)
    ensures f.category != "" ==> forall k :: 0 <= k < |r.0| ==> r.0[k].category == f.category
    ensures f.inStock ==> forall k :: 0 <= k < |r.0| ==> r.0[k].quantity > 0
    ensures f.lowStock ==> forall k :: 0 <= k < |r.0| ==> r.0[k].quantity <= r.0[k].minQuantity
    ensures r.1 == 1
  {
    var kept := Filter(items, (it: Ledger.Item) => Keep(env, f, it));
    (kept, 1)
  }

  /** With whole-number bounds the catalog keeps exactly what the store's
      `searchItems` keeps: the two pages filter alike. */
  lemma CatalogAgreesWithStoreSearch(env: Env, items: seq<Ledger.Item>, f: CatalogFilters, minPrice: int, maxPrice: int)
    requires f.minPrice == (if minPrice == 0 then None else Some(minPrice as real))
    requires f.maxPrice == (if maxPrice == 0 then None else Some(maxPrice as real))
    ensures forall it :: it in ApplyFilters(env, items, f).0 <==>
      it in Ledger.SearchItems(env, items, f.search,
                               Ledger.ItemFilters(f.category, minPrice, maxPrice, f.inStock, f.lowStock))
  {
    var g := Ledger.ItemFilters(f.category, minPrice, maxPrice, f.inStock, f.lowStock);
    forall it | it in items
      ensures Keep(env, f, it) <==> Ledger.PassesSearch(env, it, f.search, g)
    {
    }
  }

  /** The barcode is searched as it is, against the lower-cased query: an
      item that matches only through its barcode is kept exactly when the
      barcode contains the lower-cased query. */
  lemma BarcodeMatchIsCaseSensitive(env: Env, it: Ledger.Item, query: string)
    requires !Contains(Lower(env, it.name), Lower(env, query))
    requires !Contains(Lower(env, it.description), Lower(env, query))
    ensures Ledger.MatchesQuery(env, it, query) <==> Contains(it.barcode, Lower(env, query))
  {
  }

  // ---------------------------------------------------------------------
  // Pages

  const ItemsPerPage := 12

  /** The catalog's page `page`: at most twelve cards. */
  function PageItems(items: seq<Ledger.Item>, page: int): (r: seq<Ledger.Item>)
    ensures |r| <= ItemsPerPage
    ensures page >= 1 && (page - 1) * ItemsPerPage <= |items| ==>
      r == items[(page - 1) * ItemsPerPage .. if page * ItemsPerPage < |items| then page * ItemsPerPage else |items|]
  {
    Paging.Page(items, page, ItemsPerPage)
  }

  // ---------------------------------------------------------------------
  // Stock badge and counters

  datatype StockStatus = StockStatus(cssClass: string, text: string)

  const OutOfStock := StockStatus("bg-danger", "Нет в наличии")
  const RunningLow := StockStatus("bg-warning", "Заканчивается")
  const InStock := StockStatus("bg-success", "В наличии")

  /** `getStockStatus(item)`. */
  function GetStockStatus(it: Ledger.Item): (r: StockStatus)
    ensures r == OutOfStock <==> it.quantity == 0
    ensures r == RunningLow <==> it.quantity != 0 && it.quantity <= it.minQuantity
    ensures r == InStock <==> it.quantity != 0 && it.quantity > it.minQuantity
  {
    if it.quantity == 0 then OutOfStock
    else if it.quantity <= it.minQuantity then RunningLow
    else InStock
  }

  /** With a non-negative threshold the badge is green exactly for the
      items the store does not list as low on stock. */
  lemma BadgeAgreesWithLowStock(it: Ledger.Item)
    requires it.minQuantity >= 0
    ensures GetStockStatus(it) == InStock <==> !Ledger.IsLowStock(it)
  {
  }

  datatype CatalogStats = CatalogStats(total: nat, inStock: nat, lowStock: nat, categories: nat)

  /** The distinct non-empty categories, in order of first appearance. */
  function DistinctCategories(items: seq<Ledger.Item>): (r: seq<string>)
    ensures |r| <= |items|
    ensures forall c :: c in r <==> c != "" && exists k :: 0 <= k < |items| && items[k].category == c
    ensures forall a, b :: 0 <= a < b < |r| ==> r[a] != r[b]
  {
    if |items| == 0 then []
    else
      var rest := DistinctCategories(items[1..]);
      assert forall k :: 1 <= k < |items| ==> items[k] == items[1..][k - 1];
      assert forall k :: 0 <= k < |items[1..]| ==> items[1..][k] == items[k + 1];
      var c := items[0].category;
      if c == "" || c in rest then rest else [c] + rest
  }

  function InStockItem(it: Ledger.Item): bool { it.quantity > 0 }

  /** `updateStatistics()` over the filtered list. */
  function Statistics(items: seq<Ledger.Item>): (r: CatalogStats)
    ensures r.total == |items|
    ensures r.inStock == Count(items, InStockItem) <= r.total
    ensures r.lowStock == Count(items, Ledger.IsLowStock) <= r.total
    ensures r.categories == |DistinctCategories(items)| <= r.total
  {
    CatalogStats(|items|, Count(items, InStockItem), Count(items, Ledger.IsLowStock), |DistinctCategories(items)|)
  }

  /** With the "in stock" box checked every listed item counts as in stock,
      and with the "low stock" box every one counts as low. */
  lemma CheckedBoxesFillTheirCounters(env: Env, items: seq<Ledger.Item>, f: CatalogFilters)
    ensures f.inStock ==> Statistics(ApplyFilters(env, items, f).0).inStock == |ApplyFilters(env, items, f).0|
    ensures f.lowStock ==> Statistics(ApplyFilters(env, items, f).0).lowStock == |ApplyFilters(env, items, f).0|
  {
    var kept := ApplyFilters(env, items, f).0;
    CountAll(kept, InStockItem);
    CountAll(kept, Ledger.IsLowStock);
  }

  lemma {:induction false} CountAll<T(!new)>(s: seq<T>, p: T -> bool)
    ensures (forall k :: 0 <= k < |s| ==> p(s[k])) ==> Count(s, p) == |s|
  {
    if |s| > 0 {
      CountAll(s[1..], p);
      assert forall k :: 0 <= k < |s[1..]| ==> s[1..][k] == s[k + 1];
    }
  }

  // ---------------------------------------------------------------------
  // Editing an item

  /** The catalog's label table. */
  const CatalogLabels: Labels := map[
    "itemName" := "Название товара", "itemCategory" := "Категория",
    "itemPrice" := "Цена", "itemQuantity" := "Количество",
    "editItemName" := "Название товара", "editItemCategory" := "Категория",
    "editItemPrice" := "Цена", "editItemQuantity" := "Количество"]

  /** An input id of the edit dialog. */
  predicate EditFormId(id: string)
  {
    HasPrefix(id, "editItem")
  }

  /** `updateItem()` as written validates the edit dialog with
      `validateForm`, which looks for `item*` ids; the dialog's inputs are
      all `editItem*`, so the update is always refused before it reaches
      the store. */
  lemma EditFormAlwaysRejected(env: Env, f: Form)
    requires forall id :: id in f ==> EditFormId(id)
    ensures ValidateForm(env, CatalogLabels, f) == Err(RequiredMessage("Название товара"))
  {
    assert !EditFormId("itemName") by {
      assert "itemName"[0] != "editItem"[0];
    }
    assert !Filled(env, f, "itemName");
  }

  const EditRequiredFields: seq<string> := ["editItemName", "editItemCategory", "editItemPrice", "editItemQuantity"]

  /** The edit dialog checked against its own ids, as the catalog's label
      table for `editItem*` evidently intends. */
  function ValidateEditForm(env: Env, f: Form): (r: Result<(), string>)
    ensures r.Ok? <==>
      && AllFilled(env, f, EditRequiredFields) && "editItemPrice" in f && "editItemQuantity" in f
      && !NegativeReal(env, f["editItemPrice"]) && !NegativeInt(env, f["editItemQuantity"])
  {
    var r := FieldsValidator(env, CatalogLabels, f, EditRequiredFields, "editItemPrice", "editItemQuantity");
    assert AllFilled(env, f, EditRequiredFields) ==>
      Filled(env, f, EditRequiredFields[2]) && Filled(env, f, EditRequiredFields[3]);
    r
  }

  /** A complete edit dialog with a price and quantity that are not
      negative now passes, and one missing its name is still refused with
      the name's label. */
  lemma EditFormAcceptedWhenFilled(env: Env, f: Form)
    ensures AllFilled(env, f, EditRequiredFields) && "editItemPrice" in f && "editItemQuantity" in f
            && !NegativeReal(env, f["editItemPrice"]) && !NegativeInt(env, f["editItemQuantity"]) ==>
      ValidateEditForm(env, f) == Ok(())
    ensures !Filled(env, f, "editItemName") ==>
      ValidateEditForm(env, f) == Err(RequiredMessage("Название товара"))
  {
    if !Filled(env, f, "editItemName") {
      assert !Filled(env, f, EditRequiredFields[0]);
      assert FirstBlank(env, f, EditRequiredFields) == Some(0);
    }
  }

  // ---------------------------------------------------------------------
  // CSV export

  /** `${cell}` of an export cell. */
  function CellText(c: Ledger.Cell): string
  {
    match c
    case Num(n) => IntToString(n)
    case Text(s) => s
  }

  /** One row as `exportCatalog()` writes it: each cell between double
      quotes, inner quotes left as they are. */
  function CatalogLine(row: seq<Ledger.Cell>): string
  {
    Join(Map(row, (c: Ledger.Cell) => "\"" + CellText(c) + "\""), ",")
  }

  /** `exportCatalog()` as written: the bare header line, then one line per
      row, each ended by '\n'. */
  function CatalogCsv(t: Ledger.Table): string
  {
    Join(t.headers, ",") + "\n" + CatalogLines(t.rows)
  }

  function CatalogLines(rows: seq<seq<Ledger.Cell>>): string
  {
    if |rows| == 0 then "" else CatalogLine(rows[0]) + "\n" + CatalogLines(rows[1..])
  }

  /** A one-cell row holding `a","b` is written exactly like the two-cell
      row `a`, `b`: the export cannot be read back. */
  lemma CatalogLineCollides()
    ensures CatalogLine([Ledger.Text("a\",\"b")]) == CatalogLine([Ledger.Text("a"), Ledger.Text("b")])
  {
    var one := Map([Ledger.Text("a\",\"b")], (c: Ledger.Cell) => "\"" + CellText(c) + "\"");
    var two := Map([Ledger.Text("a"), Ledger.Text("b")], (c: Ledger.Cell) => "\"" + CellText(c) + "\"");
    assert |one| == 1 && one[0] == "\"" + "a\",\"b" + "\"";
    assert |two| == 2 && two[0] == "\"" + "a" + "\"" && two[1] == "\"" + "b" + "\"";
    var x := one[0];
    var y := two[0] + "," + two[1];
    assert |x| == 7 && |y| == 7;
    assert forall i :: 0 <= i < 7 ==> x[i] == y[i];
    assert x == y;
    assert Join(two, ",") == "\"a\"" + "," + Join(two[1..], ",");
  }

  /** The cells of a table as text, header first. */
  function TableTexts(t: Ledger.Table): (r: seq<seq<string>>)
    ensures |r| == |t.rows| + 1 && r[0] == t.headers
    ensures forall k :: 0 <= k < |t.rows| ==> r[k + 1] == Map(t.rows[k], CellText)
  {
    [t.headers] + Map(t.rows, (row: seq<Ledger.Cell>) => Map(row, CellText))
  }

  /** The export with the quoting of section 2 of RFC 4180: every field
      quoted, inner quotes doubled, each record ended by '\n'. */
  function CatalogCsvQuoted(t: Ledger.Table): string
  {
    Csv.Document(TableTexts(t)) + "\n"
  }

  /** The corrected export reads back as the header and the cell texts of
      every row, for a table whose header and rows are non-empty (as the
      store's item export is). */
  lemma CatalogCsvQuotedReadsBack(t: Ledger.Table)
    requires |t.headers| >= 1
    requires forall k :: 0 <= k < |t.rows| ==> |t.rows[k]| >= 1
    ensures Csv.Parse(CatalogCsvQuoted(t)) == Some(TableTexts(t))
  {
    Csv.ParseDocument(TableTexts(t), "\n");
  }
}
