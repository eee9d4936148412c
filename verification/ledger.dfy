/** The offline stock ledger of `WarehouseManager` (js/warehouse.js): the
    in-memory lists of items, operations and categories, the id generators,
    the incoming/outgoing movements, the cascading deletes, the per-category
    counters and the read-only queries and exports built on them.  Every
    mutation is one pure step from a `Store` to a `Store`; the source's
    `throw` becomes an error value. */
module Ledger {
  import opened Common

  /** A stock position.  `category` is a category id; prices are whole
      roubles. */
  datatype Item = Item(
    id: int,
    name: string,
    category: string,
    price: int,
    quantity: int,
    minQuantity: int,
    description: string,
    barcode: string,
    location: string)

  /** A stock movement.  `kind` is 'incoming' or 'outgoing'; `date` is a
      timestamp in seconds. */
  datatype Operation = Operation(
    id: int,
    kind: string,
    itemId: int,
    itemName: string,
    quantity: int,
    employeeId: int,
    employeeName: string,
    date: int,
    status: string,
    supplier: string,
    recipient: string,
    notes: string)

  datatype Category = Category(id: string, name: string, itemCount: int, totalQuantity: int)

  /** The signed-in user as the ledger sees it. */
  datatype Employee = Employee(id: int, name: string)

  datatype Store = Store(items: seq<Item>, operations: seq<Operation>, categories: seq<Category>)

  datatype LedgerError =
    | ItemNotFound            // 'Позиция не найдена'
    | InsufficientStock(available: int)
    | CategoryNotFound        // 'Категория не найдена'
    | NoCurrentUser           // reading `id` of a null current user
    | UnknownExportType       // 'Неизвестный тип экспорта'

  /** The state after a movement together with what the call returned or
      threw.  A movement can throw after it has already changed the stock. */
  datatype Outcome = Outcome(store: Store, result: Result<Operation, LedgerError>)

  const SecondsPerDay: int := 86400

  /** The calendar day (UTC) of a timestamp: the `YYYY-MM-DD` prefix of its
      ISO rendering. */
  function Day(t: int): int { t / SecondsPerDay }

  // ---------------------------------------------------------------------
  // Id generation (js/warehouse.js:765-774)

  function ItemIds(items: seq<Item>): (ids: seq<int>)
    ensures |ids| == |items|
    ensures forall i :: 0 <= i < |items| ==> ids[i] == items[i].id
  {
    seq(|items|, i requires 0 <= i < |items| => items[i].id)
  }

  function OperationIds(ops: seq<Operation>): (ids: seq<int>)
    ensures |ids| == |ops|
    ensures forall i :: 0 <= i < |ops| ==> ids[i] == ops[i].id
  {
    seq(|ops|, i requires 0 <= i < |ops| => ops[i].id)
  }

  /** `Math.max(...ids, 0) + 1`: above every id in use, hence fresh. */
  function NextItemId(items: seq<Item>): (r: int)
    ensures r >= 1
    ensures forall it :: it in items ==> it.id < r
    ensures |items| == 0 ==> r == 1
    ensures r == 1 || exists it :: it in items && it.id == r - 1
  {
    var ids := ItemIds(items);
    var m := MaxOr(ids, 0);
    assert forall it :: it in items ==> it.id <= m by {
      forall it | it in items ensures it.id <= m {
        var i :| 0 <= i < |items| && items[i] == it;
        assert ids[i] == it.id;
      }
    }
    assert m != 0 ==> exists it :: it in items && it.id == m by {
      if m != 0 {
        var i :| 0 <= i < |ids| && ids[i] == m;
        assert items[i] in items;
      }
    }
    m + 1
  }

  function NextOperationId(ops: seq<Operation>): (r: int)
    ensures r >= 1
    ensures forall op :: op in ops ==> op.id < r
    ensures |ops| == 0 ==> r == 1
    ensures r == 1 || exists op :: op in ops && op.id == r - 1
  {
    var ids := OperationIds(ops);
    var m := MaxOr(ids, 0);
    assert forall op :: op in ops ==> op.id <= m by {
      forall op | op in ops ensures op.id <= m {
        var i :| 0 <= i < |ops| && ops[i] == op;
        assert ids[i] == op.id;
      }
    }
    assert m != 0 ==> exists op :: op in ops && op.id == m by {
      if m != 0 {
        var i :| 0 <= i < |ids| && ids[i] == m;
        assert ops[i] in ops;
      }
    }
    m + 1
  }

  // ---------------------------------------------------------------------
  // Per-category counters (js/warehouse.js:132-139)

  function InCategory(c: string): Item -> bool
  {
    (it: Item) => it.category == c
  }

  function Quantity(it: Item): int { it.quantity }

  /** The items of category `c`, in stock-list order. */
  function ItemsIn(items: seq<Item>, c: string): seq<Item>
  {
    Filter(items, InCategory(c))
  }

  /** The counters `updateCategoryItemCounts` writes into one category. */
  function Recounted(cat: Category, items: seq<Item>): Category
  {
    cat.(itemCount := |ItemsIn(items, cat.id)|,
         totalQuantity := SumOf(ItemsIn(items, cat.id), Quantity))
  }

  function Recount(cats: seq<Category>, items: seq<Item>): (r: seq<Category>)
    ensures |r| == |cats|
    ensures forall k :: 0 <= k < |r| ==> r[k] == Recounted(cats[k], items)
  {
    seq(|cats|, k requires 0 <= k < |cats| => Recounted(cats[k], items))
  }

  /** `updateCategoryItemCounts` as one pass per category; the result
      agrees with the filter-based definition. */
  method UpdateCategoryItemCounts(cats: seq<Category>, items: seq<Item>) returns (r: seq<Category>)
    ensures |r| == |cats|
    ensures forall k :: 0 <= k < |r| ==>
      r[k].id == cats[k].id && r[k].name == cats[k].name
      && r[k].itemCount == Count(items, InCategory(cats[k].id))
      && r[k].totalQuantity == SumOf(ItemsIn(items, cats[k].id), Quantity)
  {
    r := [];
    var k := 0;
    while k < |cats|
      invariant 0 <= k <= |cats|
      invariant |r| == k
      invariant r == Recount(cats[..k], items)
    {
      var n, total := TallyCategory(items, cats[k].id);
      RecountSnoc(cats[..k], cats[k], items);
      assert cats[..k + 1] == cats[..k] + [cats[k]];
      r := r + [Category(cats[k].id, cats[k].name, n, total)];
      k := k + 1;
    }
    assert cats[..k] == cats;
    RecountedCounters(cats, items, r);
  }

  /** Recounting one more category appends its recount. */
  lemma RecountSnoc(cats: seq<Category>, c: Category, items: seq<Item>)
    ensures Recount(cats + [c], items) == Recount(cats, items) + [Recounted(c, items)]
  {
    var a, b := Recount(cats + [c], items), Recount(cats, items) + [Recounted(c, items)];
    assert |a| == |b|;
    forall k | 0 <= k < |a| ensures a[k] == b[k] {
      if k < |cats| {
        assert (cats + [c])[k] == cats[k];
      }
    }
  }

  /** Categories recounted one by one carry the filter-based counters. */
  lemma RecountedCounters(cats: seq<Category>, items: seq<Item>, r: seq<Category>)
    requires |r| == |cats|
    requires forall m :: 0 <= m < |cats| ==> r[m] == Recounted(cats[m], items)
    ensures forall k :: 0 <= k < |r| ==>
      r[k].id == cats[k].id && r[k].name == cats[k].name
      && r[k].itemCount == Count(items, InCategory(cats[k].id))
      && r[k].totalQuantity == SumOf(ItemsIn(items, cats[k].id), Quantity)
  {
  }

  /** The count and the quantity sum of the items of category `c`, tallied
      side by side in one scan. */
  method TallyCategory(items: seq<Item>, c: string) returns (n: int, total: int)
    ensures n == |ItemsIn(items, c)|
    ensures total == SumOf(ItemsIn(items, c), Quantity)
  {
    n, total := 0, 0;
    var j := 0;
    assert items[0..] == items;
    while j < |items|
      invariant 0 <= j <= |items|
      invariant n + |ItemsIn(items[j..], c)| == |ItemsIn(items, c)|
      invariant total + SumOf(ItemsIn(items[j..], c), Quantity) == SumOf(ItemsIn(items, c), Quantity)
    {
      TallyStep(items, j, c);
      n := n + (if items[j].category == c then 1 else 0);
      total := total + (if items[j].category == c then items[j].quantity else 0);
      j := j + 1;
    }
  }

  /** What the next scanned item takes off the rest of the tally. */
  lemma TallyStep(items: seq<Item>, j: nat, c: string)
    requires j < |items|
    ensures |ItemsIn(items[j..], c)| == (if items[j].category == c then 1 else 0) + |ItemsIn(items[j + 1..], c)|
    ensures SumOf(ItemsIn(items[j..], c), Quantity)
         == (if items[j].category == c then items[j].quantity else 0) + SumOf(ItemsIn(items[j + 1..], c), Quantity)
  {
    assert items[j..][1..] == items[j + 1..];
  }

  /** Every category carries the counters of the current item list. */
  predicate CountsUpToDate(st: Store)
  {
    forall k :: 0 <= k < |st.categories| ==>
      st.categories[k].itemCount == |ItemsIn(st.items, st.categories[k].id)|
      && st.categories[k].totalQuantity == SumOf(ItemsIn(st.items, st.categories[k].id), Quantity)
  }

  /** The same categories in the same order: only the counters may
      differ. */
  predicate SameCategories(a: seq<Category>, b: seq<Category>)
  {
    |a| == |b| && forall k :: 0 <= k < |a| ==> a[k].id == b[k].id && a[k].name == b[k].name
  }

  /** The store after an item list change: counters refreshed. */
  function WithItems(st: Store, items: seq<Item>): (r: Store)
    ensures r.items == items && r.operations == st.operations
    ensures SameCategories(st.categories, r.categories)
    ensures CountsUpToDate(r)
  {
    st.(items := items, categories := Recount(st.categories, items))
  }

  // ---------------------------------------------------------------------
  // Stock movements (js/warehouse.js:337-442, offline path)

  function HasId(id: int): Item -> bool
  {
    (it: Item) => it.id == id
  }

  /** `items.findIndex(item => item.id === id)`. */
  function ItemIndex(items: seq<Item>, id: int): (r: Option<nat>)
    ensures r.None? <==> forall it :: it in items ==> it.id != id
    ensures r.Some? ==> r.value < |items| && items[r.value].id == id
    ensures r.Some? ==> forall k :: 0 <= k < r.value ==> items[k].id != id
  {
    FindIndex(items, HasId(id))
  }

  /** Quantities are never negative. */
  predicate StockNonNegative(items: seq<Item>)
  {
    forall i :: 0 <= i < |items| ==> items[i].quantity >= 0
  }

  /** `createOperation`: appends a completed operation stamped with the
      current user and time, or fails on a missing user. */
  function CreateOperation(st: Store, kind: string, item: Item, quantity: int,
                           supplier: string, recipient: string, notes: string,
                           user: Option<Employee>, now: int): (o: Outcome)
    ensures user.None? ==> o == Outcome(st, Err(NoCurrentUser))
    ensures user.Some? ==> o.result.Ok? && o.store == st.(operations := st.operations + [o.result.value])
    ensures user.Some? ==>
      var op := o.result.value;
      op.kind == kind && op.itemId == item.id && op.itemName == item.name
      && op.quantity == quantity && op.employeeId == user.value.id
      && op.employeeName == user.value.name && op.date == now && op.status == "completed"
      && op.supplier == supplier && op.recipient == recipient && op.notes == notes
      && forall old_op :: old_op in st.operations ==> old_op.id < op.id
  {
    match user
    case None => Outcome(st, Err(NoCurrentUser))
    case Some(u) =>
      var op := Operation(NextOperationId(st.operations), kind, item.id, item.name, quantity,
                          u.id, u.name, now, "completed", supplier, recipient, notes);
      Outcome(st.(operations := st.operations + [op]), Ok(op))
  }

  /** `processIncoming`: adds `quantity` to the item with `itemId` and logs
      an 'incoming' operation. */
  function ProcessIncoming(st: Store, itemId: int, quantity: int,
                           supplier: Option<string>, notes: Option<string>,
                           user: Option<Employee>, now: int): (o: Outcome)
    ensures (forall it :: it in st.items ==> it.id != itemId) ==> o == Outcome(st, Err(ItemNotFound))
    ensures o.result.Ok? || o.result == Err(NoCurrentUser) ==>
      ItemIndex(st.items, itemId).Some?
      && var i := ItemIndex(st.items, itemId).value;
         o.store.items == st.items[i := st.items[i].(quantity := st.items[i].quantity + quantity)]
    ensures ItemIndex(st.items, itemId).Some? && user.Some? ==> o.result.Ok?
    ensures o.result.Ok? ==>
      o.store.operations == st.operations + [o.result.value]
      && o.result.value.kind == "incoming" && o.result.value.itemId == itemId
      && o.result.value.quantity == quantity && o.result.value.recipient == ""
      && o.result.value.supplier == OrEmpty(supplier) && o.result.value.notes == OrEmpty(notes)
    ensures o.result == Err(NoCurrentUser) ==> user.None? && o.store.operations == st.operations
    ensures o.result.Err? ==> o.result.error == ItemNotFound || o.result.error == NoCurrentUser
    ensures SameCategories(st.categories, o.store.categories)
    ensures ItemIndex(st.items, itemId).Some? ==> CountsUpToDate(o.store)
    ensures CountsUpToDate(st) ==> CountsUpToDate(o.store)
  {
    match ItemIndex(st.items, itemId)
    case None => Outcome(st, Err(ItemNotFound))
    case Some(i) =>
      MoveStock(st, i, st.items[i].quantity + quantity, "incoming", quantity, OrEmpty(supplier), "", OrEmpty(notes), user, now)
  }

  /** The shared tail of both movements: the item at `i` gets its new
      quantity, the counters are refreshed and the operation is logged. */
  function MoveStock(st: Store, i: nat, newQuantity: int, kind: string, quantity: int,
                     supplier: string, recipient: string, notes: string,
                     user: Option<Employee>, now: int): (o: Outcome)
    requires i < |st.items|
    ensures o.store.items == st.items[i := st.items[i].(quantity := newQuantity)]
    ensures SameCategories(st.categories, o.store.categories) && CountsUpToDate(o.store)
    ensures user.None? ==> o.result == Err(NoCurrentUser) && o.store.operations == st.operations
    ensures user.Some? ==> o.result.Ok? && o.store.operations == st.operations + [o.result.value]
    ensures o.result.Ok? ==>
      o.result.value.kind == kind && o.result.value.itemId == st.items[i].id
      && o.result.value.quantity == quantity && o.result.value.supplier == supplier
      && o.result.value.recipient == recipient && o.result.value.notes == notes
  {
    var item := st.items[i].(quantity := newQuantity);
    CreateOperation(WithItems(st, st.items[i := item]), kind, item, quantity, supplier, recipient, notes, user, now)
  }

  /** `processOutgoing`: takes `quantity` from the item with `itemId` when
      enough is in stock, and logs an 'outgoing' operation. */
  function ProcessOutgoing(st: Store, itemId: int, quantity: int,
                           recipient: Option<string>, notes: Option<string>,
                           user: Option<Employee>, now: int): (o: Outcome)
    ensures (forall it :: it in st.items ==> it.id != itemId) ==> o == Outcome(st, Err(ItemNotFound))
    ensures ItemIndex(st.items, itemId).Some? ==>
      var i := ItemIndex(st.items, itemId).value;
      (st.items[i].quantity < quantity ==> o == Outcome(st, Err(InsufficientStock(st.items[i].quantity))))
      && (st.items[i].quantity >= quantity && user.Some? ==> o.result.Ok?)
    ensures o.result.Err? && o.result.error.InsufficientStock? ==>
      o.store == st && ItemIndex(st.items, itemId).Some?
      && var i := ItemIndex(st.items, itemId).value;
         st.items[i].quantity < quantity && o.result.error.available == st.items[i].quantity
    ensures o.result.Ok? || o.result == Err(NoCurrentUser) ==>
      ItemIndex(st.items, itemId).Some?
      && var i := ItemIndex(st.items, itemId).value;
         st.items[i].quantity >= quantity
         && o.store.items == st.items[i := st.items[i].(quantity := st.items[i].quantity - quantity)]
    ensures o.result.Ok? ==>
      o.store.operations == st.operations + [o.result.value]
      && o.result.value.kind == "outgoing" && o.result.value.itemId == itemId
      && o.result.value.quantity == quantity && o.result.value.supplier == ""
      && o.result.value.recipient == OrEmpty(recipient) && o.result.value.notes == OrEmpty(notes)
    ensures o.result == Err(NoCurrentUser) ==> user.None? && o.store.operations == st.operations
    ensures o.result != Err(UnknownExportType) && o.result != Err(CategoryNotFound)
    ensures SameCategories(st.categories, o.store.categories)
    ensures o.result.Ok? || o.result == Err(NoCurrentUser) ==> CountsUpToDate(o.store)
    ensures CountsUpToDate(st) ==> CountsUpToDate(o.store)
  {
    match ItemIndex(st.items, itemId)
    case None => Outcome(st, Err(ItemNotFound))
    case Some(i) =>
      if st.items[i].quantity < quantity then
        Outcome(st, Err(InsufficientStock(st.items[i].quantity)))
      else
        MoveStock(st, i, st.items[i].quantity - quantity, "outgoing", quantity, "", OrEmpty(recipient), OrEmpty(notes), user, now)
  }

  /** An outgoing movement never drives stock below zero, whatever it
      returns; a refused one changes nothing. */
  lemma OutgoingKeepsStockNonNegative(st: Store, itemId: int, quantity: int,
                                      recipient: Option<string>, notes: Option<string>,
                                      user: Option<Employee>, now: int)
    requires StockNonNegative(st.items)
    ensures StockNonNegative(ProcessOutgoing(st, itemId, quantity, recipient, notes, user, now).store.items)
  {
    var o := ProcessOutgoing(st, itemId, quantity, recipient, notes, user, now);
    if o.result.Ok? || o.result == Err(NoCurrentUser) {
      var i := ItemIndex(st.items, itemId).value;
      QuantitySetKeepsStockNonNegative(st.items, i, st.items[i].quantity - quantity);
    }
  }

  /** Incoming movements of a non-negative amount keep stock non-negative. */
  lemma IncomingKeepsStockNonNegative(st: Store, itemId: int, quantity: int,
                                      supplier: Option<string>, notes: Option<string>,
                                      user: Option<Employee>, now: int)
    requires StockNonNegative(st.items) && quantity >= 0
    ensures StockNonNegative(ProcessIncoming(st, itemId, quantity, supplier, notes, user, now).store.items)
  {
    var o := ProcessIncoming(st, itemId, quantity, supplier, notes, user, now);
    if o.result.Ok? || o.result == Err(NoCurrentUser) {
      var i := ItemIndex(st.items, itemId).value;
      QuantitySetKeepsStockNonNegative(st.items, i, st.items[i].quantity + quantity);
    }
  }

  /** Setting one item's quantity to a value that is not negative keeps
      every quantity non-negative. */
  lemma QuantitySetKeepsStockNonNegative(items: seq<Item>, i: nat, q: int)
    requires StockNonNegative(items) && i < |items| && q >= 0
    ensures StockNonNegative(items[i := items[i].(quantity := q)])
  {
  }

  // ---------------------------------------------------------------------
  // Deletes (js/warehouse.js:319-334, 742-762)

  /** `deleteItem`: removes the first item with `id`, keeping the rest in
      order. */
  function DeleteItem(st: Store, id: int): (r: Result<Store, LedgerError>)
    ensures (forall it :: it in st.items ==> it.id != id) <==> r == Err(ItemNotFound)
    ensures r.Err? ==> r.error == ItemNotFound
    ensures r.Ok? ==>
      exists i :: 0 <= i < |st.items| && st.items[i].id == id
        && (forall k :: 0 <= k < i ==> st.items[k].id != id)
        && r.value.items == st.items[..i] + st.items[i + 1..]
    ensures r.Ok? ==> r.value.operations == st.operations && CountsUpToDate(r.value)
    ensures r.Ok? ==> SameCategories(st.categories, r.value.categories)
  {
    match ItemIndex(st.items, id)
    case None => Err(ItemNotFound)
    case Some(i) => Ok(WithItems(st, RemoveAt(st.items, i)))
  }

  function NotInCategory(c: string): Item -> bool
  {
    (it: Item) => it.category != c
  }

  function CategoryHasId(id: string): Category -> bool
  {
    (c: Category) => c.id == id
  }

  /** `deleteCategory`: removes the category and every item filed under it. */
  function DeleteCategory(st: Store, id: string): (r: Result<Store, LedgerError>)
    ensures (forall c :: c in st.categories ==> c.id != id) <==> r == Err(CategoryNotFound)
    ensures r.Err? ==> r.error == CategoryNotFound
    ensures r.Ok? ==> forall it :: it in r.value.items <==> it in st.items && it.category != id
    ensures r.Ok? ==> SubseqOf(r.value.items, st.items)
    ensures r.Ok? ==> |r.value.categories| == |st.categories| - 1
    ensures r.Ok? ==>
      exists i :: 0 <= i < |st.categories| && st.categories[i].id == id
        && (forall k :: 0 <= k < i ==> r.value.categories[k].id == st.categories[k].id)
        && (forall k :: i <= k < |r.value.categories| ==> r.value.categories[k].id == st.categories[k + 1].id)
    ensures r.Ok? ==> r.value.operations == st.operations && CountsUpToDate(r.value)
  {
    match FindIndex(st.categories, CategoryHasId(id))
    case None => Err(CategoryNotFound)
    case Some(i) => Ok(DropCategory(st, i, id))
  }

  /** The category at `i` and the items filed under `id` removed, the
      other categories kept in order with their counters refreshed. */
  function DropCategory(st: Store, i: nat, id: string): (r: Store)
    requires i < |st.categories|
    ensures forall it :: it in r.items <==> it in st.items && it.category != id
    ensures SubseqOf(r.items, st.items)
    ensures |r.categories| == |st.categories| - 1
    ensures forall k :: 0 <= k < i ==> r.categories[k].id == st.categories[k].id
    ensures forall k :: i <= k < |r.categories| ==> r.categories[k].id == st.categories[k + 1].id
    ensures SameCategories(RemoveAt(st.categories, i), r.categories)
    ensures r.operations == st.operations && CountsUpToDate(r)
  {
    WithItems(st.(categories := RemoveAt(st.categories, i)), Filter(st.items, NotInCategory(id)))
  }

  /** After a successful delete no item refers to the category, and every
      item that survived is untouched. */
  lemma DeleteCategoryLeavesNoOrphans(st: Store, id: string)
    requires DeleteCategory(st, id).Ok?
    ensures ItemsIn(DeleteCategory(st, id).value.items, id) == []
    ensures forall c :: c != id ==> ItemsIn(DeleteCategory(st, id).value.items, c) == ItemsIn(st.items, c)
  {
    var items := DeleteCategory(st, id).value.items;
    assert items == Filter(st.items, NotInCategory(id));
    FilterNone(items, InCategory(id));
    forall c | c != id
      ensures ItemsIn(items, c) == ItemsIn(st.items, c)
    {
      FilterOfFilter(st.items, NotInCategory(id), InCategory(c));
    }
  }

  lemma FilterNone<T(!new)>(s: seq<T>, p: T -> bool)
    requires forall x :: x in s ==> !p(x)
    ensures Filter(s, p) == []
  {
    if |Filter(s, p)| > 0 {
      assert Filter(s, p)[0] in Filter(s, p);
    }
  }

  /** Filtering by `q` after `p`, when `q` implies `p`, is filtering by `q`. */
  lemma {:induction false} FilterOfFilter<T(!new)>(s: seq<T>, p: T -> bool, q: T -> bool)
    requires forall x :: q(x) ==> p(x)
    ensures Filter(Filter(s, p), q) == Filter(s, q)
  {
    if |s| > 0 {
      FilterOfFilter(s[1..], p, q);
    }
  }

  // ---------------------------------------------------------------------
  // Queries (js/warehouse.js:542-584, 852-876)

  /** Search filters; '' and 0 (falsy) mean "not set". */
  datatype ItemFilters = ItemFilters(
    category: string, minPrice: int, maxPrice: int, inStock: bool, lowStock: bool)

  const NoItemFilters := ItemFilters("", 0, 0, false, false)

  predicate IsLowStock(it: Item) { it.quantity <= it.minQuantity }

  /** The query matches the lower-cased name or description, or the barcode
      as it is. */
  predicate MatchesQuery(env: Env, it: Item, query: string)
  {
    var q := Lower(env, query);
    Contains(Lower(env, it.name), q) || Contains(Lower(env, it.description), q) || Contains(it.barcode, q)
  }

  /** Every active filter of `searchItems` accepts the item. */
  predicate PassesSearch(env: Env, it: Item, query: string, f: ItemFilters)
  {
    PassesText(env, it, query, f) && PassesPrice(it, f) && PassesStock(it, f)
  }

  predicate PassesText(env: Env, it: Item, query: string, f: ItemFilters)
  {
    && (query != "" ==> MatchesQuery(env, it, query))
    && (f.category != "" ==> it.category == f.category)
  }

  predicate PassesPrice(it: Item, f: ItemFilters)
  {
    && (f.minPrice != 0 ==> it.price >= f.minPrice)
    && (f.maxPrice != 0 ==> it.price <= f.maxPrice)
  }

  predicate PassesStock(it: Item, f: ItemFilters)
  {
    && (f.inStock ==> it.quantity > 0)
    && (f.lowStock ==> IsLowStock(it))
  }

  /** `searchItems`: the filters applied one after the other. */
  function SearchItems(env: Env, items: seq<Item>, query: string, f: ItemFilters): (r: seq<Item>)
    ensures SubseqOf(r, items)
    ensures forall it :: it in r <==> it in items && PassesSearch(env, it, query, f)
    ensures query == "" && f == NoItemFilters ==> r == items
  {
    var byText := TextFilters(env, items, query, f);
    var byPrice := PriceFilters(byText, f);
    var r := StockFilters(byPrice, f);
    SubseqTrans(r, byPrice, byText);
    SubseqTrans(r, byText, items);
    r
  }

  /** The query and category steps of `searchItems`. */
  function TextFilters(env: Env, items: seq<Item>, query: string, f: ItemFilters): (r: seq<Item>)
    ensures SubseqOf(r, items)
    ensures forall it :: it in r <==> it in items && PassesText(env, it, query, f)
    ensures query == "" && f.category == "" ==> r == items
  {
    var byQuery := FilterIf(items, query != "", (it: Item) => MatchesQuery(env, it, query));
    var r := FilterIf(byQuery, f.category != "", (it: Item) => it.category == f.category);
    SubseqTrans(r, byQuery, items);
    r
  }

  /** The price-bound steps of `searchItems`; a bound of 0 is no bound. */
  function PriceFilters(items: seq<Item>, f: ItemFilters): (r: seq<Item>)
    ensures SubseqOf(r, items)
    ensures forall it :: it in r <==> it in items && PassesPrice(it, f)
    ensures f.minPrice == 0 && f.maxPrice == 0 ==> r == items
  {
    var byMin := FilterIf(items, f.minPrice != 0, (it: Item) => it.price >= f.minPrice);
    var r := FilterIf(byMin, f.maxPrice != 0, (it: Item) => it.price <= f.maxPrice);
    SubseqTrans(r, byMin, items);
    r
  }

  /** The in-stock and low-stock steps of `searchItems`. */
  function StockFilters(items: seq<Item>, f: ItemFilters): (r: seq<Item>)
    ensures SubseqOf(r, items)
    ensures forall it :: it in r <==> it in items && PassesStock(it, f)
    ensures !f.inStock && !f.lowStock ==> r == items
  {
    var byStock := FilterIf(items, f.inStock, (it: Item) => it.quantity > 0);
    var r := FilterIf(byStock, f.lowStock, IsLowStock);
    SubseqTrans(r, byStock, items);
    r
  }

  /** `if (active) s = s.filter(p)`. */
  function FilterIf<T(!new)>(s: seq<T>, active: bool, p: T -> bool): (r: seq<T>)
    ensures SubseqOf(r, s)
    ensures forall x :: x in r <==> x in s && (active ==> p(x))
    ensures !active ==> r == s
  {
    if active then Filter(s, p) else SubseqRefl(s); s
  }

  lemma {:induction false} SubseqTrans<T>(a: seq<T>, b: seq<T>, c: seq<T>)
    requires SubseqOf(a, b) && SubseqOf(b, c)
    ensures SubseqOf(a, c)
    decreases |c|
  {
    if |a| == 0 {
    } else if |c| == 0 {
    } else if |b| > 0 && b[0] == c[0] && SubseqOf(b[1..], c[1..]) {
      if a[0] == b[0] && SubseqOf(a[1..], b[1..]) {
        SubseqTrans(a[1..], b[1..], c[1..]);
      } else {
        SubseqTrans(a, b[1..], c[1..]);
      }
    } else {
      SubseqTrans(a, b, c[1..]);
    }
  }

  /** `getLowStockItems`. */
  function LowStockItems(items: seq<Item>): (r: seq<Item>)
    ensures SubseqOf(r, items)
    ensures forall it :: it in r <==> it in items && it.quantity <= it.minQuantity
  {
    Filter(items, IsLowStock)
  }

  /** `getMovementReport`. */
  datatype MovementReport = MovementReport(
    startDate: int, endDate: int,
    totalIncoming: nat, totalOutgoing: nat,
    totalIncomingQuantity: int, totalOutgoingQuantity: int,
    operations: seq<Operation>)

  function InPeriod(start: int, end: int): Operation -> bool
  {
    (op: Operation) => start <= op.date <= end
  }

  function OfKind(kind: string): Operation -> bool
  {
    (op: Operation) => op.kind == kind
  }

  function OpQuantity(op: Operation): int { op.quantity }

  /** The item filter: `op.itemId === parseInt(itemId)` when `itemId` is
      truthy; `NaN` matches nothing. */
  function ForItem(env: Env, itemId: string): Operation -> bool
  {
    (op: Operation) => env.parseInt(itemId) == Some(op.itemId)
  }

  function SelectForReport(env: Env, ops: seq<Operation>, start: int, end: int, itemId: Option<string>): (r: seq<Operation>)
    ensures SubseqOf(r, ops)
    ensures forall op :: op in r <==>
      op in ops && start <= op.date <= end
      && (itemId.Some? && itemId.value != "" ==> env.parseInt(itemId.value) == Some(op.itemId))
  {
    var inPeriod := Filter(ops, InPeriod(start, end));
    if itemId.Some? && itemId.value != "" then
      var r := Filter(inPeriod, ForItem(env, itemId.value));
      SubseqTrans(r, inPeriod, ops);
      r
    else inPeriod
  }

  function Tally(ops: seq<Operation>, kind: string): nat
  {
    |Filter(ops, OfKind(kind))|
  }

  function QuantityOf(ops: seq<Operation>, kind: string): int
  {
    SumOf(Filter(ops, OfKind(kind)), OpQuantity)
  }

  function MovementReportFor(env: Env, ops: seq<Operation>, start: int, end: int, itemId: Option<string>): (r: MovementReport)
    ensures r.startDate == start && r.endDate == end
    ensures SubseqOf(r.operations, ops)
    ensures forall op :: op in r.operations ==> start <= op.date <= end
    ensures r.totalIncoming + r.totalOutgoing <= |r.operations|
    ensures r.totalIncoming == Tally(r.operations, "incoming") && r.totalOutgoing == Tally(r.operations, "outgoing")
    ensures r.totalIncomingQuantity == QuantityOf(r.operations, "incoming")
    ensures r.totalOutgoingQuantity == QuantityOf(r.operations, "outgoing")
  {
    var sel := SelectForReport(env, ops, start, end, itemId);
    TallySplit(sel);
    MovementReport(start, end, Tally(sel, "incoming"), Tally(sel, "outgoing"),
                   QuantityOf(sel, "incoming"), QuantityOf(sel, "outgoing"), sel)
  }

  /** No operation is both incoming and outgoing. */
  lemma {:induction false} TallySplit(ops: seq<Operation>)
    ensures Tally(ops, "incoming") + Tally(ops, "outgoing") <= |ops|
  {
    if |ops| > 0 {
      TallySplit(ops[1..]);
    }
  }

  /** The report over the operations of two consecutive stretches of the
      log is the sum of the two reports. */
  lemma {:induction false} MovementReportAdditive(env: Env, a: seq<Operation>, b: seq<Operation>,
                                                  start: int, end: int, itemId: Option<string>)
    ensures var ra := MovementReportFor(env, a, start, end, itemId);
            var rb := MovementReportFor(env, b, start, end, itemId);
            var rab := MovementReportFor(env, a + b, start, end, itemId);
            rab.operations == ra.operations + rb.operations
            && rab.totalIncoming == ra.totalIncoming + rb.totalIncoming
            && rab.totalOutgoing == ra.totalOutgoing + rb.totalOutgoing
            && rab.totalIncomingQuantity == ra.totalIncomingQuantity + rb.totalIncomingQuantity
            && rab.totalOutgoingQuantity == ra.totalOutgoingQuantity + rb.totalOutgoingQuantity
  {
    var sa := SelectForReport(env, a, start, end, itemId);
    var sb := SelectForReport(env, b, start, end, itemId);
    FilterAppend(a, b, InPeriod(start, end));
    if itemId.Some? && itemId.value != "" {
      FilterAppend(Filter(a, InPeriod(start, end)), Filter(b, InPeriod(start, end)), ForItem(env, itemId.value));
    }
    assert SelectForReport(env, a + b, start, end, itemId) == sa + sb;
    FilterAppend(sa, sb, OfKind("incoming"));
    FilterAppend(sa, sb, OfKind("outgoing"));
    SumOfAppend(Filter(sa, OfKind("incoming")), Filter(sb, OfKind("incoming")), OpQuantity);
    SumOfAppend(Filter(sa, OfKind("outgoing")), Filter(sb, OfKind("outgoing")), OpQuantity);
  }

  // ---------------------------------------------------------------------
  // Dashboard statistics (js/warehouse.js:156-174)

  datatype Statistics = Statistics(
    totalItems: int, totalValue: int, lowStockItems: nat,
    todayOperations: nat, totalCategories: nat, totalOperations: nat)

  function ItemValue(it: Item): int { it.price * it.quantity }

  function OnDay(day: int): Operation -> bool
  {
    (op: Operation) => Day(op.date) == day
  }

  /** `getStatistics`, with `today` the current day number. */
  function GetStatistics(st: Store, today: int): (r: Statistics)
    ensures r.lowStockItems == |LowStockItems(st.items)|
    ensures r.todayOperations == Count(st.operations, OnDay(today))
    ensures r.todayOperations <= r.totalOperations == |st.operations|
    ensures r.totalCategories == |st.categories|
    ensures r.totalItems == SumOf(st.items, Quantity)
    ensures r.totalValue == SumOf(st.items, ItemValue)
    ensures StockNonNegative(st.items) ==> r.totalItems >= 0
    ensures |st.items| == 0 ==> r.totalItems == 0 && r.totalValue == 0 && r.lowStockItems == 0
  {
    assert StockNonNegative(st.items) ==> SumOf(st.items, Quantity) >= 0 by {
      if StockNonNegative(st.items) {
        forall it | it in st.items ensures Quantity(it) >= 0 {
          var i :| 0 <= i < |st.items| && st.items[i] == it;
        }
        SumOfNonNegative(st.items, Quantity);
      }
    }
    Statistics(SumOf(st.items, Quantity), SumOf(st.items, ItemValue),
               Count(st.items, IsLowStock), Count(st.operations, OnDay(today)),
               |st.categories|, |st.operations|)
  }

  // ---------------------------------------------------------------------
  // Export (js/warehouse.js:782-849)

  datatype Cell = Num(n: int) | Text(s: string)

  datatype Table = Table(headers: seq<string>, rows: seq<seq<Cell>>)

  const UnknownCategoryName := "Неизвестная категория"

  /** `getCategoryName`: the name of the first category with that id. */
  function CategoryName(cats: seq<Category>, id: string): (r: string)
    ensures (forall c :: c in cats ==> c.id != id) ==> r == UnknownCategoryName
    ensures forall i :: (0 <= i < |cats| && cats[i].id == id && forall k :: 0 <= k < i ==> cats[k].id != id)
                        ==> r == cats[i].name
  {
    match FindIndex(cats, CategoryHasId(id))
    case None => UnknownCategoryName
    case Some(i) => cats[i].name
  }

  const ItemHeaders := ["ID", "Название", "Категория", "Цена", "Количество", "Описание", "Штрих-код", "Местоположение"]

  function ItemRow(st: Store, it: Item): seq<Cell>
  {
    [Num(it.id), Text(it.name), Text(CategoryName(st.categories, it.category)), Num(it.price),
     Num(it.quantity), Text(it.description), Text(it.barcode), Text(it.location)]
  }

  /** `exportItems`: one row per item, in order, under the fixed headers. */
  function ExportItems(st: Store): (t: Table)
    ensures t.headers == ItemHeaders
    ensures |t.rows| == |st.items|
    ensures forall i :: 0 <= i < |t.rows| ==>
      |t.rows[i]| == |t.headers| && t.rows[i][0] == Num(st.items[i].id) && t.rows[i][1] == Text(st.items[i].name)
      && t.rows[i][2] == Text(CategoryName(st.categories, st.items[i].category))
      && t.rows[i][3] == Num(st.items[i].price) && t.rows[i][4] == Num(st.items[i].quantity)
      && t.rows[i][5] == Text(st.items[i].description) && t.rows[i][6] == Text(st.items[i].barcode)
      && t.rows[i][7] == Text(st.items[i].location)
  {
    Table(ItemHeaders, seq(|st.items|, i requires 0 <= i < |st.items| => ItemRow(st, st.items[i])))
  }

  const OperationHeaders := ["ID", "Дата", "Тип", "Товар", "Количество", "Сотрудник", "Статус", "Примечания"]

  /** `exportOperations`; `formatDate` stands for `toLocaleDateString('ru-RU')`. */
  function ExportOperations(st: Store, formatDate: int -> string): (t: Table)
    ensures t.headers == OperationHeaders
    ensures |t.rows| == |st.operations|
    ensures forall i :: 0 <= i < |t.rows| ==>
      |t.rows[i]| == |t.headers| && t.rows[i][0] == Num(st.operations[i].id)
      && t.rows[i][1] == Text(formatDate(st.operations[i].date))
      && t.rows[i][2] == Text(if st.operations[i].kind == "incoming" then "Приход" else "Расход")
      && t.rows[i][3] == Text(st.operations[i].itemName) && t.rows[i][4] == Num(st.operations[i].quantity)
      && t.rows[i][5] == Text(st.operations[i].employeeName)
      && t.rows[i][6] == Text(if st.operations[i].status == "completed" then "Завершено" else "В обработке")
      && t.rows[i][7] == Text(st.operations[i].notes)
  {
    Table(OperationHeaders, seq(|st.operations|, i requires 0 <= i < |st.operations| =>
      OperationRow(st.operations[i], formatDate)))
  }

  function OperationRow(op: Operation, formatDate: int -> string): seq<Cell>
  {
    [Num(op.id), Text(formatDate(op.date)), Text(if op.kind == "incoming" then "Приход" else "Расход"),
     Text(op.itemName), Num(op.quantity), Text(op.employeeName),
     Text(if op.status == "completed" then "Завершено" else "В обработке"), Text(op.notes)]
  }

  /** `exportStatistics`: six labelled figures; the value is in roubles. */
  function ExportStatistics(st: Store, today: int): (t: Table)
    ensures t.headers == ["Показатель", "Значение"]
    ensures |t.rows| == 6 && forall i :: 0 <= i < 6 ==> |t.rows[i]| == 2
    ensures forall i :: 0 <= i < 6 ==> t.rows[i][0] == Text(StatisticsLabels[i])
    ensures t.rows[0][1] == Num(SumOf(st.items, Quantity))
    ensures t.rows[1][1] == Text(Roubles(SumOf(st.items, ItemValue)))
    ensures t.rows[2][1] == Num(|LowStockItems(st.items)|)
    ensures t.rows[3][1] == Num(Count(st.operations, OnDay(today)))
    ensures t.rows[4][1] == Num(|st.categories|)
    ensures t.rows[5][1] == Num(|st.operations|)
  {
    StatisticsTable(GetStatistics(st, today))
  }

  /** An amount followed by the rouble sign. */
  function Roubles(v: int): string
  {
    IntToString(v) + " ₽"
  }

  /** The row labels of the statistics export, in row order. */
  const StatisticsLabels: seq<string> := ["Всего товаров", "Общая стоимость", "Товары с низким запасом",
                                          "Операций сегодня", "Всего категорий", "Всего операций"]

  /** The six rows of the statistics export, one per figure, each led by
      its label. */
  function StatisticsTable(s: Statistics): (t: Table)
    ensures t.headers == ["Показатель", "Значение"]
    ensures |t.rows| == 6 && forall i :: 0 <= i < 6 ==> |t.rows[i]| == 2
    ensures forall i :: 0 <= i < 6 ==> t.rows[i][0] == Text(StatisticsLabels[i])
    ensures t.rows[0][1] == Num(s.totalItems) && t.rows[1][1] == Text(Roubles(s.totalValue))
    ensures t.rows[2][1] == Num(s.lowStockItems) && t.rows[3][1] == Num(s.todayOperations)
    ensures t.rows[4][1] == Num(s.totalCategories)
    ensures t.rows[5][1] == Num(s.totalOperations)
  {
    var names := StatisticsLabels;
    Table(["Показатель", "Значение"], [
      [Text(names[0]), Num(s.totalItems)],
      [Text(names[1]), Text(Roubles(s.totalValue))],
      [Text(names[2]), Num(s.lowStockItems)],
      [Text(names[3]), Num(s.todayOperations)],
      [Text(names[4]), Num(s.totalCategories)],
      [Text(names[5]), Num(s.totalOperations)]])
  }

  /** `exportData`: dispatches on the export kind; anything else throws. */
  function ExportData(st: Store, kind: string, today: int, formatDate: int -> string): (r: Result<Table, LedgerError>)
    ensures r.Ok? <==> kind in {"items", "operations", "statistics"}
    ensures r.Err? ==> r.error == UnknownExportType
    ensures kind == "items" ==> r == Ok(ExportItems(st))
    ensures kind == "operations" ==> r == Ok(ExportOperations(st, formatDate))
    ensures kind == "statistics" ==> r == Ok(ExportStatistics(st, today))
  {
    if kind == "items" then Ok(ExportItems(st))
    else if kind == "operations" then Ok(ExportOperations(st, formatDate))
    else if kind == "statistics" then Ok(ExportStatistics(st, today))
    else Err(UnknownExportType)
  }
}
