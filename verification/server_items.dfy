/** `server/src/routes/items.js`: reading, creating, overwriting and
    deleting rows of the `items` table. */
module ItemsRoute {
  import opened Common
  import opened ServerDb

  /** The JSON body of `POST /` and `PUT /:id`; absent fields are `None`. */
  datatype ItemBody = ItemBody(
    name: string,
    categoryId: Option<int>,
    price: Option<int>,
    quantity: Option<int>,
    description: Option<string>,
    barcode: Option<string>,
    minQuantity: Option<int>,
    location: Option<string>,
    supplier: Option<string>)

  /** `category_id || null`: a falsy key (absent or 0) stores NULL. */
  function CategoryOrNull(o: Option<int>): (r: Option<int>)
    ensures TruthyInt(o) ==> r == o
    ensures !TruthyInt(o) ==> r == None
    ensures r.Some? ==> r.value != 0
  {
    if TruthyInt(o) then o else None
  }

  /** The stored columns of a body under key `id`: every falsy field falls
      back to NULL, 0 or the empty string. */
  function Stored(id: int, b: ItemBody): (row: ItemRow)
    ensures row.id == id && row.name == b.name
    ensures row.categoryId == CategoryOrNull(b.categoryId)
    ensures row.price == IntOr(b.price, 0) && row.quantity == IntOr(b.quantity, 0)
    ensures row.minQuantity == IntOr(b.minQuantity, 0)
    ensures row.description == TextOr(b.description, "") && row.barcode == TextOr(b.barcode, "")
    ensures row.location == TextOr(b.location, "") && row.supplier == TextOr(b.supplier, "")
  {
    ItemRow(id, b.name, CategoryOrNull(b.categoryId), IntOr(b.price, 0), IntOr(b.quantity, 0),
            TextOr(b.description, ""), TextOr(b.barcode, ""), IntOr(b.minQuantity, 0),
            TextOr(b.location, ""), TextOr(b.supplier, ""))
  }

  /** `SELECT * FROM items WHERE id = ?` and its first row. */
  function FirstWithId(rows: seq<ItemRow>, id: int): (r: Option<ItemRow>)
    ensures r.None? <==> forall i :: 0 <= i < |rows| ==> rows[i].id != id
    ensures r.Some? ==> r.value in rows && r.value.id == id
  {
    match FindItemRow(rows, id)
    case None => None
    case Some(i) => Some(rows[i])
  }

  /** `GET /:id`: 404 'Not Found' when no row has the key, the row otherwise. */
  function GetItem(db: StockDb, id: int): (r: Answer<ItemRow>)
    ensures r.Failure? <==> forall i :: 0 <= i < |db.items| ==> db.items[i].id != id
    ensures r.Failure? ==> r == Failure(404, "Not Found")
    ensures r.Json? ==> r.status == 200 && r.value in db.items && r.value.id == id
  {
    match FirstWithId(db.items, id)
    case None => Failure(404, "Not Found")
    case Some(row) => Json(200, row)
  }

  /** `POST /`: inserts the defaulted row under the next AUTO_INCREMENT key
      and answers 201 with it. */
  function PostItem(db: StockDb, b: ItemBody): (r: (StockDb, Answer<ItemRow>))
    ensures r.1 == Json(201, Stored(db.nextItemId, b))
    ensures r.0.items == db.items + [Stored(db.nextItemId, b)]
    ensures r.0.nextItemId == db.nextItemId + 1
    ensures r.0.operations == db.operations && r.0.categories == db.categories
    ensures KeysBelowCounters(db) ==> KeysBelowCounters(r.0)
  {
    var row := Stored(db.nextItemId, b);
    (db.(items := db.items + [row], nextItemId := db.nextItemId + 1), Json(201, row))
  }

  /** Inserting under the counter keeps item keys unique. */
  lemma PostItemKeepsKeysUnique(db: StockDb, b: ItemBody)
    requires KeysBelowCounters(db) && UniqueItemIds(db)
    ensures UniqueItemIds(PostItem(db, b).0)
  {
    var items := PostItem(db, b).0.items;
    forall i, j | 0 <= i < j < |items| ensures items[i].id != items[j].id {
      if j == |db.items| {
        assert items[i].id < db.nextItemId == items[j].id;
      } else {
        assert items[i] == db.items[i] && items[j] == db.items[j];
      }
    }
  }

  /** `PUT /:id`: overwrites every column of the rows with that key, without
      first checking that one exists, and answers the re-read row (`None`
      when there is none). */
  function PutItem(db: StockDb, id: int, b: ItemBody): (r: (StockDb, Answer<Option<ItemRow>>))
    ensures |r.0.items| == |db.items|
    ensures forall i :: 0 <= i < |db.items| ==>
      r.0.items[i] == if db.items[i].id == id then Stored(id, b) else db.items[i]
    ensures r.0.operations == db.operations && r.0.categories == db.categories
    ensures r.0.nextItemId == db.nextItemId
    ensures r.1.Json? && r.1.status == 200
    ensures r.1.value.None? <==> forall i :: 0 <= i < |db.items| ==> db.items[i].id != id
    ensures r.1.value.Some? ==> r.1.value.value == Stored(id, b)
  {
    var items := seq(|db.items|, i requires 0 <= i < |db.items| =>
      if db.items[i].id == id then Stored(id, b) else db.items[i]);
    var db' := db.(items := items);
    assert forall i :: 0 <= i < |items| ==> (items[i].id == id <==> db.items[i].id == id);
    (db', Json(200, FirstWithId(items, id)))
  }

  /** `DELETE /:id`: removes the rows with that key and answers success
      whether or not one existed. */
  function DeleteItem(db: StockDb, id: int): (r: (StockDb, Answer<bool>))
    ensures r.1 == Json(200, true)
    ensures forall x :: x in r.0.items <==> x in db.items && x.id != id
    ensures SubseqOf(r.0.items, db.items)
    ensures (forall i :: 0 <= i < |db.items| ==> db.items[i].id != id) ==> r.0 == db
    ensures r.0.operations == db.operations && r.0.categories == db.categories
  {
    (db.(items := Filter(db.items, (row: ItemRow) => row.id != id)), Json(200, true))
  }

  /** Deleting a key that `GET /:id` finds makes `GET /:id` answer 404,
      and leaves every other key's answer as it was. */
  lemma DeleteThenGet(db: StockDb, id: int, other: int)
    requires other != id
    ensures GetItem(DeleteItem(db, id).0, id) == Failure(404, "Not Found")
    ensures GetItem(DeleteItem(db, id).0, other).Failure? == GetItem(db, other).Failure?
  {
    var items := DeleteItem(db, id).0.items;
    forall i | 0 <= i < |items| ensures items[i].id != id {
      assert items[i] in items;
    }
    if GetItem(db, other).Json? {
      var row := GetItem(db, other).value;
      assert row in items;
    } else {
      forall i | 0 <= i < |items| ensures items[i].id != other {
        assert items[i] in items;
        assert items[i] in db.items;
      }
    }
  }
}
