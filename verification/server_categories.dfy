/** `server/src/routes/categories.js`: the category listing with its item
    counts, the defaulting of inserted and overwritten rows, and the
    cascading delete. */
module CategoriesRoute {
  import opened Common
  import opened ServerDb

  /** The JSON body of `POST /` and `PUT /:id`; `active` is whether the
      field was truthy. */
  datatype CategoryBody = CategoryBody(
    name: string,
    description: Option<string>,
    icon: Option<string>,
    color: Option<string>,
    active: bool)

  const DefaultIcon := "fas fa-tag"
  const DefaultColor := "#2c5aa0"

  /** A listed category: its columns and `itemCount`. */
  datatype ListedCategory = ListedCategory(row: CategoryRow, itemCount: nat)

  function InCategory(id: int): ItemRow -> bool
  {
    (it: ItemRow) => it.categoryId == Some(id)
  }

  /** `GET /`: every category with the number of items whose `category_id`
      is its key. */
  function ListCategories(db: StockDb): (r: seq<ListedCategory>)
    ensures |r| == |db.categories|
    ensures forall k :: 0 <= k < |r| ==>
      r[k].row == db.categories[k] && r[k].itemCount == Count(db.items, InCategory(db.categories[k].id))
  {
    seq(|db.categories|, k requires 0 <= k < |db.categories| =>
      ListedCategory(db.categories[k], Count(db.items, InCategory(db.categories[k].id))))
  }

  /** The stored columns of a body under key `id`: falsy description, icon
      and color fall back to '', 'fas fa-tag' and '#2c5aa0'; `active` is 1
      or 0. */
  function Stored(id: int, b: CategoryBody): (row: CategoryRow)
    ensures row.id == id && row.name == b.name
    ensures row.description == TextOr(b.description, "")
    ensures row.icon == TextOr(b.icon, DefaultIcon) && row.icon != ""
    ensures row.color == TextOr(b.color, DefaultColor) && row.color != ""
    ensures row.active == 1 <==> b.active
    ensures row.active == 0 <==> !b.active
  {
    CategoryRow(id, b.name, TextOr(b.description, ""), TextOr(b.icon, DefaultIcon),
                TextOr(b.color, DefaultColor), if b.active then 1 else 0)
  }

  /** `POST /`: inserts under the next key and answers 201 with the row. */
  function PostCategory(db: StockDb, b: CategoryBody): (r: (StockDb, Answer<CategoryRow>))
    ensures r.1 == Json(201, Stored(db.nextCategoryId, b))
    ensures r.0.categories == db.categories + [Stored(db.nextCategoryId, b)]
    ensures r.0.nextCategoryId == db.nextCategoryId + 1
    ensures r.0.items == db.items && r.0.operations == db.operations
    ensures KeysBelowCounters(db) ==> KeysBelowCounters(r.0)
  {
    var row := Stored(db.nextCategoryId, b);
    (db.(categories := db.categories + [row], nextCategoryId := db.nextCategoryId + 1), Json(201, row))
  }

  /** `PUT /:id`: overwrites all five columns of the rows with that key
      with the same defaulting, and answers the re-read row (`None` when
      there is none). */
  function PutCategory(db: StockDb, id: int, b: CategoryBody): (r: (StockDb, Answer<Option<CategoryRow>>))
    ensures |r.0.categories| == |db.categories|
    ensures forall k :: 0 <= k < |db.categories| ==>
      r.0.categories[k] == if db.categories[k].id == id then Stored(id, b) else db.categories[k]
    ensures r.0.items == db.items && r.0.operations == db.operations
    ensures r.1.Json? && r.1.status == 200
    ensures r.1.value.None? <==> forall k :: 0 <= k < |db.categories| ==> db.categories[k].id != id
    ensures r.1.value.Some? ==> r.1.value.value == Stored(id, b)
  {
    var cats := seq(|db.categories|, k requires 0 <= k < |db.categories| =>
      if db.categories[k].id == id then Stored(id, b) else db.categories[k]);
    assert forall k :: 0 <= k < |cats| ==> (cats[k].id == id <==> db.categories[k].id == id);
    var found := match FindIndex(cats, (c: CategoryRow) => c.id == id)
                 case None => None
                 case Some(k) => Some(cats[k]);
    (db.(categories := cats), Json(200, found))
  }

  /** `DELETE /:id`: first every item of the category, then the category;
      answers success either way. */
  function DeleteCategory(db: StockDb, id: int): (r: (StockDb, Answer<bool>))
    ensures r.1 == Json(200, true)
    ensures forall it :: it in r.0.items <==> it in db.items && it.categoryId != Some(id)
    ensures forall c :: c in r.0.categories <==> c in db.categories && c.id != id
    ensures SubseqOf(r.0.items, db.items) && SubseqOf(r.0.categories, db.categories)
    ensures Count(r.0.items, InCategory(id)) == 0
    ensures r.0.operations == db.operations
  {
    var items := Filter(db.items, (it: ItemRow) => it.categoryId != Some(id));
    var cats := Filter(db.categories, (c: CategoryRow) => c.id != id);
    (db.(items := items, categories := cats), Json(200, true))
  }

  /** Deleting one category leaves every other category's `itemCount` as it
      was. */
  lemma DeleteCategoryKeepsOtherCounts(db: StockDb, id: int, other: int)
    requires other != id
    ensures Count(DeleteCategory(db, id).0.items, InCategory(other)) == Count(db.items, InCategory(other))
  {
    FilterKeepsOthers(db.items, id, other);
  }

  lemma {:induction false} FilterKeepsOthers(items: seq<ItemRow>, id: int, other: int)
    requires other != id
    ensures Filter(Filter(items, (it: ItemRow) => it.categoryId != Some(id)), InCategory(other))
         == Filter(items, InCategory(other))
  {
    if |items| > 0 {
      FilterKeepsOthers(items[1..], id, other);
    }
  }
}
