/** `js/categories.js`: the administrator's category page — the add and
    edit forms with their name checks, the replacement of the edited entry,
    the confirmed delete and the counters above the table. */
module ClientCategories {
  import opened Common

  /** A category as the page lists it. */
  datatype CategoryEntry = CategoryEntry(
    id: string,
    name: string,
    description: string,
    icon: string,
    color: string,
    active: bool,
    itemCount: int)

  /** `getAddFormData()` / `getEditFormData()`. */
  datatype CategoryForm = CategoryForm(
    name: string, description: string, icon: string, color: string, active: bool)

  const DefaultIcon := "fas fa-tag"
  const EnterName := "Введите название категории"
  const NameTaken := "Категория с таким названием уже существует"
  const NoneSelected := "Категория не выбрана"
  const NotFound := "Категория не найдена"
  const UpdateFailed := "Ошибка при обновлении категории"

  // ---------------------------------------------------------------------
  // Forms

  /** The form as read: name, description and icon trimmed, a blank icon
      replaced by 'fas fa-tag', colour and check box as they are. */
  function ReadForm(env: Env, name: string, description: string, icon: string, color: string, active: bool)
    : (f: CategoryForm)
    ensures f.name == Trim(env, name) && f.description == Trim(env, description)
    ensures Trim(env, icon) == "" ==> f.icon == DefaultIcon
    ensures Trim(env, icon) != "" ==> f.icon == Trim(env, icon)
    ensures f.color == color && f.active == active
  {
    var i := Trim(env, icon);
    CategoryForm(Trim(env, name), Trim(env, description), if i == "" then DefaultIcon else i, color, active)
  }

  /** `fillEditForm(category)`: a missing icon shows as 'fas fa-tag', a
      missing colour as '#2c5aa0'. */
  function FillEditForm(c: CategoryEntry): (fields: (string, string, string, string, bool))
  {
    (c.name, c.description, if c.icon == "" then DefaultIcon else c.icon,
     if c.color == "" then "#2c5aa0" else c.color, c.active)
  }

  /** The icon read from the form is never blank, and saving the edit form
      untouched gives back the category's own fields when they carry no
      surrounding white space. */
  lemma EditFormRoundTrip(env: Env, c: CategoryEntry)
    requires Trim(env, c.name) == c.name && Trim(env, c.description) == c.description
    requires Trim(env, c.icon) == c.icon && c.color != ""
    requires !env.isSpace('f') && !env.isSpace('g')
    ensures var t := FillEditForm(c);
      ReadForm(env, t.0, t.1, t.2, t.3, t.4) == CategoryForm(c.name, c.description,
                                                            if c.icon == "" then DefaultIcon else c.icon, c.color, c.active)
    ensures var t := FillEditForm(c);
      ReadForm(env, t.0, t.1, t.2, t.3, t.4).icon != ""
  {
    if c.icon == "" {
      TrimKeepsInner(env, DefaultIcon);
      assert FillEditForm(c) == (c.name, c.description, DefaultIcon, c.color, c.active);
      ReadTrimmedForm(env, c.name, c.description, DefaultIcon, c.color, c.active);
    } else {
      assert FillEditForm(c) == (c.name, c.description, c.icon, c.color, c.active);
      ReadTrimmedForm(env, c.name, c.description, c.icon, c.color, c.active);
    }
  }

  /** Reading back fields that carry no surrounding white space, with an
      icon that is not blank, changes nothing. */
  lemma ReadTrimmedForm(env: Env, name: string, description: string, icon: string, color: string, active: bool)
    requires Trim(env, name) == name && Trim(env, description) == description
    requires Trim(env, icon) == icon && icon != ""
    ensures ReadForm(env, name, description, icon, color, active) == CategoryForm(name, description, icon, color, active)
  {
  }

  // ---------------------------------------------------------------------
  // Names

  /** Some entry other than the one with id `except` has this name, case
      ignored. */
  predicate NameHeld(env: Env, cats: seq<CategoryEntry>, name: string, except: Option<string>)
  {
    exists k :: 0 <= k < |cats| && (except.None? || cats[k].id != except.value)
                && Lower(env, cats[k].name) == Lower(env, name)
  }

  /** No two entries share a name, case ignored. */
  predicate UniqueNames(env: Env, cats: seq<CategoryEntry>)
  {
    forall i, j :: 0 <= i < j < |cats| ==> Lower(env, cats[i].name) != Lower(env, cats[j].name)
  }

  /** No two entries share an id. */
  predicate UniqueIds(cats: seq<CategoryEntry>)
  {
    forall i, j :: 0 <= i < j < |cats| ==> cats[i].id != cats[j].id
  }

  /** `this.categories.find(...)` on the lower-cased names. */
  function FindHolder(env: Env, cats: seq<CategoryEntry>, name: string, except: Option<string>): (r: Option<nat>)
    ensures r.None? <==> !NameHeld(env, cats, name, except)
  {
    FindIndex(cats, (c: CategoryEntry) => (except.None? || c.id != except.value) && Lower(env, c.name) == Lower(env, name))
  }

  /** Some entry has this id. */
  predicate HasId(cats: seq<CategoryEntry>, id: string)
  {
    exists k :: 0 <= k < |cats| && cats[k].id == id
  }

  /** `this.categories.findIndex(c => c.id === id)`: the first entry with
      that id, if any. */
  function IndexOfId(cats: seq<CategoryEntry>, id: string): (r: Option<nat>)
    ensures r.None? <==> !HasId(cats, id)
    ensures r.Some? ==> r.value < |cats| && cats[r.value].id == id
    ensures r.Some? ==> forall k :: 0 <= k < r.value ==> cats[k].id != id
  {
    FindIndex(cats, (c: CategoryEntry) => c.id == id)
  }

  // ---------------------------------------------------------------------
  // Add, update, delete

  /** `addCategory()`: a blank name and a name already in use are refused;
      otherwise the store's new entry (id `newId`, no items) is appended. */
  function AddCategory(env: Env, cats: seq<CategoryEntry>, f: CategoryForm, newId: string)
    : (r: Result<seq<CategoryEntry>, string>)
    ensures Trim(env, f.name) == "" ==> r == Err(EnterName)
    ensures Trim(env, f.name) != "" && NameHeld(env, cats, f.name, None) ==> r == Err(NameTaken)
    ensures r.Ok? <==> Trim(env, f.name) != "" && !NameHeld(env, cats, f.name, None)
    ensures r.Ok? ==> |r.value| == |cats| + 1 && r.value[..|cats|] == cats
    ensures r.Ok? ==> r.value[|cats|] == CategoryEntry(newId, f.name, f.description, f.icon, f.color, f.active, 0)
  {
    if Trim(env, f.name) == "" then Err(EnterName)
    else if FindHolder(env, cats, f.name, None).Some? then Err(NameTaken)
    else Ok(cats + [CategoryEntry(newId, f.name, f.description, f.icon, f.color, f.active, 0)])
  }

  /** An accepted addition keeps names unique. */
  lemma AddKeepsNamesUnique(env: Env, cats: seq<CategoryEntry>, f: CategoryForm, newId: string)
    requires UniqueNames(env, cats)
    requires AddCategory(env, cats, f, newId).Ok?
    ensures UniqueNames(env, AddCategory(env, cats, f, newId).value)
  {
    var r := AddCategory(env, cats, f, newId).value;
    forall i, j | 0 <= i < j < |r| ensures Lower(env, r[i].name) != Lower(env, r[j].name) {
      if j == |cats| {
        assert r[i] == cats[i];
      } else {
        assert r[i] == cats[i] && r[j] == cats[j];
      }
    }
  }

  /** `addCategory()` while the page's list is the store's own array.
      Both branches of `getCategories` return that array, and only a
      later call that reaches the server replaces it; so the two stay one
      array whenever the second call on loading (the dropdown's) did not
      reach the server. The store appends the new entry to that array and
      the page then appends the same entry to it again. */
  function AddCategoryShared(env: Env, cats: seq<CategoryEntry>, f: CategoryForm, newId: string)
    : (r: Result<seq<CategoryEntry>, string>)
    ensures r.Err? <==> AddCategory(env, cats, f, newId).Err?
    ensures r.Err? ==> r == AddCategory(env, cats, f, newId)
    ensures r.Ok? ==> |r.value| == |cats| + 2
    ensures r.Ok? ==> r.value[..|cats| + 1] == AddCategory(env, cats, f, newId).value
    ensures r.Ok? ==> r.value[|cats| + 1] == r.value[|cats|]
  {
    match AddCategory(env, cats, f, newId)
    case Err(m) => Err(m)
    case Ok(added) => Ok(added + [added[|cats|]])
  }

  /** On the shared array an accepted addition lists the new category
      twice under one name. */
  lemma SharedAddRepeatsEntry(env: Env, cats: seq<CategoryEntry>, f: CategoryForm, newId: string)
    requires AddCategory(env, cats, f, newId).Ok?
    ensures !UniqueNames(env, AddCategoryShared(env, cats, f, newId).value)
  {
    var r := AddCategoryShared(env, cats, f, newId).value;
    assert Lower(env, r[|cats|].name) == Lower(env, r[|cats| + 1].name);
  }

  /** On the shared array an accepted addition makes the page's total and empty counts rise by two. */
  lemma SharedAddCountsTwice(env: Env, cats: seq<CategoryEntry>, f: CategoryForm, newId: string)
    requires AddCategory(env, cats, f, newId).Ok?
    ensures var before := UpdateStatistics(cats);
      var after := UpdateStatistics(AddCategoryShared(env, cats, f, newId).value);
      after.total == before.total + 2 && after.empty == before.empty + 2
  {
    var r := AddCategoryShared(env, cats, f, newId).value;
    var e := CategoryEntry(newId, f.name, f.description, f.icon, f.color, f.active, 0);
    assert r == (cats + [e]) + [e];
    FilterAppend(cats, [e], IsEmpty);
    FilterAppend(cats + [e], [e], IsEmpty);
  }

  /** `updateCategory()`: refused without a selected category, with a
      blank name, or with a name another category holds; the store then
      merges the form into its entry (failing when it has none), and the
      page replaces its entry with that id by the merged one. */
  function UpdateCategory(env: Env, cats: seq<CategoryEntry>, current: Option<CategoryEntry>, f: CategoryForm)
    : (r: Result<seq<CategoryEntry>, string>)
    ensures current.None? ==> r == Err(NoneSelected)
    ensures current.Some? && Trim(env, f.name) == "" ==> r == Err(EnterName)
    ensures r.Ok? <==>
      current.Some? && Trim(env, f.name) != "" && !NameHeld(env, cats, f.name, Some(current.value.id))
      && HasId(cats, current.value.id)
    ensures r.Ok? ==> |r.value| == |cats|
    ensures r.Ok? ==> forall k :: 0 <= k < |cats| ==>
      r.value[k] == if IndexOfId(cats, current.value.id) == Some(k) then Merge(cats[k], f) else cats[k]
  {
    if current.None? then Err(NoneSelected)
    else if Trim(env, f.name) == "" then Err(EnterName)
    else if FindHolder(env, cats, f.name, Some(current.value.id)).Some? then Err(NameTaken)
    else StoreUpdate(cats, current.value.id, f)
  }

  /** The store's `updateCategory(id, data)`: merges the form into the
      first entry with that id, and fails when there is none. */
  function StoreUpdate(cats: seq<CategoryEntry>, id: string, f: CategoryForm)
    : (r: Result<seq<CategoryEntry>, string>)
    ensures r.Ok? <==> HasId(cats, id)
    ensures r.Err? ==> r == Err(UpdateFailed)
    ensures r.Ok? ==> |r.value| == |cats|
    ensures r.Ok? ==> forall k :: 0 <= k < |cats| ==>
      r.value[k] == if IndexOfId(cats, id) == Some(k) then Merge(cats[k], f) else cats[k]
  {
    match IndexOfId(cats, id)
    case None => Err(UpdateFailed)
    case Some(k) => Ok(cats[k := Merge(cats[k], f)])
  }

  /** `{...category, ...formData}`: the form's five fields over the entry;
      id and item count stay. */
  function Merge(c: CategoryEntry, f: CategoryForm): (r: CategoryEntry)
    ensures r.id == c.id && r.itemCount == c.itemCount
  {
    CategoryEntry(c.id, f.name, f.description, f.icon, f.color, f.active, c.itemCount)
  }

  /** An accepted update keeps ids and names unique, changes only the
      edited entry, and leaves it with the new name. */
  lemma UpdateKeepsNamesUnique(env: Env, cats: seq<CategoryEntry>, current: CategoryEntry, f: CategoryForm)
    requires UniqueIds(cats) && UniqueNames(env, cats)
    requires UpdateCategory(env, cats, Some(current), f).Ok?
    ensures var r := UpdateCategory(env, cats, Some(current), f).value;
      UniqueIds(r) && UniqueNames(env, r)
      && exists k :: 0 <= k < |r| && r[k].id == current.id && r[k].name == f.name
  {
    var k :| 0 <= k < |cats| && cats[k].id == current.id;
    assert IndexOfId(cats, current.id) == Some(k);
    var e := Merge(cats[k], f);
    assert !NameHeld(env, cats, f.name, Some(current.id));
    forall j | 0 <= j < |cats| && j != k
      ensures Lower(env, cats[j].name) != Lower(env, e.name)
    {
      assert cats[j].id != current.id;
    }
    ReplaceKeepsUnique(env, cats, k, e);
    assert UpdateCategory(env, cats, Some(current), f).value[k] == e;
  }

  /** Replacing one entry by one with the same id and a name no other
      entry holds keeps ids and names unique. */
  lemma ReplaceKeepsUnique(env: Env, cats: seq<CategoryEntry>, k: nat, e: CategoryEntry)
    requires UniqueIds(cats) && UniqueNames(env, cats)
    requires k < |cats| && e.id == cats[k].id
    requires forall j :: 0 <= j < |cats| && j != k ==> Lower(env, cats[j].name) != Lower(env, e.name)
    ensures UniqueIds(cats[k := e]) && UniqueNames(env, cats[k := e])
  {
    var r := cats[k := e];
    forall i, j | 0 <= i < j < |r|
      ensures Lower(env, r[i].name) != Lower(env, r[j].name) && r[i].id != r[j].id
    {
      if i == k {
        assert r[j] == cats[j];
      } else if j == k {
        assert r[i] == cats[i];
      } else {
        assert r[i] == cats[i] && r[j] == cats[j];
      }
    }
  }

  /** `deleteCategory(id)`: an unknown id is reported and changes nothing,
      a refused confirmation changes nothing, and a confirmed delete drops
      every entry with that id. */
  function DeleteCategory(cats: seq<CategoryEntry>, id: string, confirmed: bool)
    : (r: Result<seq<CategoryEntry>, string>)
    ensures !HasId(cats, id) ==> r == Err(NotFound)
    ensures HasId(cats, id) && !confirmed ==> r == Ok(cats)
    ensures r.Ok? ==> SubseqOf(r.value, cats)
    ensures r.Ok? && confirmed ==> forall c :: c in r.value <==> c in cats && c.id != id
  {
    match IndexOfId(cats, id)
    case None => Err(NotFound)
    case Some(_) =>
      if !confirmed then SubseqRefl(cats); Ok(cats)
      else Ok(Filter(cats, (c: CategoryEntry) => c.id != id))
  }

  /** With unique ids a confirmed delete removes exactly one entry and the
      id is gone afterwards. */
  lemma DeleteRemovesOne(cats: seq<CategoryEntry>, id: string, k: nat)
    requires UniqueIds(cats) && k < |cats| && cats[k].id == id
    ensures var r := DeleteCategory(cats, id, true);
      r.Ok? && |r.value| == |cats| - 1 && forall j :: 0 <= j < |r.value| ==> r.value[j].id != id
  {
    var p := (c: CategoryEntry) => c.id != id;
    assert forall i :: 0 <= i < |cats| && i != k ==> p(cats[i]);
    FilterDropsOne(cats, k, p);
  }

  // ---------------------------------------------------------------------
  // Counters

  datatype CategoryStats = CategoryStats(total: nat, active: nat, empty: nat)

  function IsActive(c: CategoryEntry): bool { c.active }
  function IsEmpty(c: CategoryEntry): bool { c.itemCount == 0 }

  /** `updateStatistics()`: all, active and empty categories. */
  function UpdateStatistics(cats: seq<CategoryEntry>): (r: CategoryStats)
    ensures r.total == |cats|
    ensures r.active <= r.total && r.empty <= r.total
    ensures r.active == 0 <==> forall c :: c in cats ==> !c.active
    ensures r.empty == 0 <==> forall c :: c in cats ==> c.itemCount != 0
  {
    CategoryStats(|cats|, Count(cats, IsActive), Count(cats, IsEmpty))
  }

  /** A new category counts as one more category and one more empty one,
      and as one more active one exactly when its box was checked. */
  lemma AddCountsNewCategory(env: Env, cats: seq<CategoryEntry>, f: CategoryForm, newId: string)
    requires AddCategory(env, cats, f, newId).Ok?
    ensures var before := UpdateStatistics(cats);
      var after := UpdateStatistics(AddCategory(env, cats, f, newId).value);
      after.total == before.total + 1 && after.empty == before.empty + 1
      && after.active == before.active + (if f.active then 1 else 0)
  {
    var e := CategoryEntry(newId, f.name, f.description, f.icon, f.color, f.active, 0);
    FilterAppend(cats, [e], IsActive);
    FilterAppend(cats, [e], IsEmpty);
  }
}
