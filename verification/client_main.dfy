/** `js/main.js`: the dashboard's three dialogs — new item, incoming and
    outgoing — and the gate each one passes through before the warehouse
    is called.  All three gates are `validateForm`, which only knows the
    `item*` inputs. */
module ClientMain {
  import opened Common
  import opened ItemForm

  /** The dashboard's label table (`getFieldLabel`). */
  const MainLabels: Labels := map[
    "itemName" := "Название товара", "itemCategory" := "Категория",
    "itemPrice" := "Цена", "itemQuantity" := "Количество",
    "incomingItem" := "Товар", "incomingQuantity" := "Количество",
    "outgoingItem" := "Товар", "outgoingQuantity" := "Количество"]

  /** `getFieldLabel(fieldName)`. */
  function GetFieldLabel(name: string): (r: string)
    ensures name !in MainLabels ==> r == name
    ensures name in MainLabels ==> r == MainLabels[name] && r != name && r != ""
  {
    LabelOf(MainLabels, name)
  }

  /** What a dialog's submit handler does: stop with a warning, or call the
      warehouse with `request`. */
  datatype Submission<T> = Refused(message: string) | Sent(request: T)

  /** `addNewItem()`: the form goes to `addItem` as it is once
      `validateForm` passes. */
  function AddNewItem(env: Env, f: Form): (r: Submission<Form>)
    ensures r.Sent? <==>
      ItemFieldsFilled(env, f) && !NegativeReal(env, f["itemPrice"]) && !NegativeInt(env, f["itemQuantity"])
    ensures r.Sent? ==> r.request == f
    ensures !Filled(env, f, "itemName") ==> r == Refused(RequiredMessage("Название товара"))
  {
    match ValidateForm(env, MainLabels, f)
    case Err(m) => Refused(m)
    case Ok(_) => Sent(f)
  }

  /** The arguments `processIncoming` / `processOutgoing` read from the
      form: `parseInt` of the item and quantity inputs (None for NaN), and
      the supplier (incoming) or recipient (outgoing) and the notes, each
      `|| ''`. */
  datatype Movement = Movement(itemId: Option<int>, quantity: Option<int>, counterparty: string, notes: string)

  /** The two movement dialogs; `kind` is 'incoming' or 'outgoing' and
      prefixes every input id of its dialog. */
  predicate MovementKind(kind: string)
  {
    kind == "incoming" || kind == "outgoing"
  }

  function ItemId(kind: string): string { kind + "Item" }
  function QuantityId(kind: string): string { kind + "Quantity" }
  function CounterpartyId(kind: string): string { if kind == "incoming" then "incomingSupplier" else "outgoingRecipient" }
  function NotesId(kind: string): string { kind + "Notes" }

  /** `formData[id] || ''`. */
  function TextOr(f: Form, id: string): (r: string)
    ensures id in f ==> r == f[id]
    ensures id !in f ==> r == ""
  {
    if id in f then f[id] else ""
  }

  /** What the warehouse receives from a movement dialog. */
  function MovementOf(env: Env, kind: string, f: Form): (m: Movement)
    ensures ItemId(kind) !in f ==> m.itemId == env.parseInt("")
    ensures CounterpartyId(kind) in f ==> m.counterparty == f[CounterpartyId(kind)]
    ensures NotesId(kind) in f ==> m.notes == f[NotesId(kind)]
    ensures CounterpartyId(kind) !in f ==> m.counterparty == ""
    ensures NotesId(kind) !in f ==> m.notes == ""
  {
    Movement(env.parseInt(TextOr(f, ItemId(kind))), env.parseInt(TextOr(f, QuantityId(kind))),
             TextOr(f, CounterpartyId(kind)), TextOr(f, NotesId(kind)))
  }

  /** `processIncoming()` / `processOutgoing()` as written: the dialog is
      checked with `validateForm`, i.e. against the `item*` ids. */
  function SubmitMovement(env: Env, kind: string, f: Form): (r: Submission<Movement>)
    ensures r.Sent? <==>
      ItemFieldsFilled(env, f) && !NegativeReal(env, f["itemPrice"]) && !NegativeInt(env, f["itemQuantity"])
    ensures r.Sent? ==>
      r.request == Movement(env.parseInt(TextOr(f, ItemId(kind))), env.parseInt(TextOr(f, QuantityId(kind))),
                            TextOr(f, CounterpartyId(kind)), TextOr(f, NotesId(kind)))
    ensures !Filled(env, f, "itemName") ==> r == Refused(RequiredMessage("Название товара"))
  {
    match ValidateForm(env, MainLabels, f)
    case Err(m) => Refused(m)
    case Ok(_) => Sent(MovementOf(env, kind, f))
  }

  /** Every input of a movement dialog starts with the dialog's kind, so
      none of them is `itemName`: the handler always stops at the first
      required field and the warehouse is never called. */
  lemma MovementNeverSent(env: Env, kind: string, f: Form)
    requires MovementKind(kind)
    requires forall id :: id in f ==> HasPrefix(id, kind)
    ensures SubmitMovement(env, kind, f) == Refused(RequiredMessage("Название товара"))
  {
    assert !HasPrefix("itemName", kind) by {
      if kind == "incoming" {
        assert "itemName"[1] != kind[1];
      } else {
        assert "itemName"[0] != kind[0];
      }
    }
    assert !Filled(env, f, "itemName");
  }

  /** The movement dialog checked against its own ids, as its entries in
      the label table evidently intend: the item and quantity are required
      and the quantity may not be negative.  `getFormData` records only
      inputs with an id, so the empty id never occurs. */
  function ValidateMovement(env: Env, kind: string, f: Form): (r: Result<(), string>)
    requires "" !in f
    ensures r.Ok? <==>
      Filled(env, f, ItemId(kind)) && Filled(env, f, QuantityId(kind))
      && !NegativeInt(env, f[QuantityId(kind)])
    ensures !Filled(env, f, ItemId(kind)) ==> r == Err(RequiredMessage(LabelOf(MainLabels, ItemId(kind))))
  {
    var names := [ItemId(kind), QuantityId(kind)];
    var r := FieldsValidator(env, MainLabels, f, names, "", QuantityId(kind));
    assert AllFilled(env, f, names) <==> Filled(env, f, names[0]) && Filled(env, f, names[1]);
    assert !Filled(env, f, ItemId(kind)) ==> FirstBlank(env, f, names) == Some(0);
    r
  }

  /** The corrected handler: the dialog's own check, then the warehouse. */
  function SubmitMovementChecked(env: Env, kind: string, f: Form): (r: Submission<Movement>)
    requires "" !in f
    ensures r.Sent? <==>
      Filled(env, f, ItemId(kind)) && Filled(env, f, QuantityId(kind))
      && !NegativeInt(env, f[QuantityId(kind)])
    ensures r.Sent? ==>
      r.request == Movement(env.parseInt(TextOr(f, ItemId(kind))), env.parseInt(TextOr(f, QuantityId(kind))),
                            TextOr(f, CounterpartyId(kind)), TextOr(f, NotesId(kind)))
  {
    match ValidateMovement(env, kind, f)
    case Err(m) => Refused(m)
    case Ok(_) => Sent(MovementOf(env, kind, f))
  }

  /** A movement dialog with both inputs filled and a quantity that is not
      negative now reaches the warehouse with the parsed values and the
      dialog's counterparty and notes, with no `item*` input anywhere; one
      without an item is stopped with the item's label. */
  lemma CheckedMovementSent(env: Env, kind: string, f: Form)
    requires MovementKind(kind) && "" !in f
    ensures Filled(env, f, ItemId(kind)) && Filled(env, f, QuantityId(kind))
            && !NegativeInt(env, f[QuantityId(kind)]) ==>
      SubmitMovementChecked(env, kind, f)
        == Sent(Movement(env.parseInt(f[ItemId(kind)]), env.parseInt(f[QuantityId(kind)]),
                         TextOr(f, CounterpartyId(kind)), TextOr(f, NotesId(kind))))
    ensures !Filled(env, f, ItemId(kind)) ==> SubmitMovementChecked(env, kind, f) == Refused(RequiredMessage("Товар"))
  {
    if kind == "incoming" {
      assert ItemId(kind) == "incomingItem";
    } else {
      assert ItemId(kind) == "outgoingItem";
    }
    assert LabelOf(MainLabels, ItemId(kind)) == "Товар";
  }
}
