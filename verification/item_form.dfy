/** The item form check that `js/catalog.js` and `js/main.js` share word
    for word (`validateForm` and the `getFieldLabel` fallback), over a form
    read as a map from input id to value.  Both pages also submit forms
    whose inputs carry other ids; `FieldsValidator` is the same check over a
    chosen set of ids. */
module ItemForm {
  import opened Common

  /** `getFormData(selector)`: input id to value. */
  type Form = map<string, string>

  /** The label table of a page. */
  type Labels = map<string, string>

  const RequiredFields: seq<string> := ["itemName", "itemCategory", "itemPrice", "itemQuantity"]

  const NegativePrice := "Цена не может быть отрицательной"
  const NegativeQuantity := "Количество не может быть отрицательным"

  /** `Поле "<label>" обязательно для заполнения`. */
  function RequiredMessage(caption: string): string
  {
    "Поле \"" + caption + "\" обязательно для заполнения"
  }

  /** `!formData[field] || formData[field].trim() === ''` fails. */
  predicate Filled(env: Env, f: Form, name: string)
  {
    name in f && Trim(env, f[name]) != ""
  }

  /** Every id of `names` is filled in. */
  predicate AllFilled(env: Env, f: Form, names: seq<string>)
  {
    forall k :: 0 <= k < |names| ==> Filled(env, f, names[k])
  }

  /** The first id of `names` that is not filled in. */
  function FirstBlank(env: Env, f: Form, names: seq<string>): (r: Option<nat>)
    ensures r.None? <==> AllFilled(env, f, names)
    ensures r.Some? ==> r.value < |names| && !Filled(env, f, names[r.value])
    ensures r.Some? ==> forall k :: 0 <= k < r.value ==> Filled(env, f, names[k])
  {
    FindIndex(names, (n: string) => !Filled(env, f, n))
  }

  /** `parseFloat(v) < 0`: NaN is not negative. */
  predicate NegativeReal(env: Env, v: string)
  {
    env.parseFloat(v).Some? && env.parseFloat(v).value < 0.0
  }

  /** `parseInt(v) < 0`. */
  predicate NegativeInt(env: Env, v: string)
  {
    env.parseInt(v).Some? && env.parseInt(v).value < 0
  }

  /** The check over the required ids `names` and the price and quantity
      ids `price` and `quantity`: the first blank field is reported, then a
      negative price, then a negative quantity. */
  function FieldsValidator(env: Env, labels: Labels, f: Form, names: seq<string>, price: string, quantity: string)
    : (r: Result<(), string>)
    ensures r.Ok? <==>
      && AllFilled(env, f, names)
      && !(price in f && f[price] != "" && NegativeReal(env, f[price]))
      && !(quantity in f && f[quantity] != "" && NegativeInt(env, f[quantity]))
    ensures FirstBlank(env, f, names).Some? ==>
      r == Err(RequiredMessage(LabelOf(labels, names[FirstBlank(env, f, names).value])))
  {
    match FirstBlank(env, f, names)
    case Some(k) => Err(RequiredMessage(LabelOf(labels, names[k])))
    case None =>
      if price in f && f[price] != "" && NegativeReal(env, f[price]) then Err(NegativePrice)
      else if quantity in f && f[quantity] != "" && NegativeInt(env, f[quantity]) then Err(NegativeQuantity)
      else Ok(())
  }

  /** The four `item*` inputs are filled in. */
  predicate ItemFieldsFilled(env: Env, f: Form)
  {
    Filled(env, f, "itemName") && Filled(env, f, "itemCategory")
    && Filled(env, f, "itemPrice") && Filled(env, f, "itemQuantity")
  }

  lemma RequiredFieldsFilled(env: Env, f: Form)
    ensures AllFilled(env, f, RequiredFields) <==> ItemFieldsFilled(env, f)
  {
    var names := RequiredFields;
    assert |names| == 4 && names[0] == "itemName" && names[1] == "itemCategory";
    assert names[2] == "itemPrice" && names[3] == "itemQuantity";
    if AllFilled(env, f, names) {
      assert Filled(env, f, names[0]) && Filled(env, f, names[1]);
      assert Filled(env, f, names[2]) && Filled(env, f, names[3]);
    }
    if ItemFieldsFilled(env, f) {
      forall k | 0 <= k < |names| ensures Filled(env, f, names[k]) {
        assert k == 0 || k == 1 || k == 2 || k == 3;
      }
    }
  }

  /** `validateForm(formData)` as both pages write it: always over the
      `item*` ids, whatever ids the submitted form has. */
  function ValidateForm(env: Env, labels: Labels, f: Form): (r: Result<(), string>)
    ensures r.Ok? <==>
      ItemFieldsFilled(env, f) && !NegativeReal(env, f["itemPrice"]) && !NegativeInt(env, f["itemQuantity"])
    ensures !Filled(env, f, "itemName") ==> r == Err(RequiredMessage(LabelOf(labels, "itemName")))
  {
    RequiredFieldsFilled(env, f);
    assert !Filled(env, f, "itemName") ==> FirstBlank(env, f, RequiredFields) == Some(0) by {
      if !Filled(env, f, "itemName") {
        assert !Filled(env, f, RequiredFields[0]);
      }
    }
    FieldsValidator(env, labels, f, RequiredFields, "itemPrice", "itemQuantity")
  }

  /** A form that lacks any required `item*` id is turned away, whatever
      else it holds. */
  lemma MissingItemFieldRejected(env: Env, labels: Labels, f: Form, k: nat)
    requires k < |RequiredFields| && RequiredFields[k] !in f
    ensures ValidateForm(env, labels, f).Err?
  {
    RequiredFieldsFilled(env, f);
    assert !Filled(env, f, RequiredFields[k]);
  }
}
