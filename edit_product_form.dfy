/**
 * The edit-product modal: a form loaded from the product being edited, number inputs
 * coerced with `parseInt(v) || 0`, and a submit that checks the name, the quantity and the
 * minimum stock in that order before handing the page a full patch.
 */
module EditProductForm {
  import opened Wrappers
  import opened JsText
  import opened Stock

  /** The form state; the counts are numbers already. */
  datatype EditForm = EditForm(name: string, category: string, quantity: int, minStock: int, unit: string)

  const BlankEditForm: EditForm := EditForm("", "", 0, 0, "")

  datatype TextField = NameText | CategoryText | UnitText
  datatype CountField = QuantityCount | MinStockCount

  /** The form the effect loads for a product. */
  function FormOf(p: Product): (f: EditForm)
    ensures f.name == p.name && f.category == p.category && f.unit == p.unit
    ensures f.quantity == p.quantity && f.minStock == p.minStock
  {
    EditForm(p.name, p.category, p.quantity, p.minStock, p.unit)
  }

  /** The patch a valid submit sends: every field, with the name trimmed. */
  function PatchOf(f: EditForm): (patch: ProductPatch)
    ensures patch.name == Some(Trim(f.name)) && patch.category == Some(f.category) && patch.unit == Some(f.unit)
    ensures patch.quantity == Some(f.quantity) && patch.minStock == Some(f.minStock)
  {
    ProductPatch(Some(Trim(f.name)), Some(f.category), Some(f.quantity), Some(f.minStock), Some(f.unit))
  }

  /** What a submit does: nothing without a product, an alert for the first failing check,
      or an update of the product's id with the form's patch. */
  datatype EditOutcome = NoProduct | Alerted(messageKey: string) | Updated(id: string, patch: ProductPatch)

  const NameRequiredKey: string := "validation.nameRequired"
  const QuantityPositiveKey: string := "validation.quantityPositive"
  const MinStockPositiveKey: string := "validation.minStockPositive"

  /** `handleSubmit`'s early returns, in their order. */
  function Submission(product: Option<Product>, f: EditForm): (r: EditOutcome)
    ensures product.None? ==> r == NoProduct
    ensures product.Some? && Trim(f.name) == "" ==> r == Alerted(NameRequiredKey)
    ensures product.Some? && Trim(f.name) != "" && f.quantity < 0 ==> r == Alerted(QuantityPositiveKey)
    ensures product.Some? && Trim(f.name) != "" && f.quantity >= 0 && f.minStock < 0 ==> r == Alerted(MinStockPositiveKey)
    ensures r.Updated? <==> product.Some? && Trim(f.name) != "" && f.quantity >= 0 && f.minStock >= 0
    ensures r.Updated? ==> r.id == product.value.id && r.patch == PatchOf(f)
  {
    if product.None? then NoProduct
    else if Trim(f.name) == "" then Alerted(NameRequiredKey)
    else if f.quantity < 0 then Alerted(QuantityPositiveKey)
    else if f.minStock < 0 then Alerted(MinStockPositiveKey)
    else Updated(product.value.id, PatchOf(f))
  }

  /** Editing nothing and saving gives back the product with the name trimmed, a new date
      and nothing else changed. */
  lemma {:induction false} SaveUnchangedForm(p: Product, today: string)
    requires Trim(p.name) != "" && p.quantity >= 0 && p.minStock >= 0
    ensures Submission(Some(p), FormOf(p)).Updated?
    ensures MergePatch(p, Submission(Some(p), FormOf(p)).patch, today) == p.(name := Trim(p.name), lastUpdated := today)
  {
    MergeFullPatch(p, p.(name := Trim(p.name)), today);
  }

  /** A submitted patch never holds a blank name or a negative count. */
  lemma UpdatedPatchValid(product: Option<Product>, f: EditForm)
    requires Submission(product, f).Updated?
    ensures var patch := Submission(product, f).patch;
            patch.name.Some? && patch.name.value != "" && Trim(patch.name.value) == patch.name.value &&
            patch.quantity.Some? && patch.quantity.value >= 0 &&
            patch.minStock.Some? && patch.minStock.value >= 0
  {
    assert Trim(f.name) != "" && f.quantity >= 0 && f.minStock >= 0;
    assert Submission(product, f).patch == PatchOf(f);
    var name := Trim(f.name);
    TrimIdempotent(f.name);
    assert Trim(name) == name;
  }

  /** The number inputs store `parseInt(v) || 0`: non-numbers become 0, a negative number
      is kept for the submit check to reject. */
  function CoerceCount(typed: string): (n: int)
    ensures ParseInt(typed).None? ==> n == 0
    ensures ParseInt(typed).Some? ==> n == ParseInt(typed).value
  {
    OrZero(ParseInt(typed))
  }

  /** A number the input shows reads back as itself. */
  lemma CoerceCountOfShown(n: int)
    ensures CoerceCount(IntToString(n)) == n
  {
    ParseIntOfIntToString(n);
  }

  class EditProductModal {
    var form: EditForm

    constructor ()
      ensures form == BlankEditForm
    {
      form := BlankEditForm;
    }

    /** The effect on `product`: a product replaces the whole form, `null` leaves it. */
    method LoadProduct(product: Option<Product>)
      modifies this
      ensures product.Some? ==> form == FormOf(product.value)
      ensures product.None? ==> form == old(form)
    {
      if product.Some? {
        var p := product.value;
        form := EditForm(p.name, p.category, p.quantity, p.minStock, p.unit);
      }
    }

    /** `handleInputChange` from a text input or a select. */
    method SetTextField(field: TextField, value: string)
      modifies this
      ensures field == NameText ==> form == old(form).(name := value)
      ensures field == CategoryText ==> form == old(form).(category := value)
      ensures field == UnitText ==> form == old(form).(unit := value)
    {
      match field
      case NameText => form := form.(name := value);
      case CategoryText => form := form.(category := value);
      case UnitText => form := form.(unit := value);
    }

    /** `handleInputChange` from a number input, after its coercion. */
    method SetCountField(field: CountField, typed: string)
      modifies this
      ensures field == QuantityCount ==> form == old(form).(quantity := CoerceCount(typed))
      ensures field == MinStockCount ==> form == old(form).(minStock := CoerceCount(typed))
    {
      var n := OrZero(ParseInt(typed));
      if field == QuantityCount {
        form := form.(quantity := n);
      } else {
        form := form.(minStock := n);
      }
    }

    /** `handleSubmit`; `closes` is whether `onClose` runs. The form itself is not reset. */
    method HandleSubmit(product: Option<Product>) returns (outcome: EditOutcome, closes: bool)
      ensures outcome == Submission(product, form)
      ensures closes <==> outcome.Updated?
    {
      if product.None? {
        return NoProduct, false;
      }
      if Trim(form.name) == "" {
        return Alerted(NameRequiredKey), false;
      }
      if form.quantity < 0 {
        return Alerted(QuantityPositiveKey), false;
      }
      if form.minStock < 0 {
        return Alerted(MinStockPositiveKey), false;
      }
      var f := form;
      outcome := Updated(product.value.id, ProductPatch(Some(Trim(f.name)), Some(f.category), Some(f.quantity), Some(f.minStock), Some(f.unit)));
      closes := true;
    }
  }
}
