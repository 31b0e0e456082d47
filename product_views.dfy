/**
 * The per-view state and handlers shared by the card, list and table views (localized and
 * not): inline quantity editing, the edit-modal hand-off, delete confirmation, and the
 * localized category, status and unit labels.
 */
module ProductViews {
  import opened Wrappers
  import opened JsText
  import opened Stock
  import opened I18nConfig
  import opened Translation
  import opened UnitTranslation

  /** An `onUpdateQuantity(id, quantity)` call. */
  datatype QuantityUpdate = QuantityUpdate(id: string, quantity: int)

  /** `handleQuickUpdate`: the new quantity is the change applied, clamped at zero. */
  function HandleQuickUpdate(p: Product, change: int): (u: QuantityUpdate)
    ensures u.id == p.id
    ensures u.quantity >= 0
    ensures p.quantity + change >= 0 ==> u.quantity == p.quantity + change
    ensures p.quantity + change < 0 ==> u.quantity == 0
  {
    QuantityUpdate(p.id, QuickUpdateQuantity(p.quantity, change))
  }

  /** `handleDeleteProduct`: `onDeleteProduct` is called exactly when the user confirms. */
  function HandleDeleteProduct(p: Product, confirmed: bool): (deleted: Option<string>)
    ensures deleted.Some? <==> confirmed
    ensures deleted.Some? ==> deleted.value == p.id
  {
    if confirmed then Some(p.id) else None
  }

  /** The question the confirmation dialog asks: `t('modal.confirmDelete', { name })`. */
  function ConfirmDeleteText(c: Catalogs, l: Locale, p: Product): string {
    Translate(c, l, "modal.confirmDelete", Some(map["name" := p.name]))
  }

  /** A confirmation template `... {name} ...` names the product, whatever its name. */
  lemma ConfirmDeleteNamesProduct(template: string, p: Product, before: string, after: string)
    requires template == before + "{name}" + after
    requires '{' !in before && '{' !in after
    requires p.name != ""
    ensures Interpolate(template, map["name" := p.name]) == before + p.name + after
  {
    var ps := map["name" := p.name];
    var name := "name";
    assert "{name}" == "{" + name + "}";
    assert IsWordChar(name[0]) && IsWordChar(name[1]) && IsWordChar(name[2]) && IsWordChar(name[3]);
    assert template == before + "{" + name + "}" + after;
    InterpolateSingle(before, name, after, ps);
    assert Replacement(name, ps, "{" + name + "}") == p.name;
  }

  /** `getStatusText`: the translated badge for a known status, the status itself otherwise. */
  function StatusText(status: string, t: string -> string): (r: string)
    ensures status == "out" ==> r == t("stock.outOfStock")
    ensures status == "low" ==> r == t("stock.lowStock")
    ensures status == "good" ==> r == t("stock.goodStock")
    ensures status != "out" && status != "low" && status != "good" ==> r == status
  {
    if status == "out" then t("stock.outOfStock")
    else if status == "low" then t("stock.lowStock")
    else if status == "good" then t("stock.goodStock")
    else status
  }

  /** The card and dashboard category label: the translation of `categories.<category>`
      unless `t` hands the key back. */
  function CategoryLabel(category: string, t: string -> string): (r: string)
    ensures t("categories." + category) != "categories." + category ==> r == t("categories." + category)
    ensures t("categories." + category) == "categories." + category ==> r == category
  {
    var key := "categories." + category;
    if t(key) != key then t(key) else category
  }

  /** The list view's category key: lower-cased with all white space removed. */
  function NormalizeCategory(category: string): (r: string)
    ensures |r| <= |category|
    ensures forall i :: 0 <= i < |r| ==> !IsSpace(r[i]) && !('A' <= r[i] <= 'Z')
  {
    var lowered := ToLower(category);
    assert forall i :: 0 <= i < |lowered| ==> !('A' <= lowered[i] <= 'Z');
    RemoveSpacesKeeps(lowered);
    RemoveSpaces(lowered)
  }

  /** The key is built character by character: each character is lower-cased, and white
      space is dropped. */
  lemma NormalizeCategoryAppend(a: string, b: string)
    ensures NormalizeCategory(a + b) == NormalizeCategory(a) + NormalizeCategory(b)
  {
    ToLowerAppend(a, b);
    RemoveSpacesAppend(ToLower(a), ToLower(b));
  }

  lemma NormalizeCategoryChar(c: char)
    ensures NormalizeCategory([c]) == if IsSpace(c) then [] else [LowerChar(c)]
  {
    assert ToLower([c]) == [LowerChar(c)];
    RemoveSpacesChar(LowerChar(c));
  }

  /** Removing white space keeps only characters of the input. */
  lemma {:induction false} RemoveSpacesKeeps(s: string)
    ensures forall i :: 0 <= i < |RemoveSpaces(s)| ==> RemoveSpaces(s)[i] in s
  {
    if s != [] {
      RemoveSpacesKeeps(s[1..]);
      var r := RemoveSpaces(s);
      forall i | 0 <= i < |r|
        ensures r[i] in s
      {
        if !IsSpace(s[0]) {
          assert r == [s[0]] + RemoveSpaces(s[1..]);
          if i > 0 {
            assert r[i] == RemoveSpaces(s[1..])[i - 1];
          }
        }
      }
    }
  }

  /** Normalising a normalised category changes nothing, so `Dry Goods`, `dry goods` and
      `drygoods` all share one key. */
  lemma NormalizeCategoryIdempotent(category: string)
    ensures NormalizeCategory(NormalizeCategory(category)) == NormalizeCategory(category)
  {
    var n := NormalizeCategory(category);
    assert ToLower(n) == n;
    RemoveSpacesNoSpace(n);
  }

  /** The list view's category label. */
  function ListCategoryLabel(category: string, t: string -> string): (r: string)
    ensures t("categories." + NormalizeCategory(category)) != "categories." + NormalizeCategory(category)
            ==> r == t("categories." + NormalizeCategory(category))
    ensures t("categories." + NormalizeCategory(category)) == "categories." + NormalizeCategory(category)
            ==> r == category
  {
    var key := "categories." + NormalizeCategory(category);
    if t(key) != key then t(key) else category
  }

  /** Categories differing only by case and white space get the same list label text. */
  lemma ListCategoryKeyShared(a: string, b: string, t: string -> string)
    requires NormalizeCategory(a) == NormalizeCategory(b)
    requires t("categories." + NormalizeCategory(a)) != "categories." + NormalizeCategory(a)
    ensures ListCategoryLabel(a, t) == ListCategoryLabel(b, t)
  {
  }

  /** The localized card and list views' own unit label: `t('units.<unit>') || unit`. */
  function ViewUnitLabel(unit: string, t: string -> string): (r: string)
    ensures t(UnitKey(unit)) != "" ==> r == t(UnitKey(unit))
    ensures t(UnitKey(unit)) == "" ==> r == unit
  {
    if t(UnitKey(unit)) != "" then t(UnitKey(unit)) else unit
  }

  /** Under the provider's `t` an untranslated unit is shown as its key `units.<unit>`,
      where `translateUnit` shows the unit. */
  lemma ViewUnitLabelShowsKey(c: Catalogs, l: Locale, unit: string)
    requires ResolveText(c.For(l), UnitKey(unit)).None? && ResolveText(c.en, UnitKey(unit)).None?
    ensures ViewUnitLabel(unit, k => Translate(c, l, k, None)) == UnitKey(unit)
    ensures TranslateUnit(unit, k => Translate(c, l, k, None)) == unit
    ensures UnitKey(unit) != unit
  {
    assert |UnitKey(unit)| > |unit|;
  }

  /** The two unit labels agree wherever a non-empty translation that is not the key exists. */
  lemma ViewUnitLabelAgrees(unit: string, t: string -> string)
    requires t(UnitKey(unit)) != "" && t(UnitKey(unit)) != UnitKey(unit)
    ensures ViewUnitLabel(unit, t) == TranslateUnit(unit, t)
  {
  }

  /** The editing state one card or list view keeps. */
  class ProductViewState {
    var editingId: Option<string>
    var editValue: string
    var editingProduct: Option<Product>
    var showEditModal: bool

    constructor()
      ensures editingId == None && editValue == "" && editingProduct == None && !showEditModal
    {
      editingId := None;
      editValue := "";
      editingProduct := None;
      showEditModal := false;
    }

    /** Whether the inline editor is open on `p`. */
    predicate IsEditing(p: Product)
      reads this
    {
      editingId == Some(p.id)
    }

    /** `handleEditStart`: open the inline editor holding the current quantity. */
    method HandleEditStart(p: Product)
      modifies this
      ensures editingId == Some(p.id) && editValue == IntToString(p.quantity)
      ensures editingProduct == old(editingProduct) && showEditModal == old(showEditModal)
    {
      editingId := Some(p.id);
      editValue := IntToString(p.quantity);
    }

    /** The number input's `onChange`. */
    method SetEditValue(v: string)
      modifies this
      ensures editValue == v
      ensures editingId == old(editingId) && editingProduct == old(editingProduct)
      ensures showEditModal == old(showEditModal)
    {
      editValue := v;
    }

    /** `handleEditSave`: send the parsed, clamped quantity and close the editor; the field
        text itself is left as it was. */
    method HandleEditSave(productId: string) returns (u: QuantityUpdate)
      modifies this
      ensures u == QuantityUpdate(productId, EditSaveQuantity(old(editValue)))
      ensures u.quantity >= 0
      ensures editingId == None && editValue == old(editValue)
      ensures editingProduct == old(editingProduct) && showEditModal == old(showEditModal)
    {
      var parsed := OrZero(ParseInt(editValue));
      u := QuantityUpdate(productId, if parsed < 0 then 0 else parsed);
      editingId := None;
    }

    /** `handleEditCancel`: close the editor and clear the field. */
    method HandleEditCancel()
      modifies this
      ensures editingId == None && editValue == ""
      ensures editingProduct == old(editingProduct) && showEditModal == old(showEditModal)
    {
      editingId := None;
      editValue := "";
    }

    /** `handleEditProduct`: open the edit modal on `p`. */
    method HandleEditProduct(p: Product)
      modifies this
      ensures editingProduct == Some(p) && showEditModal
      ensures editingId == old(editingId) && editValue == old(editValue)
    {
      editingProduct := Some(p);
      showEditModal := true;
    }

    /** The modal's `onClose`. */
    method CloseEditModal()
      modifies this
      ensures editingProduct == None && !showEditModal
      ensures editingId == old(editingId) && editValue == old(editValue)
    {
      showEditModal := false;
      editingProduct := None;
    }
  }

  /** Starting an edit and saving it untouched sends the quantity back unchanged when it is
      not negative, and zero when it is. */
  lemma EditRoundTrip(p: Product)
    ensures EditSaveQuantity(IntToString(p.quantity)) == if p.quantity >= 0 then p.quantity else 0
  {
    ParseIntOfIntToString(p.quantity);
  }
}
