/**
 * The two add-product modals: the plain one with English messages and the localized one
 * that also fetches the category list and maps a category name to its id. Both keep the
 * typed text of the form, validate it on submit, and hand the page a `NewProduct`.
 */
module AddProductForm {
  import opened Wrappers
  import opened JsText
  import opened Stock
  import opened I18nConfig
  import opened Translation
  import opened ApiClient

  datatype FormField = Name | Category | Quantity | MinStock | Unit

  /** The form's text fields, as typed. */
  datatype FormData = FormData(name: string, category: string, quantity: string, minStock: string, unit: string)

  /** The state the form starts in and returns to after a submit. */
  const EmptyForm: FormData := FormData("", "", "", "", "kg")

  function FieldValue(f: FormData, field: FormField): string {
    match field
    case Name => f.name
    case Category => f.category
    case Quantity => f.quantity
    case MinStock => f.minStock
    case Unit => f.unit
  }

  /** `{ ...prev, [field]: value }` */
  function WithField(f: FormData, field: FormField, value: string): (r: FormData)
    ensures FieldValue(r, field) == value
    ensures forall other :: other != field ==> FieldValue(r, other) == FieldValue(f, other)
  {
    match field
    case Name => f.(name := value)
    case Category => f.(category := value)
    case Quantity => f.(quantity := value)
    case MinStock => f.(minStock := value)
    case Unit => f.(unit := value)
  }

  /** The four validation messages. */
  datatype ErrorTexts = ErrorTexts(name: string, category: string, quantity: string, minStock: string)

  const EnglishErrorTexts: ErrorTexts := ErrorTexts(
    "Product name is required", "Category is required",
    "Valid quantity is required", "Valid minimum stock is required")

  /** The localized modal's messages, from the translation function. */
  function LocalizedErrorTexts(c: Catalogs, l: Locale): ErrorTexts {
    ErrorTexts(
      Translate(c, l, "modal.productNameRequired", None),
      Translate(c, l, "modal.categoryRequired", None),
      Translate(c, l, "modal.validQuantityRequired", None),
      Translate(c, l, "modal.validMinStockRequired", None))
  }

  /** `!value || parseInt(value) < 0`: empty, or a negative number. Text that is not a
      number at all is not rejected. */
  predicate BadCount(value: string) {
    value == "" || (ParseInt(value).Some? && ParseInt(value).value < 0)
  }

  /** The errors a submit records: one per failing field, with that field's message. */
  function Validate(f: FormData, texts: ErrorTexts): (errs: map<FormField, string>)
    ensures Name in errs <==> Trim(f.name) == ""
    ensures Category in errs <==> f.category == ""
    ensures Quantity in errs <==> BadCount(f.quantity)
    ensures MinStock in errs <==> BadCount(f.minStock)
    ensures Unit !in errs
    ensures Name in errs ==> errs[Name] == texts.name
    ensures Category in errs ==> errs[Category] == texts.category
    ensures Quantity in errs ==> errs[Quantity] == texts.quantity
    ensures MinStock in errs ==> errs[MinStock] == texts.minStock
  {
    var e0: map<FormField, string> := map[];
    var e1 := if Trim(f.name) == "" then e0[Name := texts.name] else e0;
    var e2 := if f.category == "" then e1[Category := texts.category] else e1;
    var e3 := if BadCount(f.quantity) then e2[Quantity := texts.quantity] else e2;
    if BadCount(f.minStock) then e3[MinStock := texts.minStock] else e3
  }

  /** A form is submitted exactly when no field fails, whatever the messages say. */
  lemma ValidateEmptyIff(f: FormData, texts: ErrorTexts)
    ensures Validate(f, texts) == map[] <==>
              Trim(f.name) != "" && f.category != "" && !BadCount(f.quantity) && !BadCount(f.minStock)
  {
    if Trim(f.name) == "" {
      assert Name in Validate(f, texts);
    } else if f.category == "" {
      assert Category in Validate(f, texts);
    } else if BadCount(f.quantity) {
      assert Quantity in Validate(f, texts);
    } else if BadCount(f.minStock) {
      assert MinStock in Validate(f, texts);
    }
  }

  /** Text without any digit passes the count check and reaches the page as NaN. */
  lemma NonNumericCountAccepted(value: string)
    requires value != ""
    requires forall i :: 0 <= i < |value| ==> !('0' <= value[i] <= '9')
    ensures !BadCount(value) && ParseInt(value).None?
  {
    ParseIntNoDigit(value);
  }

  /** The mapping `forEach` builds: every name to the id of the last category with it. */
  function MappingOf(cats: seq<ApiCategory>): (m: map<string, string>)
    ensures forall i :: 0 <= i < |cats| ==> cats[i].name in m
    ensures forall n :: n in m ==> exists i :: 0 <= i < |cats| && cats[i].name == n
  {
    if cats == [] then map[]
    else
      var init := cats[..|cats| - 1];
      var last := cats[|cats| - 1];
      var m := MappingOf(init)[last.name := last.id];
      assert forall i :: 0 <= i < |init| ==> init[i] == cats[i];
      m
  }

  /** With duplicate names the last category wins. */
  lemma {:induction false} MappingLastWins(cats: seq<ApiCategory>, i: nat)
    requires i < |cats|
    requires forall j :: i < j < |cats| ==> cats[j].name != cats[i].name
    ensures MappingOf(cats)[cats[i].name] == cats[i].id
  {
    if i < |cats| - 1 {
      var init := cats[..|cats| - 1];
      assert init[i] == cats[i];
      MappingLastWins(init, i);
    }
  }

  /** The URL the localized modal fetches categories from; the host is `localhost` outside
      a browser. */
  function CategoriesUrl(hostname: Option<string>): (url: string)
    ensures hostname.None? ==> url == "http://localhost" + CategoriesPath
    ensures hostname.Some? ==> url == "http://" + hostname.value + CategoriesPath
  {
    "http://" + hostname.GetOr("localhost") + CategoriesPath
  }

  const CategoriesPath: string := ":3055/api/v1/categories"

  /** `categoryMapping[category] || categories[0]?.id` */
  function CategoryIdFor(category: string, mapping: map<string, string>, cats: seq<ApiCategory>): (r: Option<string>)
    ensures category in mapping && mapping[category] != "" ==> r == Some(mapping[category])
    ensures (category !in mapping || mapping[category] == "") && cats != [] ==> r == Some(cats[0].id)
    ensures (category !in mapping || mapping[category] == "") && cats == [] ==> r.None?
  {
    if category in mapping && mapping[category] != "" then Some(mapping[category])
    else if cats != [] then Some(cats[0].id)
    else None
  }

  /** What `onAdd` receives: the trimmed name, the parsed counts and, from the localized
      modal only, the category id. */
  function Payload(f: FormData, localized: bool, mapping: map<string, string>, cats: seq<ApiCategory>): (p: NewProduct)
    ensures p.name == Trim(f.name) && p.category == f.category && p.unit == f.unit
    ensures p.quantity == ParseInt(f.quantity) && p.minStock == ParseInt(f.minStock)
    ensures localized ==> p.categoryId == CategoryIdFor(f.category, mapping, cats)
    ensures !localized ==> p.categoryId.None?
  {
    NewProduct(
      Trim(f.name), f.category,
      if localized then CategoryIdFor(f.category, mapping, cats) else None,
      ParseInt(f.quantity), ParseInt(f.minStock), f.unit)
  }

  /** A submitted name is non-empty and has no surrounding white space, and the counts
      are never negative, though either may be NaN. */
  lemma PayloadWellFormed(f: FormData, texts: ErrorTexts, localized: bool, mapping: map<string, string>, cats: seq<ApiCategory>)
    requires Validate(f, texts) == map[]
    ensures Payload(f, localized, mapping, cats).name != ""
    ensures Trim(Payload(f, localized, mapping, cats).name) == Payload(f, localized, mapping, cats).name
    ensures Payload(f, localized, mapping, cats).category != ""
    ensures Payload(f, localized, mapping, cats).quantity.Some? ==> Payload(f, localized, mapping, cats).quantity.value >= 0
    ensures Payload(f, localized, mapping, cats).minStock.Some? ==> Payload(f, localized, mapping, cats).minStock.value >= 0
  {
    ValidateEmptyIff(f, texts);
    assert Trim(f.name) != "" && f.category != "" && !BadCount(f.quantity) && !BadCount(f.minStock);
    var p := Payload(f, localized, mapping, cats);
    assert p.name == Trim(f.name) && p.category == f.category;
    assert p.quantity == ParseInt(f.quantity) && p.minStock == ParseInt(f.minStock);
    TrimIdempotent(f.name);
  }

  /** What a submit leaves behind: the product handed to `onAdd`, if any, the recorded
      errors and the form. */
  datatype SubmitOutcome = SubmitOutcome(added: Option<NewProduct>, errors: map<FormField, string>, form: FormData)

  /** `handleSubmit` on a form: with errors they are recorded and nothing is sent;
      otherwise the payload goes out and the form and the errors are reset. */
  function Submit(f: FormData, texts: ErrorTexts, localized: bool, mapping: map<string, string>, cats: seq<ApiCategory>): (r: SubmitOutcome)
    ensures r.added.Some? <==> Validate(f, texts) == map[]
    ensures r.added.None? ==> r.errors == Validate(f, texts) && r.form == f
    ensures r.added.Some? ==> r.added.value == Payload(f, localized, mapping, cats)
    ensures r.added.Some? ==> r.form == EmptyForm && r.errors == map[]
  {
    var errs := Validate(f, texts);
    if errs != map[] then SubmitOutcome(None, errs, f)
    else SubmitOutcome(Some(Payload(f, localized, mapping, cats)), map[], EmptyForm)
  }

  /** A blank form, such as the one a successful submit leaves, is rejected with an error
      for the name, the category and both counts, so a second submit sends nothing. */
  lemma BlankFormRejected(f: FormData, texts: ErrorTexts, localized: bool, mapping: map<string, string>, cats: seq<ApiCategory>)
    requires f.name == "" && f.category == "" && f.quantity == "" && f.minStock == ""
    ensures Submit(f, texts, localized, mapping, cats).added.None?
    ensures var errs := Submit(f, texts, localized, mapping, cats).errors;
            Name in errs && Category in errs && Quantity in errs && MinStock in errs
  {
    BlankNameFails(f, texts);
    SubmitRejects(f, texts, localized, mapping, cats);
  }

  /** Any recorded error stops the submit and is kept. */
  lemma SubmitRejects(f: FormData, texts: ErrorTexts, localized: bool, mapping: map<string, string>, cats: seq<ApiCategory>)
    requires Name in Validate(f, texts)
    ensures Submit(f, texts, localized, mapping, cats).added.None?
    ensures Submit(f, texts, localized, mapping, cats).errors == Validate(f, texts)
  {
    assert Validate(f, texts) != map[];
  }

  lemma BlankNameFails(f: FormData, texts: ErrorTexts)
    requires f.name == ""
    ensures Name in Validate(f, texts)
  {
    assert Trim(f.name) == "";
  }

  /** Whether a field shows its error: an entry cleared to `''` shows nothing. */
  predicate ShowsError(errors: map<FormField, string>, field: FormField) {
    field in errors && errors[field] != ""
  }

  /** One add-product modal. `localized` is the variant that fetches categories. */
  class AddProductModal {
    const localized: bool
    var form: FormData
    var errors: map<FormField, string>
    var categories: seq<ApiCategory>
    var categoryMapping: map<string, string>

    constructor (localized: bool)
      ensures this.localized == localized
      ensures form == EmptyForm && errors == map[] && categories == [] && categoryMapping == map[]
    {
      this.localized := localized;
      form := EmptyForm;
      errors := map[];
      categories := [];
      categoryMapping := map[];
    }

    /** `fetchCategories` after the request: a `success` response replaces the list and the
        mapping; an unsuccessful response or a failed request changes nothing. */
    method ApplyCategoriesResponse(response: Option<(bool, seq<ApiCategory>)>)
      modifies this
      ensures response.Some? && response.value.0 ==>
                categories == response.value.1 && categoryMapping == MappingOf(response.value.1)
      ensures response.None? || !response.value.0 ==>
                categories == old(categories) && categoryMapping == old(categoryMapping)
      ensures form == old(form) && errors == old(errors)
    {
      if response.Some? && response.value.0 {
        var data := response.value.1;
        categories := data;
        var mapping := BuildCategoryMapping(data);
        categoryMapping := mapping;
      }
    }

    /** `handleSubmit`: with errors they are recorded and nothing is sent; otherwise the
        payload goes out, the form is reset and the modal closes. */
    method HandleSubmit(texts: ErrorTexts) returns (added: Option<NewProduct>, closed: bool)
      modifies this`form, this`errors
      ensures SubmitOutcome(added, errors, form) == Submit(old(form), texts, localized, categoryMapping, categories)
      ensures closed == added.Some?
      ensures categories == old(categories) && categoryMapping == old(categoryMapping)
    {
      var outcome := Submit(form, texts, localized, categoryMapping, categories);
      added := outcome.added;
      errors := outcome.errors;
      form := outcome.form;
      closed := added.Some?;
    }

    /** `handleInputChange`: store the value and clear a shown error for that field. */
    method HandleInputChange(field: FormField, value: string)
      modifies this
      ensures form == WithField(old(form), field, value)
      ensures ShowsError(old(errors), field) ==> errors == old(errors)[field := ""]
      ensures !ShowsError(old(errors), field) ==> errors == old(errors)
      ensures !ShowsError(errors, field)
      ensures forall other :: other != field ==> ShowsError(errors, other) == ShowsError(old(errors), other)
      ensures categories == old(categories) && categoryMapping == old(categoryMapping)
    {
      form := WithField(form, field, value);
      if field in errors && errors[field] != "" {
        errors := errors[field := ""];
      }
    }
  }

  /** The `forEach` over the response data. */
  method BuildCategoryMapping(cats: seq<ApiCategory>) returns (mapping: map<string, string>)
    ensures mapping == MappingOf(cats)
  {
    mapping := map[];
    for i := 0 to |cats|
      invariant mapping == MappingOf(cats[..i])
    {
      assert cats[..i + 1][..i] == cats[..i];
      mapping := mapping[cats[i].name := cats[i].id];
    }
    assert cats[..|cats|] == cats;
  }
}
