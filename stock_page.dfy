/**
 * The page that owns the product list. Each handler calls the backend and then rewrites
 * the list with `map`, `filter` or an append; when the call fails it applies the same local
 * change (or, for loading and adding, a local substitute). Backend outcomes, the date and
 * the clock are parameters.
 */
module StockPage {
  import opened Wrappers
  import opened JsText
  import opened Seqs
  import opened Stock
  import opened ApiClient

  // ---------------------------------------------------------------------------
  // backend to local conversion

  /** `s.split('T')[0]`: the date of an ISO timestamp. */
  function DatePart(timestamp: string): (d: string)
    ensures 'T' !in d && d <= timestamp
  {
    Split(timestamp, 'T')[0]
  }

  /** The date part of `date + "T" + time` is `date`. */
  lemma DatePartOfTimestamp(date: string, time: string)
    requires 'T' !in date
    ensures DatePart(date + "T" + time) == date
  {
    IndexOfAfter(date, time, 'T');
    assert date + "T" + time == date + ['T'] + time;
    assert (date + ['T'] + time)[..|date|] == date;
  }

  /** `product.category?.name || 'other'` */
  function CategoryNameOf(ap: ApiProduct): (c: string)
    ensures ap.category.Some? && ap.category.value.name != "" ==> c == ap.category.value.name
    ensures ap.category.None? || ap.category.value.name == "" ==> c == "other"
  {
    if ap.category.Some? && ap.category.value.name != "" then ap.category.value.name else "other"
  }

  /** A backend product in local form, dated `lastUpdated`. */
  function LocalProduct(ap: ApiProduct, lastUpdated: string): (p: Product)
    ensures p.id == ap.id && p.name == ap.name && p.category == CategoryNameOf(ap) && p.unit == ap.unit
    ensures p.quantity == ap.currentQuantity && p.minStock == ap.minimumStock && p.lastUpdated == lastUpdated
  {
    Product(ap.id, ap.name, CategoryNameOf(ap), ap.currentQuantity, ap.minimumStock, ap.unit, lastUpdated)
  }

  /** The conversion in `loadProducts`: the date of `updated_at`, or today's date without one. */
  function ToLocal(ap: ApiProduct, today: string): (p: Product)
    ensures ap.updatedAt.Some? && ap.updatedAt.value != "" ==> p == LocalProduct(ap, DatePart(ap.updatedAt.value))
    ensures ap.updatedAt.None? || ap.updatedAt.value == "" ==> p == LocalProduct(ap, today)
  {
    LocalProduct(ap, if ap.updatedAt.Some? && ap.updatedAt.value != "" then DatePart(ap.updatedAt.value) else today)
  }

  function ToLocalAll(aps: seq<ApiProduct>, today: string): (ps: seq<Product>)
    ensures |ps| == |aps| && forall i :: 0 <= i < |aps| ==> ps[i] == ToLocal(aps[i], today)
  {
    seq(|aps|, i requires 0 <= i < |aps| => ToLocal(aps[i], today))
  }

  /** A timestamped backend product is dated with the day of its timestamp. */
  lemma ToLocalDate(ap: ApiProduct, today: string, date: string, time: string)
    requires 'T' !in date && ap.updatedAt == Some(date + "T" + time)
    ensures ToLocal(ap, today).lastUpdated == date
  {
    DatePartOfTimestamp(date, time);
  }

  /** The products shown when loading fails. */
  const MockProducts: seq<Product> := [
    Product("1", "Tomaten / Tomates / Tomatoes", "vegetables", 5, 10, "kg", "2026-02-17"),
    Product("2", "Mozzarella", "dairy", 8, 5, "pcs", "2026-02-17"),
    Product("3", "Pasta", "drygoods", 25, 15, "kg", "2026-02-16"),
    Product("4", "Olijfolie / Huile d'olive / Olive Oil", "oils", 2, 5, "L", "2026-02-17"),
    Product("5", "Basilicum / Basilic / Basil", "herbs", 12, 8, "bunch", "2026-02-17"),
    Product("6", "Bloem / Farine / Flour", "drygoods", 18, 20, "kg", "2026-02-16"),
    Product("7", "Parmesan", "dairy", 0, 3, "pcs", "2026-02-17"),
    Product("8", "Oregano", "spices", 1, 5, "pack", "2026-02-16")
  ]

  /** `err instanceof Error ? err.message : 'Failed to load products'`; `None` is a thrown
      value that is not an `Error`. */
  function LoadErrorText(thrown: Option<string>): (text: string)
    ensures thrown.Some? ==> text == thrown.value
    ensures thrown.None? ==> text == "Failed to load products"
  {
    thrown.GetOr("Failed to load products")
  }

  // ---------------------------------------------------------------------------
  // the list updaters

  /** `products.map(p => p.id === id ? change(p) : p)` */
  function UpdateWhere(ps: seq<Product>, id: string, change: Product -> Product): (r: seq<Product>)
    ensures |r| == |ps|
    ensures forall i :: 0 <= i < |ps| && ps[i].id == id ==> r[i] == change(ps[i])
    ensures forall i :: 0 <= i < |ps| && ps[i].id != id ==> r[i] == ps[i]
  {
    seq(|ps|, i requires 0 <= i < |ps| => if ps[i].id == id then change(ps[i]) else ps[i])
  }

  /** An id no product has leaves the list as it is. */
  lemma UpdateUnknownId(ps: seq<Product>, id: string, change: Product -> Product)
    requires forall i :: 0 <= i < |ps| ==> ps[i].id != id
    ensures UpdateWhere(ps, id, change) == ps
  {
  }

  /** A change that keeps ids keeps them all, in the same order. */
  lemma UpdateKeepsIds(ps: seq<Product>, id: string, change: Product -> Product)
    requires forall p :: change(p).id == p.id
    ensures forall i :: 0 <= i < |ps| ==> UpdateWhere(ps, id, change)[i].id == ps[i].id
  {
  }

  function SetQuantityChange(quantity: int, today: string): Product -> Product {
    (p: Product) => p.(quantity := quantity, lastUpdated := today)
  }

  /** `updateProductQuantity`'s updater. */
  function SetQuantity(ps: seq<Product>, id: string, quantity: int, today: string): (r: seq<Product>)
    ensures |r| == |ps|
    ensures forall i :: 0 <= i < |ps| && ps[i].id == id ==>
              r[i] == ps[i].(quantity := quantity, lastUpdated := today)
    ensures forall i :: 0 <= i < |ps| && ps[i].id != id ==> r[i] == ps[i]
  {
    UpdateWhere(ps, id, SetQuantityChange(quantity, today))
  }

  /** Setting the same quantity again changes nothing more. */
  lemma SetQuantityTwice(ps: seq<Product>, id: string, quantity: int, today: string)
    ensures SetQuantity(SetQuantity(ps, id, quantity, today), id, quantity, today) == SetQuantity(ps, id, quantity, today)
  {
  }

  /** The updated product's stock status is the one its new quantity gives. */
  lemma SetQuantityStatus(ps: seq<Product>, id: string, quantity: int, today: string, i: nat)
    requires i < |ps| && ps[i].id == id
    ensures GetStockStatus(SetQuantity(ps, id, quantity, today)[i]) ==
            (if quantity == 0 then Out else if quantity <= ps[i].minStock then Low else Good)
  {
  }

  function MergeChange(patch: ProductPatch, today: string): Product -> Product {
    (p: Product) => MergePatch(p, patch, today)
  }

  /** `updateProduct`'s updater. */
  function MergeInto(ps: seq<Product>, id: string, patch: ProductPatch, today: string): (r: seq<Product>)
    ensures |r| == |ps|
    ensures forall i :: 0 <= i < |ps| && ps[i].id == id ==> r[i] == MergePatch(ps[i], patch, today)
    ensures forall i :: 0 <= i < |ps| && ps[i].id != id ==> r[i] == ps[i]
  {
    UpdateWhere(ps, id, MergeChange(patch, today))
  }

  /** A quantity-only patch is a quantity update. */
  lemma QuantityPatchIsSetQuantity(ps: seq<Product>, id: string, quantity: int, today: string)
    ensures MergeInto(ps, id, EmptyPatch.(quantity := Some(quantity)), today) == SetQuantity(ps, id, quantity, today)
  {
    var a := MergeInto(ps, id, EmptyPatch.(quantity := Some(quantity)), today);
    var b := SetQuantity(ps, id, quantity, today);
    assert forall i :: 0 <= i < |ps| ==> a[i] == b[i];
  }

  predicate HasOtherId(id: string, p: Product) { p.id != id }

  /** `products.filter(p => p.id !== id)` */
  function RemoveId(ps: seq<Product>, id: string): (r: seq<Product>)
    ensures forall p :: p in r <==> p in ps && p.id != id
    ensures |r| <= |ps|
  {
    var keep := (p: Product) => HasOtherId(id, p);
    FilterMembers(ps, keep);
    Filter(ps, keep)
  }

  /** Deleting keeps the relative order: it works piecewise. */
  lemma RemoveIdAppend(a: seq<Product>, b: seq<Product>, id: string)
    ensures RemoveId(a + b, id) == RemoveId(a, id) + RemoveId(b, id)
  {
    FilterAppend(a, b, (p: Product) => HasOtherId(id, p));
  }

  /** An id no product has leaves the list as it is. */
  lemma RemoveUnknownId(ps: seq<Product>, id: string)
    requires forall i :: 0 <= i < |ps| ==> ps[i].id != id
    ensures RemoveId(ps, id) == ps
  {
    FilterKeepsAll(ps, (p: Product) => HasOtherId(id, p));
  }

  /** With unique ids, deleting the product at `k` removes exactly that one. */
  lemma RemoveOnly(ps: seq<Product>, k: nat)
    requires k < |ps|
    requires forall i :: 0 <= i < |ps| && i != k ==> ps[i].id != ps[k].id
    ensures RemoveId(ps, ps[k].id) == ps[..k] + ps[k + 1..]
  {
    FilterDropsOne(ps, k, (p: Product) => HasOtherId(ps[k].id, p));
  }

  /** Deleting twice is deleting once. */
  lemma RemoveIdTwice(ps: seq<Product>, id: string)
    ensures RemoveId(RemoveId(ps, id), id) == RemoveId(ps, id)
  {
    var r := RemoveId(ps, id);
    forall i | 0 <= i < |r|
      ensures r[i].id != id
    {
      assert r[i] in r;
    }
    RemoveUnknownId(r, id);
  }

  // ---------------------------------------------------------------------------
  // payloads

  /** `newProduct.category_id || categories[0]?.id`; `None` is the "No categories
      available" error. */
  function CreateCategoryId(np: NewProduct, categories: seq<ApiCategory>): (r: Option<string>)
    ensures np.categoryId.Some? && np.categoryId.value != "" ==> r == np.categoryId
    ensures (np.categoryId.None? || np.categoryId.value == "") && categories != [] && categories[0].id != "" ==>
              r == Some(categories[0].id)
    ensures r.None? <==> (np.categoryId.None? || np.categoryId.value == "") && (categories == [] || categories[0].id == "")
    ensures r.Some? ==> r.value != ""
  {
    if np.categoryId.Some? && np.categoryId.value != "" then np.categoryId
    else if categories != [] && categories[0].id != "" then Some(categories[0].id)
    else None
  }

  /** `createData`: the unit defaults to `pcs` and a falsy count (NaN or 0) is sent as 0. */
  function CreatePayload(np: NewProduct, categoryId: string): (d: CreateProductDto)
    ensures d.categoryId == categoryId && d.name == np.name
    ensures np.unit == "" ==> d.unit == "pcs"
    ensures np.unit != "" ==> d.unit == np.unit
    ensures d.currentQuantity == OrZero(np.quantity) && d.minimumStock == OrZero(np.minStock)
  {
    CreateProductDto(categoryId, np.name, if np.unit == "" then "pcs" else np.unit, OrZero(np.quantity), OrZero(np.minStock))
  }

  /** A NaN count is sent as 0, a number as itself. */
  lemma CreatePayloadCounts(np: NewProduct, categoryId: string)
    ensures np.quantity.None? ==> CreatePayload(np, categoryId).currentQuantity == 0
    ensures np.quantity.Some? ==> CreatePayload(np, categoryId).currentQuantity == np.quantity.value
    ensures np.minStock.None? ==> CreatePayload(np, categoryId).minimumStock == 0
    ensures np.minStock.Some? ==> CreatePayload(np, categoryId).minimumStock == np.minStock.value
  {
  }

  /** `updateData`: a non-empty name and unit, and every defined count. */
  function UpdatePayload(patch: ProductPatch): (d: UpdateProductDto)
    ensures d.name.Some? <==> patch.name.Some? && patch.name.value != ""
    ensures d.name.Some? ==> d.name == patch.name
    ensures d.currentQuantity == patch.quantity && d.minimumStock == patch.minStock
    ensures d.unit.Some? <==> patch.unit.Some? && patch.unit.value != ""
    ensures d.unit.Some? ==> d.unit == patch.unit
  {
    UpdateProductDto(
      if patch.name.Some? && patch.name.value != "" then patch.name else None,
      patch.quantity,
      patch.minStock,
      if patch.unit.Some? && patch.unit.value != "" then patch.unit else None)
  }

  /** The category never reaches the backend. */
  lemma UpdatePayloadIgnoresCategory(patch: ProductPatch, category: Option<string>)
    ensures UpdatePayload(patch.(category := category)) == UpdatePayload(patch)
  {
  }

  /** The product `addProduct` appends when the backend does not create one: the form's
      fields, a clock-based id and today's date. */
  function OfflineProduct(np: NewProduct, now: nat, today: string): (p: Product)
    ensures p.id == NatToString(now) && p.name == np.name && p.category == np.category && p.unit == np.unit
    ensures p.quantity == OrZero(np.quantity) && p.minStock == OrZero(np.minStock) && p.lastUpdated == today
  {
    Product(NatToString(now), np.name, np.category, OrZero(np.quantity), OrZero(np.minStock), np.unit, today)
  }

  /** The product `addProduct` appends, for every combination of backend outcomes. */
  function AddedProduct(np: NewProduct, categories: Result<seq<ApiCategory>, string>,
                        created: Result<ApiProduct, string>, now: nat, today: string): (p: Product)
    ensures categories.Success? && CreateCategoryId(np, categories.value).Some? && created.Success? ==>
              p == LocalProduct(created.value, today)
    ensures categories.Failure? || CreateCategoryId(np, categories.value).None? || created.Failure? ==>
              p == OfflineProduct(np, now, today)
  {
    if categories.Failure? then OfflineProduct(np, now, today)
    else if CreateCategoryId(np, categories.value).None? then OfflineProduct(np, now, today)
    else if created.Failure? then OfflineProduct(np, now, today)
    else LocalProduct(created.value, today)
  }

  /** The create request, when one is sent. */
  function SentCreate(np: NewProduct, categories: Result<seq<ApiCategory>, string>): (r: Option<CreateProductDto>)
    ensures r.Some? <==> categories.Success? && CreateCategoryId(np, categories.value).Some?
    ensures r.Some? ==> r.value == CreatePayload(np, CreateCategoryId(np, categories.value).value)
  {
    if categories.Success? && CreateCategoryId(np, categories.value).Some? then
      Some(CreatePayload(np, CreateCategoryId(np, categories.value).value))
    else None
  }

  // ---------------------------------------------------------------------------
  // the page state

  datatype PageView = DashboardView | ProductsView

  class StockPage {
    var products: seq<Product>
    var loading: bool
    var error: Option<string>
    var showAddModal: bool
    var activeView: PageView

    constructor ()
      ensures products == [] && loading && error.None? && !showAddModal && activeView == DashboardView
    {
      products := [];
      loading := true;
      error := None;
      showAddModal := false;
      activeView := DashboardView;
    }

    /** `loadProducts`; `outcome` is the product list, or what the health check or the
        product request threw. */
    method LoadProducts(outcome: Result<seq<ApiProduct>, Option<string>>, today: string)
      modifies this
      ensures !loading
      ensures outcome.Success? ==> products == ToLocalAll(outcome.value, today) && error.None?
      ensures outcome.Failure? ==> products == MockProducts && error == Some(LoadErrorText(outcome.error))
      ensures showAddModal == old(showAddModal) && activeView == old(activeView)
    {
      loading := true;
      error := None;
      match outcome {
        case Success(aps) =>
          products := ToLocalAll(aps, today);
        case Failure(thrown) =>
          error := Some(LoadErrorText(thrown));
          products := MockProducts;
      }
      loading := false;
    }

    /** `updateProductQuantity`: the same update whether the request succeeds or not. */
    method UpdateProductQuantity(id: string, newQuantity: int, requestSucceeded: bool, today: string)
      modifies this
      ensures products == SetQuantity(old(products), id, newQuantity, today)
      ensures loading == old(loading) && error == old(error) && showAddModal == old(showAddModal) && activeView == old(activeView)
    {
      // The `try` and the `catch` of the source make the same local change.
      if requestSucceeded {
        products := SetQuantity(products, id, newQuantity, today);
      } else {
        products := SetQuantity(products, id, newQuantity, today);
      }
    }

    /** `addProduct`: exactly one product is appended, whatever the backend does; `sent`
        is the create request, when one is made. */
    method AddProduct(np: NewProduct, categories: Result<seq<ApiCategory>, string>,
                      created: Result<ApiProduct, string>, now: nat, today: string)
      returns (sent: Option<CreateProductDto>)
      modifies this
      ensures sent == SentCreate(np, categories)
      ensures products == old(products) + [AddedProduct(np, categories, created, now, today)]
      ensures loading == old(loading) && error == old(error) && showAddModal == old(showAddModal) && activeView == old(activeView)
    {
      sent := None;
      if categories.Failure? {
        products := products + [OfflineProduct(np, now, today)];
        return;
      }
      var categoryId := CreateCategoryId(np, categories.value);
      if categoryId.None? {
        products := products + [OfflineProduct(np, now, today)];
        return;
      }
      sent := Some(CreatePayload(np, categoryId.value));
      match created {
        case Success(ap) =>
          products := products + [LocalProduct(ap, today)];
        case Failure(_) =>
          products := products + [OfflineProduct(np, now, today)];
      }
    }

    /** `updateProduct`: `sent` is the request body; the local merge is the same whether the
        request succeeds or not. */
    method UpdateProduct(id: string, patch: ProductPatch, requestSucceeded: bool, today: string)
      returns (sent: UpdateProductDto)
      modifies this
      ensures sent == UpdatePayload(patch)
      ensures products == MergeInto(old(products), id, patch, today)
      ensures loading == old(loading) && error == old(error) && showAddModal == old(showAddModal) && activeView == old(activeView)
    {
      sent := UpdateProductDto(None, None, None, None);
      if patch.name.Some? && patch.name.value != "" { sent := sent.(name := patch.name); }
      if patch.quantity.Some? { sent := sent.(currentQuantity := patch.quantity); }
      if patch.minStock.Some? { sent := sent.(minimumStock := patch.minStock); }
      if patch.unit.Some? && patch.unit.value != "" { sent := sent.(unit := patch.unit); }
      // The `try` and the `catch` of the source make the same local change.
      if requestSucceeded {
        products := MergeInto(products, id, patch, today);
      } else {
        products := MergeInto(products, id, patch, today);
      }
    }

    /** `deleteProduct`: the same removal whether the request succeeds or not. */
    method DeleteProduct(id: string, requestSucceeded: bool)
      modifies this
      ensures products == RemoveId(old(products), id)
      ensures loading == old(loading) && error == old(error) && showAddModal == old(showAddModal) && activeView == old(activeView)
    {
      // The `try` and the `catch` of the source make the same local change.
      if requestSucceeded {
        products := RemoveId(products, id);
      } else {
        products := RemoveId(products, id);
      }
    }

    method SetShowAddModal(show: bool)
      modifies this
      ensures showAddModal == show
      ensures products == old(products) && loading == old(loading) && error == old(error) && activeView == old(activeView)
    {
      showAddModal := show;
    }

    method SetActiveView(view: PageView)
      modifies this
      ensures activeView == view
      ensures products == old(products) && loading == old(loading) && error == old(error) && showAddModal == old(showAddModal)
    {
      activeView := view;
    }
  }
}
