/**
 * The product record shared by the page and every view, and the stock arithmetic that each
 * card, list and dashboard view repeats: the out/low/good classifier, the clamped quick
 * update, the edit-save coercion, the decrement-button thresholds and the stats counts.
 */
module Stock {
  import opened Wrappers
  import opened Seqs
  import opened JsText

  /** A product as the page keeps it. */
  datatype Product = Product(
    id: string,
    name: string,
    category: string,
    quantity: int,
    minStock: int,
    unit: string,
    lastUpdated: string)

  /** What the add-product forms hand to the page; `None` in a number field is NaN,
      `None` as category id means the key is absent or undefined. */
  datatype NewProduct = NewProduct(
    name: string,
    category: string,
    categoryId: Option<string>,
    quantity: Option<int>,
    minStock: Option<int>,
    unit: string)

  datatype StockStatus = Out | Low | Good

  /** `getStockStatus`: zero is out, otherwise at or below the minimum is low. */
  function GetStockStatus(p: Product): (s: StockStatus)
    ensures s == Out <==> p.quantity == 0
    ensures s == Low <==> p.quantity != 0 && p.quantity <= p.minStock
    ensures s == Good <==> p.quantity != 0 && p.quantity > p.minStock
  {
    if p.quantity == 0 then Out
    else if p.quantity <= p.minStock then Low
    else Good
  }

  /** The status string the views switch on. */
  function StatusName(s: StockStatus): string {
    match s
    case Out => "out"
    case Low => "low"
    case Good => "good"
  }

  /** `getStockColor`: the card border classes for a status string. */
  function StockColor(status: string): string {
    if status == "out" then "border-ada-error bg-red-50"
    else if status == "low" then "border-ada-warning bg-yellow-50"
    else "border-gray-200 bg-ada-bg-secondary"
  }

  /** An unknown status is coloured like a good one. */
  lemma StockColorUnknown(status: string)
    requires status != "out" && status != "low"
    ensures StockColor(status) == StockColor(StatusName(Good))
  {
  }

  /** The three statuses get three different colours. */
  lemma StockColorDistinct(s: StockStatus, t: StockStatus)
    requires s != t
    ensures StockColor(StatusName(s)) != StockColor(StatusName(t))
  {
  }

  /** The unlocalized card's badge text: `Out` for out, the status name otherwise. */
  function StatusLabel(s: StockStatus): string {
    (if s == Out then "Out" else StatusName(s)) + " Stock"
  }

  /** Different statuses never share a badge text. */
  lemma StatusLabelInjective(s: StockStatus, t: StockStatus)
    requires StatusLabel(s) == StatusLabel(t)
    ensures s == t
  {
    assert StatusLabel(s)[0] == StatusLabel(t)[0];
  }

  // ---------------------------------------------------------------------------
  // quantity updates

  /** `handleQuickUpdate`: `Math.max(0, quantity + change)`. */
  function QuickUpdateQuantity(quantity: int, change: int): (r: int)
    ensures r >= 0 && r >= quantity + change
    ensures r == quantity + change || r == 0
  {
    if quantity + change < 0 then 0 else quantity + change
  }

  /** `handleEditSave`: `Math.max(0, parseInt(editValue) || 0)`. */
  function EditSaveQuantity(editValue: string): (r: int)
    ensures r >= 0
    ensures ParseInt(editValue).Some? && ParseInt(editValue).value > 0 ==> r == ParseInt(editValue).value
    ensures r == 0 <==> ParseInt(editValue).None? || ParseInt(editValue).value <= 0
  {
    var n := OrZero(ParseInt(editValue));
    if n < 0 then 0 else n
  }

  /** Saving an edit field that still holds the quantity the edit started from sends that quantity. */
  lemma EditSaveUnchanged(quantity: int)
    requires quantity >= 0
    ensures EditSaveQuantity(IntToString(quantity)) == quantity
  {
    ParseIntOfIntToString(quantity);
  }

  datatype Decrement = MinusOne | MinusFive | MinusTen {
    function Amount(): int {
      match this
      case MinusOne => 1
      case MinusFive => 5
      case MinusTen => 10
    }
  }

  /** The `disabled` attributes: -1 at zero, -5 below five, -10 below ten. */
  predicate DecrementEnabled(b: Decrement, quantity: int) {
    match b
    case MinusOne => quantity != 0
    case MinusFive => !(quantity < 5)
    case MinusTen => !(quantity < 10)
  }

  /** An enabled decrement is applied exactly, unless -1 is pressed on a negative quantity,
      the one case the thresholds let through to the clamp. */
  lemma EnabledDecrementExact(b: Decrement, quantity: int)
    requires DecrementEnabled(b, quantity)
    ensures QuickUpdateQuantity(quantity, -b.Amount()) == quantity - b.Amount()
            <==> quantity >= 0 || b != MinusOne
  {
  }

  // ---------------------------------------------------------------------------
  // the stats row

  predicate IsOut(p: Product) { p.quantity == 0 }
  predicate IsLowPositive(p: Product) { p.quantity > 0 && p.quantity <= p.minStock }
  predicate IsAboveMin(p: Product) { p.quantity > p.minStock }

  /** The three stats counts, as the card and list views compute them. */
  function OutCount(ps: seq<Product>): nat { |Filter(ps, IsOut)| }
  function LowCount(ps: seq<Product>): nat { |Filter(ps, IsLowPositive)| }
  function GoodCount(ps: seq<Product>): nat { |Filter(ps, IsAboveMin)| }

  predicate NonNegative(p: Product) { p.quantity >= 0 && p.minStock >= 0 }

  /** With non-negative quantities and minimums every product is counted exactly once. */
  lemma StatsPartition(ps: seq<Product>)
    requires forall i :: 0 <= i < |ps| ==> NonNegative(ps[i])
    ensures OutCount(ps) + LowCount(ps) + GoodCount(ps) == |ps|
  {
    FilterPartition(ps, IsOut, IsLowPositive, IsAboveMin);
  }

  /** The stats bands agree with the classifier on non-negative quantities and minimums. */
  lemma StatsMatchStatus(p: Product)
    requires NonNegative(p)
    ensures IsOut(p) <==> GetStockStatus(p) == Out
    ensures IsLowPositive(p) <==> GetStockStatus(p) == Low
    ensures IsAboveMin(p) <==> GetStockStatus(p) == Good
  {
  }

  /** A negative quantity at or below its minimum is classified low but lands in no count. */
  lemma NegativeQuantityUncounted(p: Product)
    requires p.quantity < 0 && p.quantity <= p.minStock
    ensures GetStockStatus(p) == Low
    ensures !IsOut(p) && !IsLowPositive(p) && !IsAboveMin(p)
  {
  }

  // ---------------------------------------------------------------------------
  // categories

  /** `products.map(p => p.category)` */
  function CategoriesOf(ps: seq<Product>): (r: seq<string>)
    ensures |r| == |ps| && forall i :: 0 <= i < |ps| ==> r[i] == ps[i].category
  {
    seq(|ps|, i requires 0 <= i < |ps| => ps[i].category)
  }

  // ---------------------------------------------------------------------------
  // partial updates

  /** A `Partial<Product>` from the edit modal: `None` is a field the object does not carry. */
  datatype ProductPatch = ProductPatch(
    name: Option<string>,
    category: Option<string>,
    quantity: Option<int>,
    minStock: Option<int>,
    unit: Option<string>)

  const EmptyPatch: ProductPatch := ProductPatch(None, None, None, None, None)

  /** `{ ...product, ...patch, lastUpdated: today }` */
  function MergePatch(p: Product, patch: ProductPatch, today: string): (r: Product)
    ensures r.id == p.id && r.lastUpdated == today
    ensures r.name == patch.name.GetOr(p.name) && r.category == patch.category.GetOr(p.category)
    ensures r.quantity == patch.quantity.GetOr(p.quantity) && r.minStock == patch.minStock.GetOr(p.minStock)
    ensures r.unit == patch.unit.GetOr(p.unit)
  {
    Product(
      p.id,
      patch.name.GetOr(p.name),
      patch.category.GetOr(p.category),
      patch.quantity.GetOr(p.quantity),
      patch.minStock.GetOr(p.minStock),
      patch.unit.GetOr(p.unit),
      today)
  }

  /** An empty patch only stamps the date. */
  lemma MergeEmptyPatch(p: Product, today: string)
    ensures MergePatch(p, EmptyPatch, today) == p.(lastUpdated := today)
  {
  }

  /** Merging the same patch again changes nothing more. */
  lemma MergePatchTwice(p: Product, patch: ProductPatch, today: string)
    ensures MergePatch(MergePatch(p, patch, today), patch, today) == MergePatch(p, patch, today)
  {
  }

  /** A patch that carries every field replaces everything but the id. */
  lemma MergeFullPatch(p: Product, q: Product, today: string)
    ensures MergePatch(p, ProductPatch(Some(q.name), Some(q.category), Some(q.quantity), Some(q.minStock), Some(q.unit)), today)
            == q.(id := p.id, lastUpdated := today)
  {
  }
}
