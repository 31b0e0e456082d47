/**
 * The localized stock dashboard (and its unlocalized twin): the low, out-of-stock and
 * updated-today lists, the per-category cards in first-appearance order, the collapsed
 * previews, the urgent-attention lists, and the dashboard's editing state.
 */
module Dashboard {
  import opened Wrappers
  import opened JsText
  import opened Seqs
  import opened Stock
  import opened ProductViews

  predicate IsAtOrBelowMin(p: Product) { p.quantity <= p.minStock }
  predicate IsPositive(p: Product) { p.quantity > 0 }

  /** `products.filter(p => p.quantity <= p.minStock)`; this includes the products at zero. */
  function LowStockProducts(ps: seq<Product>): seq<Product> { Filter(ps, IsAtOrBelowMin) }

  /** `products.filter(p => p.quantity === 0)` */
  function OutOfStockProducts(ps: seq<Product>): seq<Product> { Filter(ps, IsOut) }

  /** The products last updated on `today` (the UTC date `new Date()` gives), in order. */
  function UpdatedOn(ps: seq<Product>, today: string): (r: seq<Product>)
    ensures |r| <= |ps|
    ensures forall p :: p in r <==> p in ps && p.lastUpdated == today
  {
    if ps == [] then []
    else (if ps[0].lastUpdated == today then [ps[0]] else []) + UpdatedOn(ps[1..], today)
  }

  /** Selecting today's products works piece by piece, so their order is kept. */
  lemma {:induction false} UpdatedOnAppend(a: seq<Product>, b: seq<Product>, today: string)
    ensures UpdatedOn(a + b, today) == UpdatedOn(a, today) + UpdatedOn(b, today)
    decreases |a|
  {
    if a == [] {
      assert a + b == b;
    } else {
      assert (a + b)[0] == a[0] && (a + b)[1..] == a[1..] + b;
      UpdatedOnAppend(a[1..], b, today);
      ConcatAssoc(if a[0].lastUpdated == today then [a[0]] else [], UpdatedOn(a[1..], today), UpdatedOn(b, today));
    }
  }

  /** One product is selected exactly when it was updated today. */
  lemma UpdatedOnOne(p: Product, today: string)
    ensures UpdatedOn([p], today) == if p.lastUpdated == today then [p] else []
  {
    assert [p][1..] == [];
  }

  /** The out-of-stock products are among the low-stock products when minimums are not negative. */
  lemma OutOfStockIsLowStock(ps: seq<Product>)
    requires forall i :: 0 <= i < |ps| ==> ps[i].minStock >= 0
    ensures forall p :: p in OutOfStockProducts(ps) ==> p in LowStockProducts(ps)
  {
    FilterMembers(ps, IsOut);
    FilterMembers(ps, IsAtOrBelowMin);
  }

  // ---------------------------------------------------------------------------
  // urgent attention

  /** The low entries of the urgent list: `lowStockProducts.filter(p => p.quantity > 0)`. */
  function UrgentLowProducts(ps: seq<Product>): seq<Product> {
    Filter(LowStockProducts(ps), IsPositive)
  }

  /** The urgent section is shown when either list is non-empty. */
  predicate ShowsUrgentSection(ps: seq<Product>) {
    |LowStockProducts(ps)| > 0 || |OutOfStockProducts(ps)| > 0
  }

  /** The urgent list's low part is exactly the low band of the card and list stats. */
  lemma UrgentLowIsLowBand(ps: seq<Product>)
    ensures UrgentLowProducts(ps) == Filter(ps, IsLowPositive)
  {
    FilterFilter(ps, IsAtOrBelowMin, IsPositive, IsLowPositive);
  }

  /** No product is listed twice as urgent: the out and the low entries never overlap,
      and with no negative quantities they cover the low-stock products exactly. */
  lemma UrgentListsPartition(ps: seq<Product>)
    ensures forall p :: !(p in OutOfStockProducts(ps) && p in UrgentLowProducts(ps))
    ensures (forall i :: 0 <= i < |ps| ==> ps[i].quantity >= 0) ==>
              forall p :: (p in OutOfStockProducts(ps) || p in UrgentLowProducts(ps))
                          <==> p in ps && (p.quantity == 0 || p.quantity <= p.minStock)
  {
    FilterMembers(ps, IsOut);
    FilterMembers(ps, IsAtOrBelowMin);
    FilterMembers(LowStockProducts(ps), IsPositive);
  }

  /** With non-negative minimums the urgent section is shown exactly when something is low. */
  lemma ShowsUrgentWhenLow(ps: seq<Product>)
    requires forall i :: 0 <= i < |ps| ==> ps[i].minStock >= 0
    ensures ShowsUrgentSection(ps) <==> |LowStockProducts(ps)| > 0
  {
    OutOfStockIsLowStock(ps);
    if |OutOfStockProducts(ps)| > 0 {
      assert OutOfStockProducts(ps)[0] in LowStockProducts(ps);
    }
  }

  // ---------------------------------------------------------------------------
  // categories

  /** `products.filter(p => p.category === category)` */
  function ProductsIn(ps: seq<Product>, category: string): (r: seq<Product>)
    ensures |r| <= |ps|
    ensures forall p :: p in r <==> p in ps && p.category == category
  {
    if ps == [] then []
    else (if ps[0].category == category then [ps[0]] else []) + ProductsIn(ps[1..], category)
  }

  /** `products.filter(p => p.category === category && p.quantity <= p.minStock).length` */
  function LowStockIn(ps: seq<Product>, category: string): nat {
    if ps == [] then 0
    else (if ps[0].category == category && ps[0].quantity <= ps[0].minStock then 1 else 0)
         + LowStockIn(ps[1..], category)
  }

  /** One category card's figures. */
  datatype CategoryStat = CategoryStat(name: string, products: seq<Product>, lowStock: nat)

  function StatFor(ps: seq<Product>, category: string): CategoryStat {
    CategoryStat(category, ProductsIn(ps, category), LowStockIn(ps, category))
  }

  function StatsFor(cs: seq<string>, ps: seq<Product>): (r: seq<CategoryStat>)
    ensures |r| == |cs|
    ensures forall i :: 0 <= i < |cs| ==> r[i] == StatFor(ps, cs[i])
  {
    if cs == [] then [] else [StatFor(ps, cs[0])] + StatsFor(cs[1..], ps)
  }

  /** `categoryStats`: one card per category, in first-appearance order. */
  function CategoryStats(ps: seq<Product>): seq<CategoryStat> {
    StatsFor(Distinct(CategoriesOf(ps)), ps)
  }

  /** The names on the cards, in order. */
  function StatNames(stats: seq<CategoryStat>): (r: seq<string>)
    ensures |r| == |stats| && forall i :: 0 <= i < |stats| ==> r[i] == stats[i].name
  {
    seq(|stats|, i requires 0 <= i < |stats| => stats[i].name)
  }

  lemma CategoriesOfMembers(ps: seq<Product>)
    ensures forall p :: p in ps ==> p.category in CategoriesOf(ps)
    ensures forall c :: c in CategoriesOf(ps) ==> exists p :: p in ps && p.category == c
  {
    var cs := CategoriesOf(ps);
    forall p | p in ps
      ensures p.category in cs
    {
      var k :| 0 <= k < |ps| && ps[k] == p;
      assert cs[k] == p.category;
    }
    forall c | c in cs
      ensures exists p :: p in ps && p.category == c
    {
      var k :| 0 <= k < |cs| && cs[k] == c;
      assert ps[k] in ps;
    }
  }

  /** The cards name each category of the products exactly once, and nothing else. */
  lemma CategoryStatsNames(ps: seq<Product>)
    ensures forall i, j :: 0 <= i < j < |CategoryStats(ps)| ==> CategoryStats(ps)[i].name != CategoryStats(ps)[j].name
    ensures forall p :: p in ps ==> p.category in StatNames(CategoryStats(ps))
    ensures forall c :: c in StatNames(CategoryStats(ps)) ==> exists p :: p in ps && p.category == c
  {
    var cs := Distinct(CategoriesOf(ps));
    assert StatNames(CategoryStats(ps)) == cs;
    CategoriesOfMembers(ps);
  }

  /** The sum of the cards' product counts. */
  function TotalProducts(stats: seq<CategoryStat>): nat {
    if stats == [] then 0 else |stats[0].products| + TotalProducts(stats[1..])
  }

  /** The sum of the cards' low-stock badges. */
  function TotalLowStock(stats: seq<CategoryStat>): nat {
    if stats == [] then 0 else stats[0].lowStock + TotalLowStock(stats[1..])
  }

  function Occurrences(cs: seq<string>, x: string): nat {
    if cs == [] then 0 else (if cs[0] == x then 1 else 0) + Occurrences(cs[1..], x)
  }

  lemma {:induction false} OccurrencesDistinct(cs: seq<string>, x: string)
    requires forall i, j :: 0 <= i < j < |cs| ==> cs[i] != cs[j]
    ensures x in cs ==> Occurrences(cs, x) == 1
    ensures x !in cs ==> Occurrences(cs, x) == 0
  {
    if cs != [] {
      OccurrencesDistinct(cs[1..], x);
      if cs[0] == x {
        assert x !in cs[1..];
      }
    }
  }

  lemma {:induction false} TotalProductsNone(cs: seq<string>)
    ensures TotalProducts(StatsFor(cs, [])) == 0
  {
    if cs != [] {
      TotalProductsNone(cs[1..]);
    }
  }

  lemma {:induction false} TotalProductsCons(cs: seq<string>, ps: seq<Product>)
    requires ps != []
    ensures TotalProducts(StatsFor(cs, ps)) == Occurrences(cs, ps[0].category) + TotalProducts(StatsFor(cs, ps[1..]))
  {
    if cs != [] {
      TotalProductsCons(cs[1..], ps);
    }
  }

  /** Over a distinct list covering every category, the cards count every product once. */
  lemma {:induction false} TotalProductsCovers(cs: seq<string>, ps: seq<Product>)
    requires forall i, j :: 0 <= i < j < |cs| ==> cs[i] != cs[j]
    requires forall p :: p in ps ==> p.category in cs
    ensures TotalProducts(StatsFor(cs, ps)) == |ps|
  {
    if ps == [] {
      TotalProductsNone(cs);
    } else {
      assert ps[0] in ps;
      assert forall p :: p in ps[1..] ==> p in ps;
      TotalProductsCovers(cs, ps[1..]);
      TotalProductsCons(cs, ps);
      OccurrencesDistinct(cs, ps[0].category);
    }
  }

  /** The category cards together hold every product exactly once. */
  lemma CategoryStatsCoverProducts(ps: seq<Product>)
    ensures TotalProducts(CategoryStats(ps)) == |ps|
  {
    var cs := Distinct(CategoriesOf(ps));
    forall p | p in ps
      ensures p.category in cs
    {
      var k :| 0 <= k < |ps| && ps[k] == p;
      assert CategoriesOf(ps)[k] == p.category;
    }
    TotalProductsCovers(cs, ps);
  }

  lemma {:induction false} LowStockInIsLowProductsIn(ps: seq<Product>, category: string)
    ensures LowStockIn(ps, category) == |ProductsIn(LowStockProducts(ps), category)|
  {
    if ps != [] {
      LowStockInIsLowProductsIn(ps[1..], category);
      FilterAppend([ps[0]], ps[1..], IsAtOrBelowMin);
      assert [ps[0]] + ps[1..] == ps;
      ProductsInAppend(Filter([ps[0]], IsAtOrBelowMin), LowStockProducts(ps[1..]), category);
    }
  }

  lemma {:induction false} ProductsInAppend(a: seq<Product>, b: seq<Product>, category: string)
    ensures ProductsIn(a + b, category) == ProductsIn(a, category) + ProductsIn(b, category)
  {
    if a == [] {
      assert a + b == b;
    } else {
      assert (a + b)[1..] == a[1..] + b;
      ProductsInAppend(a[1..], b, category);
    }
  }

  lemma {:induction false} TotalLowStockIs(cs: seq<string>, ps: seq<Product>)
    ensures TotalLowStock(StatsFor(cs, ps)) == TotalProducts(StatsFor(cs, LowStockProducts(ps)))
  {
    if cs != [] {
      TotalLowStockIs(cs[1..], ps);
      LowStockInIsLowProductsIn(ps, cs[0]);
    }
  }

  /** The cards' low-stock badges add up to the dashboard's low-stock count. */
  lemma CategoryLowStockAddsUp(ps: seq<Product>)
    ensures TotalLowStock(CategoryStats(ps)) == |LowStockProducts(ps)|
  {
    var cs := Distinct(CategoriesOf(ps));
    TotalLowStockIs(cs, ps);
    FilterMembers(ps, IsAtOrBelowMin);
    forall p | p in LowStockProducts(ps)
      ensures p.category in cs
    {
      var k :| 0 <= k < |ps| && ps[k] == p;
      assert CategoriesOf(ps)[k] == p.category;
    }
    TotalProductsCovers(cs, LowStockProducts(ps));
  }

  // ---------------------------------------------------------------------------
  // previews

  /** The collapsed card: at most three products. */
  function CollapsedPreview(stat: CategoryStat): seq<Product> { Take(stat.products, 3) }

  /** The `+n more` line, present only when products are hidden. */
  function MoreCount(stat: CategoryStat): (n: Option<nat>)
    ensures n.Some? <==> |stat.products| > 3
    ensures n.Some? ==> n.value > 0
  {
    if |stat.products| > 3 then Some(|stat.products| - 3) else None
  }

  /** The preview and the `+n` line account for every product of the category. */
  lemma PreviewAccountsForAll(stat: CategoryStat)
    ensures |CollapsedPreview(stat)| + MoreCount(stat).GetOr(0) == |stat.products|
    ensures CollapsedPreview(stat) <= stat.products
  {
  }

  /** The recent-activity list: the first five products updated today. */
  function RecentActivity(ps: seq<Product>, today: string): (r: seq<Product>)
    ensures |r| <= 5
    ensures forall p :: p in r ==> p in ps && p.lastUpdated == today
    ensures r <= UpdatedOn(ps, today)
    ensures |r| == if |UpdatedOn(ps, today)| < 5 then |UpdatedOn(ps, today)| else 5
  {
    Take(UpdatedOn(ps, today), 5)
  }

  // ---------------------------------------------------------------------------
  // state

  /** `toggleCategoryExpansion`: clicking the open card closes it, any other opens it. */
  function Toggle(expanded: Option<string>, category: string): (r: Option<string>)
    ensures r == Some(category) <==> expanded != Some(category)
    ensures r.None? <==> expanded == Some(category)
  {
    if expanded == Some(category) then None else Some(category)
  }

  /** Clicking the same card twice restores the previous state exactly when no other card
      was open. */
  lemma ToggleTwice(expanded: Option<string>, category: string)
    ensures Toggle(Toggle(expanded, category), category) == expanded
            <==> expanded == None || expanded == Some(category)
  {
  }

  class DashboardState {
    var editingProduct: Option<string>
    var editValue: string
    var expandedCategory: Option<string>

    constructor()
      ensures editingProduct == None && editValue == "" && expandedCategory == None
    {
      editingProduct := None;
      editValue := "";
      expandedCategory := None;
    }

    method HandleEditStart(p: Product)
      modifies this
      ensures editingProduct == Some(p.id) && editValue == IntToString(p.quantity)
      ensures expandedCategory == old(expandedCategory)
    {
      editingProduct := Some(p.id);
      editValue := IntToString(p.quantity);
    }

    method SetEditValue(v: string)
      modifies this
      ensures editValue == v
      ensures editingProduct == old(editingProduct) && expandedCategory == old(expandedCategory)
    {
      editValue := v;
    }

    /** The dashboard's save also clears the field, unlike the card and list views. */
    method HandleEditSave(productId: string) returns (u: QuantityUpdate)
      modifies this
      ensures u == QuantityUpdate(productId, EditSaveQuantity(old(editValue)))
      ensures editingProduct == None && editValue == ""
      ensures expandedCategory == old(expandedCategory)
    {
      var parsed := OrZero(ParseInt(editValue));
      u := QuantityUpdate(productId, if parsed < 0 then 0 else parsed);
      editingProduct := None;
      editValue := "";
    }

    method HandleEditCancel()
      modifies this
      ensures editingProduct == None && editValue == ""
      ensures expandedCategory == old(expandedCategory)
    {
      editingProduct := None;
      editValue := "";
    }

    method ToggleCategoryExpansion(category: string)
      modifies this
      ensures expandedCategory == Toggle(old(expandedCategory), category)
      ensures editingProduct == old(editingProduct) && editValue == old(editValue)
    {
      expandedCategory := if expandedCategory == Some(category) then None else Some(category);
    }
  }
}
