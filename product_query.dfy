/**
 * `ProductView`: the search, category and stock filters, the sort that puts out-of-stock
 * products first and low-stock products second (by name within a band), the sorted
 * category options, and the view's filter state.
 */
module ProductQuery {
  import opened Wrappers
  import opened JsText
  import opened Seqs
  import opened Stock
  import opened Sorting

  /** The three filter controls. */
  datatype Filters = Filters(search: string, category: string, stock: string)

  const DefaultFilters: Filters := Filters("", "all", "all")

  /** The active-filters banner and the `showingFiltered` summary appear for any other filters. */
  predicate IsActive(f: Filters) {
    f.search != "" || f.category != "all" || f.stock != "all"
  }

  lemma IsActiveExactly(f: Filters)
    ensures IsActive(f) <==> f != DefaultFilters
  {
  }

  /** Case-insensitive substring match on the name or the category. */
  predicate MatchesSearch(p: Product, query: string) {
    Includes(ToLower(p.name), ToLower(query)) || Includes(ToLower(p.category), ToLower(query))
  }

  predicate MatchesCategory(p: Product, category: string) {
    category == "all" || p.category == category
  }

  predicate MatchesStock(p: Product, stock: string) {
    stock == "all"
    || (stock == "out" && p.quantity == 0)
    || (stock == "low" && p.quantity > 0 && p.quantity <= p.minStock)
    || (stock == "good" && p.quantity > p.minStock)
  }

  predicate Matches(p: Product, f: Filters) {
    MatchesSearch(p, f.search) && MatchesCategory(p, f.category) && MatchesStock(p, f.stock)
  }

  /** `filteredProducts`: the matching products in their original order. */
  function FilterProducts(ps: seq<Product>, f: Filters): (r: seq<Product>)
    ensures |r| <= |ps|
    ensures forall p :: p in r <==> p in ps && Matches(p, f)
  {
    if ps == [] then []
    else (if Matches(ps[0], f) then [ps[0]] else []) + FilterProducts(ps[1..], f)
  }

  /** Filtering works piece by piece, so the kept products stay in their original order,
      each as often as it occurs. */
  lemma {:induction false} FilterProductsAppend(a: seq<Product>, b: seq<Product>, f: Filters)
    ensures FilterProducts(a + b, f) == FilterProducts(a, f) + FilterProducts(b, f)
    decreases |a|
  {
    if a == [] {
      assert a + b == b;
    } else {
      assert (a + b)[0] == a[0] && (a + b)[1..] == a[1..] + b;
      FilterProductsAppend(a[1..], b, f);
      ConcatAssoc(if Matches(a[0], f) then [a[0]] else [], FilterProducts(a[1..], f), FilterProducts(b, f));
    }
  }

  /** One product is kept exactly when it matches. */
  lemma FilterProductsOne(p: Product, f: Filters)
    ensures FilterProducts([p], f) == if Matches(p, f) then [p] else []
  {
    assert [p][1..] == [];
  }

  /** The empty query matches every product. */
  lemma EmptySearchMatches(p: Product)
    ensures MatchesSearch(p, "")
  {
    assert ToLower("") == "";
    IncludesEmpty(ToLower(p.name));
  }

  /** The search ignores the case of the query. */
  lemma SearchIgnoresQueryCase(p: Product, query: string)
    ensures MatchesSearch(p, query) == MatchesSearch(p, ToLower(query))
  {
    ToLowerIdempotent(query);
  }

  /** With the default filters nothing is filtered out. */
  lemma {:induction false} DefaultFiltersKeepAll(ps: seq<Product>)
    ensures FilterProducts(ps, DefaultFilters) == ps
  {
    if ps != [] {
      EmptySearchMatches(ps[0]);
      DefaultFiltersKeepAll(ps[1..]);
    }
  }

  /** The "no results" panel (nothing shown although there are products) needs an active filter. */
  lemma NoResultsNeedsActiveFilter(ps: seq<Product>, f: Filters)
    requires |ps| > 0 && |FilterProducts(ps, f)| == 0
    ensures IsActive(f)
  {
    if !IsActive(f) {
      DefaultFiltersKeepAll(ps);
    }
  }

  /** The stock filter on its own selects exactly the card and list views' stats bands. */
  lemma {:induction false} StockFilterIsStatsBand(ps: seq<Product>, stock: string)
    ensures stock == "out" ==> FilterProducts(ps, Filters("", "all", stock)) == Filter(ps, IsOut)
    ensures stock == "low" ==> FilterProducts(ps, Filters("", "all", stock)) == Filter(ps, IsLowPositive)
    ensures stock == "good" ==> FilterProducts(ps, Filters("", "all", stock)) == Filter(ps, IsAboveMin)
    ensures stock !in ["all", "out", "low", "good"] ==> FilterProducts(ps, Filters("", "all", stock)) == []
  {
    if ps != [] {
      EmptySearchMatches(ps[0]);
      StockFilterIsStatsBand(ps[1..], stock);
    }
  }

  /** For a non-negative quantity and minimum exactly one stock filter other than `all` matches. */
  lemma StockFiltersExclusive(p: Product)
    requires NonNegative(p)
    ensures MatchesStock(p, "out") || MatchesStock(p, "low") || MatchesStock(p, "good")
    ensures !(MatchesStock(p, "out") && MatchesStock(p, "low"))
    ensures !(MatchesStock(p, "out") && MatchesStock(p, "good"))
    ensures !(MatchesStock(p, "low") && MatchesStock(p, "good"))
  {
  }

  // ---------------------------------------------------------------------------
  // sorting

  /** `getStatusPriority`: out first, then low, then good. */
  function StatusPriority(p: Product): (n: nat)
    ensures n == 0 <==> GetStockStatus(p) == Out
    ensures n == 1 <==> GetStockStatus(p) == Low
    ensures n == 2 <==> GetStockStatus(p) == Good
  {
    if p.quantity == 0 then 0 else if p.quantity <= p.minStock then 1 else 2
  }

  /** The comparator, read as "a may come before b"; `nameLe(x, y)` stands for
      `x.localeCompare(y) <= 0`, assumed to be a total preorder on names. */
  predicate ProductLe(a: Product, b: Product, nameLe: (string, string) -> bool) {
    StatusPriority(a) < StatusPriority(b)
    || (StatusPriority(a) == StatusPriority(b) && nameLe(a.name, b.name))
  }

  lemma ProductLeTotal(a: Product, b: Product, nameLe: (string, string) -> bool)
    requires TotalPreorder(nameLe)
    ensures ProductLe(a, b, nameLe) || ProductLe(b, a, nameLe)
  {
    assert nameLe(a.name, b.name) || nameLe(b.name, a.name);
  }

  lemma ProductLeTransitive(a: Product, b: Product, c: Product, nameLe: (string, string) -> bool)
    requires TotalPreorder(nameLe)
    requires ProductLe(a, b, nameLe) && ProductLe(b, c, nameLe)
    ensures ProductLe(a, c, nameLe)
  {
    if StatusPriority(a) == StatusPriority(b) == StatusPriority(c) {
      assert nameLe(a.name, b.name) && nameLe(b.name, c.name);
    }
  }

  /** The view's comparator as a relation, for the generic sort. */
  function ProductCompare(nameLe: (string, string) -> bool): (Product, Product) -> bool {
    (x: Product, y: Product) => ProductLe(x, y, nameLe)
  }

  /** Products that compare equal both ways, same priority and `localeCompare` 0, keep the
      order they had: `Array.prototype.sort` is stable. */
  ghost predicate TiesInOrder(s: seq<Product>, t: seq<Product>, nameLe: (string, string) -> bool) {
    SameEquivalents(s, t, ProductCompare(nameLe))
  }

  /** Every product may come before every later one. */
  predicate SortedBy(s: seq<Product>, nameLe: (string, string) -> bool) {
    forall i, j :: 0 <= i < j < |s| ==> ProductLe(s[i], s[j], nameLe)
  }

  /** In a sorted list the out-of-stock products come first and the good ones last, and
      names are in order within a band. */
  lemma SortedBands(s: seq<Product>, nameLe: (string, string) -> bool, i: int, j: int)
    requires SortedBy(s, nameLe)
    requires 0 <= i < j < |s|
    ensures StatusPriority(s[i]) <= StatusPriority(s[j])
    ensures GetStockStatus(s[j]) == Out ==> GetStockStatus(s[i]) == Out
    ensures StatusPriority(s[i]) == StatusPriority(s[j]) ==> nameLe(s[i].name, s[j].name)
  {
    assert ProductLe(s[i], s[j], nameLe);
  }

  /** The comparator is a total preorder once the name order is. */
  lemma ProductOrder(nameLe: (string, string) -> bool)
    requires TotalPreorder(nameLe)
    ensures TotalPreorder(ProductCompare(nameLe))
  {
    forall x: Product, y: Product
      ensures ProductLe(x, y, nameLe) || ProductLe(y, x, nameLe)
    {
      ProductLeTotal(x, y, nameLe);
    }
    forall x: Product, y: Product, z: Product | ProductLe(x, y, nameLe) && ProductLe(y, z, nameLe)
      ensures ProductLe(x, z, nameLe)
    {
      ProductLeTransitive(x, y, z, nameLe);
    }
  }

  /** The in-place `sort` with the view's comparator. */
  method SortProducts(a: array<Product>, nameLe: (string, string) -> bool)
    requires TotalPreorder(nameLe)
    modifies a
    ensures SortedBy(a[..], nameLe)
    ensures multiset(a[..]) == multiset(old(a[..]))
    ensures TiesInOrder(a[..], old(a[..]), nameLe)
  {
    ProductOrder(nameLe);
    var le := ProductCompare(nameLe);
    InsertionSort(a, le);
    assert Sorted(a[..], le);
  }

  /** `sortedProducts`: the filtered products, copied into a fresh array and sorted there. */
  method VisibleProducts(ps: seq<Product>, f: Filters, nameLe: (string, string) -> bool)
    returns (r: seq<Product>)
    requires TotalPreorder(nameLe)
    ensures multiset(r) == multiset(FilterProducts(ps, f))
    ensures SortedBy(r, nameLe)
    ensures TiesInOrder(r, FilterProducts(ps, f), nameLe)
    ensures !IsActive(f) ==> multiset(r) == multiset(ps)
  {
    var filtered := FilterProducts(ps, f);
    var a := new Product[|filtered|](i requires 0 <= i < |filtered| => filtered[i]);
    assert a[..] == filtered;
    SortProducts(a, nameLe);
    r := a[..];
    if !IsActive(f) {
      DefaultFiltersKeepAll(ps);
    }
  }

  /** A stable sort leaves no choice: two lists that are both sorted by the view's
      comparator and keep the filtered order of ties are the same list. */
  lemma VisibleOrderDetermined(r1: seq<Product>, r2: seq<Product>, ps: seq<Product>, f: Filters,
                               nameLe: (string, string) -> bool)
    requires TotalPreorder(nameLe)
    requires SortedBy(r1, nameLe) && TiesInOrder(r1, FilterProducts(ps, f), nameLe)
    requires SortedBy(r2, nameLe) && TiesInOrder(r2, FilterProducts(ps, f), nameLe)
    ensures r1 == r2
  {
    var le := ProductCompare(nameLe);
    ProductOrder(nameLe);
    assert Sorted(r1, le) && Sorted(r2, le);
    StableSortUnique(r1, r2, le);
  }

  // ---------------------------------------------------------------------------
  // category options

  /** The default `sort()` order on strings, by character code. */
  predicate StringLess(a: string, b: string)
    decreases |a|
  {
    if a == [] then b != []
    else b != [] && (a[0] < b[0] || (a[0] == b[0] && StringLess(a[1..], b[1..])))
  }

  lemma {:induction false} StringLessIrreflexive(a: string)
    ensures !StringLess(a, a)
    decreases |a|
  {
    if a != [] {
      StringLessIrreflexive(a[1..]);
    }
  }

  lemma {:induction false} StringLessTransitive(a: string, b: string, c: string)
    requires StringLess(a, b) && StringLess(b, c)
    ensures StringLess(a, c)
    decreases |a|
  {
    if a != [] && a[0] == b[0] && b[0] == c[0] {
      StringLessTransitive(a[1..], b[1..], c[1..]);
    }
  }

  lemma {:induction false} StringLessTotal(a: string, b: string)
    requires a != b
    ensures StringLess(a, b) || StringLess(b, a)
    decreases |a|
  {
    if a != [] && b != [] && a[0] == b[0] {
      assert a == [a[0]] + a[1..] && b == [b[0]] + b[1..];
      StringLessTotal(a[1..], b[1..]);
    }
  }

  predicate StrictlySorted(s: seq<string>) {
    forall i, j :: 0 <= i < j < |s| ==> StringLess(s[i], s[j])
  }

  /** One insertion step of the category sort. */
  function InsertString(x: string, s: seq<string>): (r: seq<string>)
    requires StrictlySorted(s) && x !in s
    ensures StrictlySorted(r)
    ensures |r| == |s| + 1
    ensures forall y :: y in r <==> y == x || y in s
  {
    if s == [] then [x]
    else if StringLess(x, s[0]) then
      assert forall k :: 0 <= k < |s| ==> StringLess(x, s[k]) by {
        forall k | 0 <= k < |s|
          ensures StringLess(x, s[k])
        {
          if k > 0 {
            StringLessTransitive(x, s[0], s[k]);
          }
        }
      }
      [x] + s
    else
      StringLessTotal(x, s[0]);
      var rest := InsertString(x, s[1..]);
      assert forall y :: y in rest ==> StringLess(s[0], y);
      [s[0]] + rest
  }

  /** `.sort()` of distinct strings: strictly ascending, with the same elements. */
  function SortStrings(xs: seq<string>): (r: seq<string>)
    requires forall i, j :: 0 <= i < j < |xs| ==> xs[i] != xs[j]
    ensures StrictlySorted(r)
    ensures |r| == |xs|
    ensures forall y :: y in r <==> y in xs
  {
    if xs == [] then []
    else
      var init := xs[..|xs| - 1];
      assert xs == init + [xs[|xs| - 1]];
      InsertString(xs[|xs| - 1], SortStrings(init))
  }

  /** `categories`: each category once, in ascending order. */
  function CategoryOptions(ps: seq<Product>): (r: seq<string>)
    ensures StrictlySorted(r)
    ensures forall c :: c in r <==> c in CategoriesOf(ps)
  {
    SortStrings(Distinct(CategoriesOf(ps)))
  }

  /** A strictly ascending list never repeats a category. */
  lemma CategoryOptionsDistinct(ps: seq<Product>)
    ensures forall i, j :: 0 <= i < j < |CategoryOptions(ps)| ==> CategoryOptions(ps)[i] != CategoryOptions(ps)[j]
  {
    var r := CategoryOptions(ps);
    forall i, j | 0 <= i < j < |r|
      ensures r[i] != r[j]
    {
      StringLessIrreflexive(r[i]);
    }
  }

  // ---------------------------------------------------------------------------
  // state

  datatype ViewMode = Card | List

  class ProductView {
    var currentView: ViewMode
    var searchQuery: string
    var categoryFilter: string
    var stockFilter: string

    constructor()
      ensures currentView == Card && searchQuery == "" && categoryFilter == "all" && stockFilter == "all"
    {
      currentView := Card;
      searchQuery := "";
      categoryFilter := "all";
      stockFilter := "all";
    }

    function CurrentFilters(): Filters
      reads this
    {
      Filters(searchQuery, categoryFilter, stockFilter)
    }

    method SetSearchQuery(q: string)
      modifies this
      ensures searchQuery == q
      ensures categoryFilter == old(categoryFilter) && stockFilter == old(stockFilter)
      ensures currentView == old(currentView)
    {
      searchQuery := q;
    }

    method SetCategoryFilter(c: string)
      modifies this
      ensures categoryFilter == c
      ensures searchQuery == old(searchQuery) && stockFilter == old(stockFilter)
      ensures currentView == old(currentView)
    {
      categoryFilter := c;
    }

    method SetStockFilter(s: string)
      modifies this
      ensures stockFilter == s
      ensures searchQuery == old(searchQuery) && categoryFilter == old(categoryFilter)
      ensures currentView == old(currentView)
    {
      stockFilter := s;
    }

    method SetView(v: ViewMode)
      modifies this
      ensures currentView == v
      ensures CurrentFilters() == old(CurrentFilters())
    {
      currentView := v;
    }

    /** The two "clear" buttons: back to no search, all categories, all stock. */
    method ClearFilters()
      modifies this
      ensures CurrentFilters() == DefaultFilters && !IsActive(CurrentFilters())
      ensures currentView == old(currentView)
    {
      searchQuery := "";
      categoryFilter := "all";
      stockFilter := "all";
    }

    /** The products handed to the card or list view. */
    method Visible(ps: seq<Product>, nameLe: (string, string) -> bool) returns (r: seq<Product>)
      requires TotalPreorder(nameLe)
      ensures multiset(r) == multiset(FilterProducts(ps, CurrentFilters()))
      ensures SortedBy(r, nameLe)
      ensures TiesInOrder(r, FilterProducts(ps, CurrentFilters()), nameLe)
    {
      r := VisibleProducts(ps, Filters(searchQuery, categoryFilter, stockFilter), nameLe);
    }
  }
}
