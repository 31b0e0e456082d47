# ada-stock: a verified model of the inventory UI's logic

ada-stock is a restaurant inventory front end written in React. This project models the deterministic logic that lives inside its page and components, and proves what that logic promises. It covers:

- the product list the page owns, and its quantity-update, add, edit and delete handlers (`StockPage`);
- the filter-then-sort query over products, and the category options of the products view (`ProductQuery`, `Sorting`);
- the stock-status classifier and the quantity arithmetic repeated in every card, list and dashboard view (`Stock`, `ProductViews`);
- the dashboard's aggregates (`Dashboard`);
- localization:
  - the locale cookie (`I18nConfig`);
  - the message-tree lookup with its English and key fallbacks, and `{name}` interpolation (`Translation`);
  - unit labels (`UnitTranslation`);
- validation in the add-product and edit-product modals (`AddProductForm`, `EditProductForm`);
- the pure parts of the API client (`ApiClient`): base URL, response envelope, request headers and `getProducts` query strings.

JavaScript behaviour that matters is modelled explicitly (`JsText`):

- `trim` with its white-space set;
- ASCII `toLowerCase`;
- `split`, `includes` and `startsWith`;
- `parseInt`, as an `Option<int>` whose `None` is NaN;
- `x || 0`;
- `Number.prototype.toString` for integers below 10^21, written as digits.

Several inputs are abstract or passed in as parameters:

- Backend outcomes, today's date, the clock, `window.confirm` answers and `document.cookie` text are parameters.
- `localeCompare` is an abstract total preorder `nameLe`.
- The message catalogs are an abstract message tree.

The JavaScript functions with no contract of their own are defined once and described by the lemmas beside them:

- `parseInt` is `JsText.ParseInt`;
- the `{name}` replacement in `t` is `Translation.Interpolate`;
- `searchParams.toString()` is `ApiClient.Serialize`;
- the dashboard's category statistics are `Dashboard.CategoryStats`;
- `getStockColor` is `Stock.StockColor`.

Product ids are strings throughout, although some components declare them as numbers.

State that the source updates in place is modelled as classes whose fields the methods reassign:

- the page's product list;
- the views' edit state and filters;
- the modal forms;
- the locale provider.

The one in-place algorithm, the products view sorting a fresh array, is a generic insertion sort over an `array`. It is proved sorted, a permutation and stable, as `Array.prototype.sort` is required to be: elements with equal keys keep their order.

## Model

| member | source | states |
|---|---|---|
| JsText.Trim | src/components/AddProductModalLocalized.tsx:98 | the result is a slice of the input that neither starts nor ends with white space, and what it drops on either side is all white space; it is empty exactly when the input is all white space |
| JsText.TrimIdempotent | src/components/AddProductModalLocalized.tsx:110 | trimming an already trimmed name changes nothing |
| JsText.ToLowerIdempotent | src/components/ProductView.tsx:40-41 | lower-casing twice is lower-casing once |
| JsText.ToLower | src/components/ProductView.tsx:40-41 | same length, each character mapped by the ASCII lower-case map |
| JsText.IncludesAt | src/components/ProductView.tsx:40-41 | `includes` holds exactly when the text starts with the part at some position |
| JsText.RemoveSpaces | src/components/ProductListViewLocalized.tsx:152 | `replace(/\s+/g, '')` leaves no white space and never lengthens the text |
| JsText.RemoveSpacesAppend | src/components/ProductListViewLocalized.tsx:152 | removing white space from a concatenation removes it from each part, keeping the order |
| JsText.RemoveSpacesChar | src/components/ProductListViewLocalized.tsx:152 | a white-space character is dropped and any other character is kept |
| JsText.ToLowerAppend | src/components/ProductView.tsx:40-41 | lower-casing a concatenation lower-cases each part |
| JsText.Split | src/i18n/config.ts:8 | at least one piece, none holding the separator, the first being the text before the first separator |
| JsText.JoinSplit | src/i18n/config.ts:8 | joining the pieces of a split with the separator gives back the original text |
| JsText.SplitJoin | src/i18n/config.ts:10 | splitting a join of separator-free pieces gives back the pieces |
| JsText.ParseIntOfIntToString | src/components/ProductCardViewLocalized.tsx:41-47 | `parseInt(n.toString())` is `n` for every integer whose `toString` is its decimal digits; in JavaScript that is every safe integer, below 2^53 in magnitude |
| JsText.ParseIntNegative | src/components/AddProductModalLocalized.tsx:100 | `parseInt` is negative only when the first non-space character is `-` |
| JsText.ParseIntNoDigit | src/components/AddProductModalLocalized.tsx:100 | text without a decimal digit parses to NaN |
| Seqs.Filter | src/app/page.tsx:198 | never more elements than the input |
| Seqs.FilterMembers | src/app/page.tsx:198 | an element is kept exactly when it is in the input and passes |
| Seqs.FilterAppend | src/app/page.tsx:198 | filtering distributes over concatenation, so relative order is kept |
| Seqs.Distinct | src/components/StockDashboardLocalized.tsx:37 | `[...new Set(xs)]` holds every value of `xs` exactly once |
| Seqs.DistinctFirstAppearance | src/components/StockDashboardLocalized.tsx:37 | the distinct values appear in the order of their first occurrence |
| Seqs.Take | src/components/StockDashboardLocalized.tsx:403 | `slice(0, n)` is a prefix of length `min(n, length)` |
| Stock.GetStockStatus | src/components/ProductCardViewLocalized.tsx:68-72 | out exactly when the quantity is 0; low exactly when it is non-zero and at most the minimum; good exactly when it is non-zero and above the minimum |
| Stock.StockColorUnknown | src/components/ProductList.tsx:52-59 | an unknown status string gets the classes of `good` |
| Stock.StockColorDistinct | src/components/ProductList.tsx:52-59 | the three statuses get three different class strings |
| Stock.StatusLabelInjective | src/components/ProductCardView.tsx:139 | the label (`Out` for out, the status name otherwise) tells the statuses apart |
| Stock.QuickUpdateQuantity | src/components/ProductCardViewLocalized.tsx:36-39 | `max(0, q + change)` is never negative and is `q + change` unless that is negative |
| Stock.EditSaveQuantity | src/components/ProductCardViewLocalized.tsx:46-50 | the saved quantity is never negative; it is 0 exactly when the text is NaN or at most 0, and the parsed number otherwise |
| Stock.EditSaveUnchanged | src/components/ProductCardViewLocalized.tsx:41-50 | starting an edit and saving without typing sends a non-negative quantity back unchanged |
| Stock.EnabledDecrementExact | src/components/ProductCardViewLocalized.tsx:289-326 | an enabled -1/-5/-10 button sends exactly `q - 1`, `q - 5` or `q - 10`, except -1 on a negative quantity, the one case the `disabled` thresholds let through to the clamp |
| Stock.StatsPartition | src/components/ProductCardViewLocalized.tsx:127-145 | for non-negative products the out, low and good counts add up to the number of products |
| Stock.StatsMatchStatus | src/components/ProductCardView.tsx:92-110 | for a non-negative product each stats band holds exactly when the classifier gives that status |
| Stock.NegativeQuantityUncounted | src/components/ProductListViewLocalized.tsx:285-297 | a negative quantity at or below the minimum is classed low but is in none of the three counts |
| Stock.CategoriesOf | src/components/ProductView.tsx:36 | one category per product, in order |
| Stock.MergePatch | src/app/page.tsx:176-180 | the merged product keeps its id, takes each field the patch carries and its old value otherwise, and is dated today |
| Stock.MergeEmptyPatch | src/app/page.tsx:185-189 | an empty patch only changes the date |
| Stock.MergePatchTwice | src/app/page.tsx:176-180 | merging the same patch twice equals merging it once |
| Stock.MergeFullPatch | src/app/page.tsx:176-180 | a patch with every field replaces everything except the id |
| I18nConfig.FromCode | src/i18n/config.ts:12 | a code is accepted exactly when some locale has it, and the locale returned has that code |
| I18nConfig.FromCodeOfCode | src/i18n/config.ts:1-2 | every locale's code is accepted as that locale |
| I18nConfig.FindLocaleEntry | src/i18n/config.ts:9 | the index of the first entry whose trimmed form starts with `locale=`, with none before it |
| I18nConfig.LocaleEntryHasValue | src/i18n/config.ts:9-10 | when a locale entry exists, the value between its first and second `=` is defined and holds no `=` |
| I18nConfig.GetLocale | src/i18n/config.ts:5-17 | French without a window; a supported cookie value is returned as that locale; a missing or unsupported one gives French |
| I18nConfig.CookieRoundTrip | src/i18n/config.ts:8-16 | a cookie string that starts with `locale=<code>;` reads back as that locale, whatever follows |
| Translation.Step | src/components/LocaleProvider.tsx:50 | `value?.[k]` is defined exactly when the value is a subtree holding `k`, and is that child |
| Translation.WalkAppend | src/components/LocaleProvider.tsx:49-51 | walking a path is walking its prefix and then the rest |
| Translation.WalkUndefined | src/components/LocaleProvider.tsx:50 | once the walk is undefined it stays undefined |
| Translation.NestedKey | src/components/LocaleProvider.tsx:46-53 | a `section.name` key reaches the string stored under that section and name |
| Translation.Lookup | src/components/LocaleProvider.tsx:45-60 | the active locale's string if the key resolves to one; else the English string; else the key |
| Translation.SubtreeKeyEchoes | src/components/LocaleProvider.tsx:53-59 | a key that ends at a subtree in both trees is returned as the key |
| Translation.EnglishFallsBackToKey | src/components/LocaleProvider.tsx:53-59 | in English a missing key is echoed and a present one is returned |
| Translation.PlaceholderLength | src/components/LocaleProvider.tsx:64 | a match of `\{(\w+)\}` at the start: a brace, one or more word characters and a closing brace |
| Translation.PlaceholderLengthOf | src/components/LocaleProvider.tsx:64 | a leading `{name}` with a non-empty word-character name is matched, brace to brace |
| Translation.InterpolateNoParams | src/components/LocaleProvider.tsx:64-66 | with an empty parameter object every placeholder is kept verbatim |
| Translation.InterpolateNoBrace | src/components/LocaleProvider.tsx:64 | a text without `{` is returned unchanged |
| Translation.InterpolatePlain | src/components/LocaleProvider.tsx:64 | a character other than `{` passes through unchanged |
| Translation.InterpolatePlaceholder | src/components/LocaleProvider.tsx:64-66 | a leading `{name}` becomes the parameter's text when that is non-empty, and stays verbatim otherwise |
| Translation.InterpolateSingle | src/components/LocaleProvider.tsx:63-66 | a text with one placeholder becomes the text before it, the replacement and the text after it |
| Translation.InterpolatePrefix | src/components/LocaleProvider.tsx:64 | a brace-free prefix passes through, and interpolation continues after it |
| Translation.TranslateWithoutPlaceholders | src/components/LocaleProvider.tsx:63-69 | parameters do not change a message that has no `{` |
| Translation.LocaleCookie | src/components/LocaleProvider.tsx:42 | the written cookie starts with `locale=<code>;` |
| Translation.LocaleCookieAttributes | src/components/LocaleProvider.tsx:42 | the cookie is `locale=<code>`, `path=/` and `max-age=31536000` (one year in seconds), separated by `;` |
| Translation.LocaleCookieRoundTrip | src/components/LocaleProvider.tsx:39-43 | the cookie `setLocale` writes reads back as the locale that was set |
| Translation.LocaleProvider.constructor | src/components/LocaleProvider.tsx:26 | the provider starts in French, with no cookie written |
| Translation.LocaleProvider.RestoreFromCookie | src/components/LocaleProvider.tsx:28-37 | a supported cookie value is adopted and anything else keeps the current locale; from the initial state the result is `getLocale` |
| Translation.LocaleProvider.SetLocale | src/components/LocaleProvider.tsx:39-43 | the locale becomes `l`, the cookie for `l` is written, and that cookie reads back as `l` |
| Translation.LocaleProvider.T | src/components/LocaleProvider.tsx:45-70 | the loop-based `t` returns exactly the lookup with fallbacks, interpolated when parameters are given |
| Translation.WalkLoop | src/components/LocaleProvider.tsx:47-51 | the `for` loop over the key parts ends on the walk of the whole path |
| UnitTranslation.TranslateUnit | src/utils/unitTranslation.ts:7-12 | the unit itself when `t` echoes `units.<unit>`, and otherwise `t`'s result |
| UnitTranslation.TranslateUnitMissing | src/utils/unitTranslation.ts:7-12 | a unit missing from both catalogs is shown as itself |
| UnitTranslation.TranslateUnitFound | src/utils/unitTranslation.ts:7-12 | a unit found in the active catalog is shown by its translation |
| UnitTranslation.GetAvailableUnits | src/utils/unitTranslation.ts:14-25 | ten entries in `baseUnits` order, each with the unit as value, its translation as label, and `label (unit)` as display name |
| UnitTranslation.AvailableUnitValuesDistinct | src/utils/unitTranslation.ts:15-18 | no unit is offered twice |
| UnitTranslation.AvailableUnitsUntranslated | src/utils/unitTranslation.ts:14-25 | with an echoing `t`, every label is the bare unit |
| ProductViews.HandleQuickUpdate | src/components/ProductCardViewLocalized.tsx:36-39 | the update is for the product's id, with `max(0, q + change)` |
| ProductViews.HandleDeleteProduct | src/components/ProductCardViewLocalized.tsx:62-66 | the delete is forwarded, with the product's id, exactly when the confirm is accepted |
| ProductViews.ConfirmDeleteNamesProduct | src/components/ProductCardViewLocalized.tsx:63 | a confirm template with one `{name}` shows the product's name in its place |
| ProductViews.StatusText | src/components/ProductCardViewLocalized.tsx:96-107 | each known status gets its message, and an unknown status is shown as written |
| ProductViews.CategoryLabel | src/components/ProductCardViewLocalized.tsx:196-198 | the translation of `categories.<c>` when it differs from the key, the raw category otherwise |
| ProductViews.NormalizeCategory | src/components/ProductListViewLocalized.tsx:151-153 | the lookup key part has no white space and no upper-case letter |
| ProductViews.NormalizeCategoryAppend | src/components/ProductListViewLocalized.tsx:151-153 | normalizing a concatenation normalizes each part, in order |
| ProductViews.NormalizeCategoryChar | src/components/ProductListViewLocalized.tsx:151-153 | a white-space character is dropped and any other is lower-cased, so the key is the category's non-space characters lower-cased, in order |
| ProductViews.NormalizeCategoryIdempotent | src/components/ProductListViewLocalized.tsx:151-153 | normalizing a normalized category changes nothing |
| ProductViews.ListCategoryLabel | src/components/ProductListViewLocalized.tsx:151-153 | the translation of `categories.<key>` whenever `t` returns something other than that key, and the raw category when it echoes the key |
| ProductViews.ListCategoryKeyShared | src/components/ProductListViewLocalized.tsx:151-153 | categories differing only in case and spacing get the same translated label |
| ProductViews.ViewUnitLabel | src/components/ProductCardViewLocalized.tsx:32-34 | `t('units.' + u) \|\| u`, as written: `t`'s result unless it is empty |
| ProductViews.ViewUnitLabelShowsKey | src/components/ProductCardViewLocalized.tsx:32-34 | on a double catalog miss the view shows `units.<u>`, while `translateUnit` shows `u` |
| ProductViews.ViewUnitLabelAgrees | src/components/ProductCardViewLocalized.tsx:32-34 | when a unit is translated, the view label and `translateUnit` agree |
| ProductViews.ProductViewState.constructor | src/components/ProductCardViewLocalized.tsx:26-29 | nothing is being edited and the modal is closed |
| ProductViews.ProductViewState.HandleEditStart | src/components/ProductCardViewLocalized.tsx:41-44 | the product is being edited, with its quantity as text |
| ProductViews.ProductViewState.SetEditValue | src/components/ProductCardViewLocalized.tsx:217 | only the typed value changes |
| ProductViews.ProductViewState.HandleEditSave | src/components/ProductCardViewLocalized.tsx:46-50 | sends the clamped parse of the typed value, stops editing and keeps the typed value |
| ProductViews.ProductViewState.HandleEditCancel | src/components/ProductCardViewLocalized.tsx:52-55 | stops editing and clears the typed value |
| ProductViews.ProductViewState.HandleEditProduct | src/components/ProductCardViewLocalized.tsx:57-60 | opens the modal on that product |
| ProductViews.ProductViewState.CloseEditModal | src/components/ProductListViewLocalized.tsx:307-310 | closes the modal and forgets the product |
| ProductViews.EditRoundTrip | src/components/ProductCardViewLocalized.tsx:41-50 | saving the text an edit starts with sends the quantity back, or 0 for a negative one |
| Dashboard.UpdatedOn | src/components/StockDashboardLocalized.tsx:32-35 | exactly the products whose `lastUpdated` is today |
| Dashboard.UpdatedOnAppend | src/components/StockDashboardLocalized.tsx:32-35 | the filter keeps the order of the list and every copy of a product |
| Dashboard.UpdatedOnOne | src/components/StockDashboardLocalized.tsx:32-35 | a single product is kept exactly when it was updated today |
| Dashboard.OutOfStockIsLowStock | src/components/StockDashboardLocalized.tsx:30-31 | with non-negative minimums every out-of-stock product is also in the low list |
| Dashboard.UrgentLowIsLowBand | src/components/StockDashboardLocalized.tsx:189 | the urgent low list is the positive-and-at-most-minimum band |
| Dashboard.UrgentListsPartition | src/components/StockDashboardLocalized.tsx:117-189 | the urgent out and low lists are disjoint; with non-negative quantities they are together exactly the out or at-or-below-minimum products |
| Dashboard.ShowsUrgentWhenLow | src/components/StockDashboardLocalized.tsx:109 | with non-negative minimums the urgent section shows exactly when the low list is non-empty |
| Dashboard.ProductsIn | src/components/StockDashboardLocalized.tsx:40 | exactly the products of that category |
| Dashboard.StatsFor | src/components/StockDashboardLocalized.tsx:38-42 | one stat per category, in the same order |
| Dashboard.CategoryStatsNames | src/components/StockDashboardLocalized.tsx:37-42 | the stat names are distinct and are exactly the categories that occur |
| Dashboard.CategoryStatsCoverProducts | src/components/StockDashboardLocalized.tsx:37-42 | the per-category product counts add up to the number of products |
| Dashboard.LowStockInIsLowProductsIn | src/components/StockDashboardLocalized.tsx:41 | a category's `lowStock` is the number of its products at or below the minimum |
| Dashboard.CategoryLowStockAddsUp | src/components/StockDashboardLocalized.tsx:41 | the per-category low counts add up to the length of the low list |
| Dashboard.MoreCount | src/components/StockDashboardLocalized.tsx:413-416 | the "+n more" line appears exactly when a category has more than 3 products |
| Dashboard.PreviewAccountsForAll | src/components/StockDashboardLocalized.tsx:403-416 | the 3-product preview plus the "+n" count cover the whole category |
| Dashboard.RecentActivity | src/components/StockDashboardLocalized.tsx:434 | the first five of today's products in list order (a prefix of `UpdatedOn`), or all of them when there are fewer |
| Dashboard.Toggle | src/components/StockDashboardLocalized.tsx:67-69 | collapses the category that was open, and opens any other |
| Dashboard.ToggleTwice | src/components/StockDashboardLocalized.tsx:67-69 | clicking the same card twice restores the previous state exactly when no other card was open |
| Dashboard.DashboardState.constructor | src/components/StockDashboardLocalized.tsx:24-26 | nothing edited, no typed value, no category open |
| Dashboard.DashboardState.SetEditValue | src/components/StockDashboardLocalized.tsx:134 | only the typed value changes |
| Dashboard.DashboardState.HandleEditStart | src/components/StockDashboardLocalized.tsx:45-48 | the product is being edited, with its quantity as text |
| Dashboard.DashboardState.HandleEditSave | src/components/StockDashboardLocalized.tsx:50-55 | sends the clamped parse of the typed value and clears both edit fields |
| Dashboard.DashboardState.HandleEditCancel | src/components/StockDashboardLocalized.tsx:57-60 | clears both edit fields |
| Dashboard.DashboardState.ToggleCategoryExpansion | src/components/StockDashboardLocalized.tsx:67-69 | the expansion state becomes the toggle of the old one |
| Sorting.AdjacentSortedIsSorted | src/components/ProductView.tsx:54 | under a total preorder, an adjacent-sorted sequence is sorted |
| Sorting.InsertionSort | src/components/ProductView.tsx:54-70 | the array ends sorted by `le`, is a permutation of what it held, and is stable: the elements of equal key keep their order |
| Sorting.SwapKeepsEquivalents | src/components/ProductView.tsx:54-70 | exchanging two neighbours of different key keeps the order of every set of equal-key elements |
| Sorting.StableSortUnique | src/components/ProductView.tsx:54-70 | two sorted sequences whose equal-key elements occur in the same order are equal, so a stable sort has one result |
| ProductQuery.IsActiveExactly | src/components/ProductView.tsx:181-184 | a filter is active exactly when it differs from the cleared filters |
| ProductQuery.FilterProducts | src/components/ProductView.tsx:39-51 | exactly the products that pass all three tests, never more than the input |
| ProductQuery.FilterProductsAppend | src/components/ProductView.tsx:39-51 | filtering a concatenation filters each part, so order and repeated products are kept |
| ProductQuery.FilterProductsOne | src/components/ProductView.tsx:39-51 | a single product is kept exactly when it passes the tests |
| ProductQuery.EmptySearchMatches | src/components/ProductView.tsx:40-41 | the empty query matches every product |
| ProductQuery.SearchIgnoresQueryCase | src/components/ProductView.tsx:40-41 | the query's letter case does not matter |
| ProductQuery.DefaultFiltersKeepAll | src/components/ProductView.tsx:39-51 | with the cleared filters the list is unchanged |
| ProductQuery.NoResultsNeedsActiveFilter | src/components/ProductView.tsx:223 | an empty result from a non-empty list means some filter is active |
| ProductQuery.StockFilterIsStatsBand | src/components/ProductView.tsx:45-48 | the stock filters alone keep the out, low and good bands of the stats counts; an unknown value keeps nothing |
| ProductQuery.StockFiltersExclusive | src/components/ProductView.tsx:45-48 | a non-negative product passes exactly one of `out`, `low`, `good` |
| ProductQuery.StatusPriority | src/components/ProductView.tsx:55-59 | 0, 1, 2 exactly for out, low, good |
| ProductQuery.ProductLeTotal | src/components/ProductView.tsx:61-69 | any two products are comparable |
| ProductQuery.ProductLeTransitive | src/components/ProductView.tsx:61-69 | the comparator's order is transitive |
| ProductQuery.ProductOrder | src/components/ProductView.tsx:61-69 | priority then name is a total preorder |
| ProductQuery.SortedBands | src/components/ProductView.tsx:54-69 | along a sorted list the priority never decreases, out-of-stock products come first, and equal priorities are in name order |
| ProductQuery.SortProducts | src/components/ProductView.tsx:54-70 | the array ends sorted by priority then name, as a permutation of what it held, with products of equal priority and equal name order kept in their previous order |
| ProductQuery.VisibleProducts | src/components/ProductView.tsx:39-70 | the result is sorted, a permutation of the filtered products (of all products when no filter is active), and keeps tied products in their filtered order |
| ProductQuery.VisibleOrderDetermined | src/components/ProductView.tsx:39-70 | only one list is sorted by the view's comparator and keeps ties in filtered order, so the visible order is fully determined |
| ProductQuery.StringLessTransitive | src/components/ProductView.tsx:36 | the default `sort` order is transitive |
| ProductQuery.StringLessTotal | src/components/ProductView.tsx:36 | the default `sort` order relates any two different strings |
| ProductQuery.SortStrings | src/components/ProductView.tsx:36 | the result is strictly sorted with the same elements |
| ProductQuery.CategoryOptions | src/components/ProductView.tsx:36 | sorted without repeats, holding exactly the categories that occur |
| ProductQuery.CategoryOptionsDistinct | src/components/ProductView.tsx:36 | no category is offered twice |
| ProductQuery.ProductView.constructor | src/components/ProductView.tsx:29-32 | card view, empty search, both filters `all` |
| ProductQuery.ProductView.SetSearchQuery | src/components/ProductView.tsx:85 | only the search query changes |
| ProductQuery.ProductView.SetCategoryFilter | src/components/ProductView.tsx:100 | only the category filter changes |
| ProductQuery.ProductView.SetStockFilter | src/components/ProductView.tsx:116 | only the stock filter changes |
| ProductQuery.ProductView.SetView | src/components/ProductView.tsx:129 | only the view mode changes |
| ProductQuery.ProductView.ClearFilters | src/components/ProductView.tsx:181-185 | all three filters return to their defaults, so none is active |
| ProductQuery.ProductView.Visible | src/components/ProductView.tsx:39-70 | the visible list is the stable sort of the products that pass the current filters: sorted, a permutation, with ties in filtered order |
| AddProductForm.WithField | src/components/AddProductModalLocalized.tsx:130-131 | only the named field takes the new value |
| AddProductForm.Validate | src/components/AddProductModalLocalized.tsx:96-101 | each field has an error exactly when its rule fails, with that field's message; the unit never has one |
| AddProductForm.ValidateEmptyIff | src/components/AddProductModalLocalized.tsx:103-106 | there are no errors exactly when the name, category and both counts pass |
| AddProductForm.NonNumericCountAccepted | src/components/AddProductModalLocalized.tsx:100-101 | a count with no digits passes validation and reaches the payload as NaN |
| AddProductForm.MappingOf | src/components/AddProductModalLocalized.tsx:79-84 | every fetched name is mapped, and only fetched names are |
| AddProductForm.MappingLastWins | src/components/AddProductModalLocalized.tsx:80-84 | a name maps to the id of its last category |
| AddProductForm.CategoriesUrl | src/components/AddProductModalLocalized.tsx:72-73 | the categories come from port 3055 of the page's host, or of localhost outside a browser |
| AddProductForm.CategoryIdFor | src/components/AddProductModalLocalized.tsx:112 | the mapped id when it is non-empty, else the first category's id, else none |
| AddProductForm.Payload | src/components/AddProductModalLocalized.tsx:109-116 | trimmed name, category, parsed counts, unit; a category id only from the localized modal |
| AddProductForm.PayloadWellFormed | src/components/AddProductModalLocalized.tsx:98-116 | a submitted name is non-empty and trimmed, and a parsed count is never negative |
| AddProductForm.Submit | src/components/AddProductModalLocalized.tsx:93-127 | a product is sent exactly when validation finds nothing; with errors they are recorded and the form kept, otherwise the payload goes out and the form and errors reset |
| AddProductForm.SubmitRejects | src/components/AddProductModalLocalized.tsx:103-106 | a form with a name error sends nothing and records exactly the validation errors |
| AddProductForm.BlankFormRejected | src/components/AddProductModalLocalized.tsx:96-101 | a blank form, such as the one a send leaves, sends nothing and shows the name, category and both count errors |
| AddProductForm.AddProductModal.constructor | src/components/AddProductModalLocalized.tsx:51-61 | empty form with unit `kg`, no errors, categories or mapping |
| AddProductForm.AddProductModal.ApplyCategoriesResponse | src/components/AddProductModalLocalized.tsx:76-88 | a successful response sets the categories and their mapping; anything else changes nothing |
| AddProductForm.AddProductModal.HandleSubmit | src/components/AddProductModalLocalized.tsx:93-128 | the product sent, the errors and the form are those `Submit` gives, the modal closes exactly when a product is sent, and the categories are untouched |
| AddProductForm.AddProductModal.HandleInputChange | src/components/AddProductModalLocalized.tsx:130-135 | sets one field, blanks that field's shown error, and leaves the other errors as they were |
| AddProductForm.BuildCategoryMapping | src/components/AddProductModalLocalized.tsx:79-84 | the `forEach` builds exactly the mapping of the fetched list |
| EditProductForm.FormOf | src/components/EditProductModal.tsx:44-54 | the form takes exactly the product's five fields |
| EditProductForm.PatchOf | src/components/EditProductModal.tsx:76-82 | the patch carries every field, with the name trimmed |
| EditProductForm.Submission | src/components/EditProductModal.tsx:56-85 | no product does nothing; then blank name, negative quantity, negative minimum are checked in that order; the update happens exactly when all pass |
| EditProductForm.SaveUnchangedForm | src/components/EditProductModal.tsx:44-85 | loading a valid product and saving at once gives it back with a trimmed name and today's date |
| EditProductForm.UpdatedPatchValid | src/components/EditProductModal.tsx:61-82 | a sent patch has a non-empty trimmed name and non-negative counts |
| EditProductForm.CoerceCount | src/components/EditProductModal.tsx:169 | a non-number becomes 0, and a number, negative or not, is kept |
| EditProductForm.CoerceCountOfShown | src/components/EditProductModal.tsx:184 | a count shown in the input reads back as itself |
| EditProductForm.EditProductModal.constructor | src/components/EditProductModal.tsx:25-31 | the form starts blank with zero counts |
| EditProductForm.EditProductModal.LoadProduct | src/components/EditProductModal.tsx:44-54 | a product replaces the whole form; no product leaves it |
| EditProductForm.EditProductModal.SetTextField | src/components/EditProductModal.tsx:87-92 | only the named text field changes |
| EditProductForm.EditProductModal.SetCountField | src/components/EditProductModal.tsx:165-185 | only the named count changes, to the coerced value |
| EditProductForm.EditProductModal.HandleSubmit | src/components/EditProductModal.tsx:56-85 | the outcome is the ordered checks' result, and the modal closes exactly on an update |
| ApiClient.GetApiBaseUrl | src/services/api.ts:2-22 | a non-empty environment URL plus `/api/v1`; otherwise the network host's URL on that host; otherwise localhost |
| ApiClient.BaseUrlEndsInApiPath | src/services/api.ts:2-22 | every base URL ends in `/api/v1` |
| ApiClient.Request | src/services/api.ts:118-131 | data exactly for a 2xx JSON envelope with `success`; otherwise the server's message, `HTTP error! status: N`, `Unknown error` or `API request failed` as the case requires |
| ApiClient.RequestErrorNeverBlank | src/services/api.ts:120-129 | a thrown message is never empty |
| ApiClient.ServerMessageWins | src/services/api.ts:120-123 | a non-empty server message is thrown whatever the status |
| ApiClient.CallerHeadersDropContentType | src/services/api.ts:110-116 | caller headers without `Content-Type` leave it out of the request |
| ApiClient.MergedHeaders | src/services/api.ts:111-114 | the JSON content type is always present and is `application/json` unless the caller sets it; each caller header wins on its key; no other key appears |
| ApiClient.HeadersAgreeWithoutCallerHeaders | src/services/api.ts:110-116 | without caller headers the written and the merged headers agree |
| ApiClient.Utf8 | src/services/api.ts:185 | one to four bytes below 256, a single byte exactly for ASCII, a lead byte in the range for its length and continuation bytes in `0x80..0xBF` |
| ApiClient.Utf8Decodes | src/services/api.ts:185 | decoding the bytes by the UTF-8 bit layout gives back the character |
| ApiClient.EncodeChar | src/services/api.ts:185 | a safe character is kept, a space becomes `+`, any other character becomes the percent-encoding of its UTF-8 bytes, and every output character is safe, `+` or `%` |
| ApiClient.PercentByte | src/services/api.ts:185 | `%` and two upper-case hex digits whose value is the byte |
| ApiClient.PercentBytesAppend | src/services/api.ts:185 | percent-encoding a concatenation encodes each part in turn |
| ApiClient.PercentBytesAt | src/services/api.ts:185 | each byte's `%XY` sits between the encodings of the bytes before and after it |
| ApiClient.PercentBytes | src/services/api.ts:185 | three characters per byte, each `%` or an upper-case hex digit |
| ApiClient.FormEncode | src/services/api.ts:185 | every output character is safe, `+` or `%`, and the encoding is never shorter than the text |
| ApiClient.FormEncodeHasNoSeparators | src/services/api.ts:185 | an encoded name or value holds no `&` and no `=` |
| ApiClient.FormEncodeSafe | src/services/api.ts:185 | text of safe characters is sent as written |
| ApiClient.SerializeIsJoin | src/services/api.ts:185 | `searchParams.toString()` is the encoded `name=value` pairs joined by `&` |
| ApiClient.SerializeSplits | src/services/api.ts:185 | the query string splits on `&` into one piece per pair, and each piece on `=` into the encoded name and value |
| ApiClient.DefinedPairs | src/services/api.ts:178-182 | never more pairs than entries |
| ApiClient.DefinedPairsKeys | src/services/api.ts:178-182 | every defined parameter is sent, every pair sent comes from a defined parameter, and with none defined nothing is |
| ApiClient.DefinedPairsAppend | src/services/api.ts:178-182 | the parameters are appended in entry order |
| ApiClient.AppendDefined | src/services/api.ts:177-183 | the `forEach` appends exactly the defined pairs, in order |
| ApiClient.ProductsEndpoint | src/services/api.ts:186 | `?` appears only before a non-empty query |
| ApiClient.SerializeEmpty | src/services/api.ts:185-186 | the query is empty exactly when no pair is defined |
| ApiClient.GetProductsEndpoint | src/services/api.ts:164-188 | the endpoint is `/products` followed by the query of the defined parameters; without parameters it is bare |
| StockPage.DatePart | src/app/page.tsx:67 | the part before the first `T`, a prefix with no `T` |
| StockPage.DatePartOfTimestamp | src/app/page.tsx:67 | the date of `date + "T" + time` is `date` |
| StockPage.CategoryNameOf | src/app/page.tsx:64 | the category's name when present and non-empty, `other` otherwise |
| StockPage.ToLocal | src/app/page.tsx:61-69 | the backend fields, dated with `updated_at`'s day or today without one |
| StockPage.ToLocalAll | src/app/page.tsx:61-69 | one converted product per backend product, in order |
| StockPage.ToLocalDate | src/app/page.tsx:67 | a timestamped product is dated with its timestamp's day |
| StockPage.LoadErrorText | src/app/page.tsx:74 | an error's message, or `Failed to load products` |
| StockPage.UpdateWhere | src/app/page.tsx:98-102 | same length; products with the id are changed and all others kept |
| StockPage.UpdateUnknownId | src/app/page.tsx:98-102 | an unknown id leaves the list unchanged |
| StockPage.UpdateKeepsIds | src/app/page.tsx:176-180 | an id-preserving change keeps every id in place |
| StockPage.SetQuantity | src/app/page.tsx:98-102 | every product with the id gets the new quantity and today's date; all others are unchanged; length and order are kept |
| StockPage.SetQuantityTwice | src/app/page.tsx:98-102 | repeating the update changes nothing more |
| StockPage.SetQuantityStatus | src/app/page.tsx:98-102 | the updated product is classed by its new quantity |
| StockPage.MergeInto | src/app/page.tsx:176-180 | products with the id are merged with the patch, all others unchanged |
| StockPage.QuantityPatchIsSetQuantity | src/app/page.tsx:166-189 | a patch with only a quantity is the quantity update |
| StockPage.RemoveId | src/app/page.tsx:198 | exactly the products with another id remain |
| StockPage.RemoveIdAppend | src/app/page.tsx:198 | deletion preserves the relative order of the rest |
| StockPage.RemoveUnknownId | src/app/page.tsx:203 | an unknown id leaves the list unchanged |
| StockPage.RemoveOnly | src/app/page.tsx:198 | with unique ids, deleting the product at `k` removes exactly that element and keeps the rest in order |
| StockPage.RemoveIdTwice | src/app/page.tsx:198 | deleting twice is deleting once |
| StockPage.CreateCategoryId | src/app/page.tsx:119-123 | the form's non-empty id, else the first category's non-empty id; none exactly when neither exists |
| StockPage.CreatePayload | src/app/page.tsx:125-135 | unit defaults to `pcs`, each count is sent as its value or 0 when falsy, and the category id is the chosen one |
| StockPage.CreatePayloadCounts | src/app/page.tsx:132-133 | a NaN count is sent as 0 and a number as itself |
| StockPage.UpdatePayload | src/app/page.tsx:166-171 | name and unit only when non-empty, each count whenever defined |
| StockPage.UpdatePayloadIgnoresCategory | src/app/page.tsx:166-171 | the category never affects the request body |
| StockPage.OfflineProduct | src/app/page.tsx:154-160 | the form's fields with a clock-based id and today's date |
| StockPage.AddedProduct | src/app/page.tsx:115-162 | the backend's product when categories load, an id exists and creation succeeds; the offline product otherwise |
| StockPage.SentCreate | src/app/page.tsx:118-137 | the create request is sent exactly when categories load and a category id exists |
| StockPage.StockPage.constructor | src/app/page.tsx:36-40 | no products, loading, no error, modal closed, dashboard shown |
| StockPage.StockPage.LoadProducts | src/app/page.tsx:48-91 | loading ends false; success shows the converted products with no error; failure sets the error and shows exactly the 8 mock products |
| StockPage.StockPage.UpdateProductQuantity | src/app/page.tsx:93-113 | the list becomes the quantity update whether or not the request succeeds |
| StockPage.StockPage.AddProduct | src/app/page.tsx:115-162 | exactly one product is appended to the unchanged list in every case; the create request is the one described above |
| StockPage.StockPage.UpdateProduct | src/app/page.tsx:164-191 | the request body follows the inclusion rules; the list becomes the merge in both branches |
| StockPage.StockPage.DeleteProduct | src/app/page.tsx:193-205 | the list becomes the removal in both branches |
| StockPage.StockPage.SetShowAddModal | src/app/page.tsx:226-320 | only the modal flag changes |
| StockPage.StockPage.SetActiveView | src/app/page.tsx:242-256 | only the active view changes |

## Left out

- Network I/O, `async` ordering and the race between two tabs: the outcome of each backend call is a parameter, and `healthCheck`'s result is folded into the load outcome.
- Rendering, CSS classes, icons, `console` output, the layout, and the view-toggle and language-switcher components.
- The health route is not part of this model.
- The stock-level bar width is omitted because it is a floating-point percentage.
- Dates and the clock: "today" is a string parameter, and `Date.now()` is a natural-number parameter.
- `window.confirm`, `alert` and the browser cookie jar:
  - a confirm answer is a boolean;
  - an alert is the message key it would show;
  - the cookie jar is a string, and the written cookie is a field.
- The message catalogs: a catalog is an abstract message tree.
- Translation.Walk: JavaScript indexing of a string value (`"abc"?.[0]`) and inherited object keys (`constructor`) are not modelled. A walk through a string is undefined here.
- Interpolation treats `\w` as ASCII letters, digits and `_`, and takes parameter values as their `toString` text.
- ProductQuery.ProductLe: `localeCompare` is an abstract total preorder `nameLe`. Its locale-specific collation is not modelled.
- ProductQuery.StringLess compares Unicode code points, not UTF-16 code units. The two orders differ only for characters outside the Basic Multilingual Plane.
- Stock.Product: quantities are integers. A NaN quantity cannot be stored in the product list.
- StockPage.OfflineProduct: when a NaN count from the add form reaches the offline fallback, the model stores 0 where the source would store NaN.
- ApiClient.ParamValue: numbers are integers. Non-integer numbers and their `toString` form are not modelled.
- ApiClient.Utf8: lone UTF-16 surrogates, which `URLSearchParams` turns into U+FFFD, cannot occur in a Dafny string.
- ApiClient.Request: the text of the JSON parser's error for a non-JSON 2xx body is left abstract as `InvalidJson`.
- The create request's optional fields (`name_nl`, `name_fr`, `name_en`, `description`) are always undefined when they come from the forms, and are left out.
- StockPage.StockPage.UpdateProduct: a patch carrying `id` or `lastUpdated` is not modelled, because the edit modal never sends one.
- The edit modal's category and unit option lists, and its category label, are left out: they only render.
- AddProductForm.AddProductModal.HandleInputChange: field names are the five form fields. An arbitrary key string is not modelled.
- JavaScript `-0` from `parseInt("-0")` is modelled as 0.
- JsText.ParseIntOfIntToString: JavaScript numbers are doubles. From 1e21 on, `toString` gives exponent form such as `1e+21`, which `parseInt` reads back as 1. A digit run above 2^53 is read back rounded, and one of more than about 309 digits gives `Infinity`. The model's integers are exact, so the round trip holds for integers below 2^53 in magnitude, and quantities are assumed to stay in that range.
- JsText.ToLower: only ASCII letters are lower-cased, while JavaScript's `toLowerCase` maps all of Unicode. So the model's `MatchesSearch` for `éc` misses `École`, which the page finds, and `NormalizeCategory("Épices")` gives the key `Épices`, where the page looks up `épices`.
- StockPage.OfflineProduct: the source's spread `...newProduct` (src/app/page.tsx:155-158) also copies the form's `category_id` onto the stored product. The model's `Product` has no category-id field, so that extra field is dropped; nothing on the page reads it.
- ApiClient.Request: an error response whose JSON body is `null` makes the source throw a `TypeError` when it reads `message`; that body is not modelled.
- Translation.Interpolate: a placeholder naming an inherited object key, such as `{constructor}`, is treated as a missing parameter, whereas JavaScript would find the inherited member.

## Findings

| source | as written | input that shows it | evidently intended | confidence | as-written member | corrected member |
|---|---|---|---|---|---|---|
| src/components/ProductCardViewLocalized.tsx:32-34 | `t('units.' + u) \|\| u` falls back to `u` only when `t` returns `''`, but `t` returns the key itself on a miss | a unit such as `crate` missing from both catalogs is shown as `units.crate` | show the bare unit, as `translateUnit` in src/utils/unitTranslation.ts:7-12 does | not executed; the fallback can only fire on an empty translation | ProductViews.ViewUnitLabelShowsKey | UnitTranslation.TranslateUnitMissing |
| src/services/api.ts:110-116 | `{ headers: { 'Content-Type': …, ...options.headers }, ...options }`: the trailing spread replaces the merged headers with the caller's own | options with `headers: { Authorization: 'x' }` send no `Content-Type` | merge the caller's headers over the JSON content type | not executed; every call in the service passes no headers, so no visible request is affected | ApiClient.CallerHeadersDropContentType | ApiClient.MergedHeaders |
