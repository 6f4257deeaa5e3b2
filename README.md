# MyShop storefront: catalog filter, stable sort and cart, in Dafny

This project models the logic inside the `App` component of the MyShop
single-page storefront (`my-app/src/App.js`):

- the static catalog of 18 products and the category bar whose counts are
  derived from it;
- `filteredProducts`, which keeps the catalog products that match the
  selected category (or `"all"`), lie in the price range, and whose
  lower-cased name contains the lower-cased search text, then sorts the
  survivors in place with one of three comparators (`price-low`,
  `price-high`, `rating`) or leaves them in catalog order;
- the cart: `addToCart`, `updateCartQuantity`, and the derived `cartTotal`
  and `cartCount`.

Modules, one per concern of the component:

| module | file | content |
|---|---|---|
| `Wrappers` | wrappers.dfy | `Option`, the value `find` may not return |
| `Catalog` | catalog.dfy | `Product`, `Category`, `PRODUCTS_DATA`, the category table and its counts |
| `Text` | text.dfy | `toLowerCase` as ASCII case folding, `includes` as a substring test |
| `StableSort` | stable_sort.dfy | the three comparators, the stable sort `SortBy` as a function, and the in-place array sort proved to compute it |
| `ProductFilter` | product_filter.dfy | the filter criteria, the match predicate, `Visible` (the value of `filteredProducts`) and the method that computes it |
| `Cart` | cart.dfy | cart lines, the pure updaters handed to `setCartItems`, totals, the cart invariant |
| `Storefront` | storefront.dfy | class `App`: the component's state as fields, its cart handlers as methods |

Representation choices:

- Prices are integer cents (`79.99` is `7999`) and ratings integer tenths
  (`4.5` is `45`); the price range is in cents, so the initial `[0, 300]`
  is `(0, 30000)`.
- A cart line is `CartItem(product, quantity)`: the product as it was copied
  by `{...product, quantity: 1}` plus its quantity, so `item.id` is
  `item.product.id` and `item.price` is `item.product.price`.
- `Array.prototype.sort` is stable (ECMA-262, 10th edition, section
  22.1.3.27). The array sort is modelled by an insertion sort
  (`StableSort.SortInPlace`). `StableSort.SortByIsUnique` proves that every
  result that is ordered and keeps equal keys in input order is the same
  sequence, so the engine's own algorithm gives the same array.
- Stability is stated through key classes. `WithKey(s, o, k)` is the
  subsequence of `s` whose sort key is `k`. A stable sort leaves every key
  class as it was.

Behaviour of the code worth noting:

- `updateCartQuantity` returns the line unchanged when `quantity + change <= 0`
  (`my-app/src/App.js:87`). The following `.filter(item => item.quantity > 0)`
  (`my-app/src/App.js:91`) therefore never removes anything. Decrementing a
  line at quantity 1 is a no-op and keeps the line.
  `Cart.UpdateCartQuantityEffect` and `Cart.CartScenario` state this.
- The price test checks both bounds of `priceRange` (`my-app/src/App.js:50`).
- Every `sortBy` value other than `"price-low"`, `"price-high"` and `"rating"`
  leaves the filtered list in catalog order (`my-app/src/App.js:56-62`).

## Model

| member | source | states |
|---|---|---|
| `Catalog.CountInCategory` | my-app/src/App.js:31-33 | the category count is at most the catalog size; it is 0 exactly when no product has the category and equals the size exactly when all do |
| `Catalog.CountAppend` | my-app/src/App.js:31-33 | counting a concatenation adds the counts of its parts |
| `Catalog.CountsPartition` | my-app/src/App.js:29-34 | when every product has one of the three categories, the three counts add up to the catalog length |
| `Catalog.CategoryTableCounts` | my-app/src/App.js:29-34 | the table has four tiles; "all" counts the whole catalog; each other tile counts its category's products; "all" is the sum of the other three |
| `Catalog.CountGroups` | my-app/src/App.js:5-27 | a catalog listed as electronics, then clothing, then accessories counts each group's length per category |
| `Catalog.CatalogIdsAreOneBased` | my-app/src/App.js:5-27 | the catalog's ids are 1 to 18 in order |
| `Catalog.CatalogIdsUnique` | my-app/src/App.js:5-27 | no two catalog entries share an id |
| `Catalog.CatalogCategoriesKnown` | my-app/src/App.js:5-27 | every catalog product is electronics, clothing or accessories |
| `Catalog.CatalogPricesWithinSlider` | my-app/src/App.js:5-39 | every catalog price lies in the initial price range of $0 to $300 |
| `Catalog.CatalogGroupCounts` | my-app/src/App.js:5-33 | each real category holds six products |
| `Catalog.CatalogCategoryTable` | my-app/src/App.js:29-34 | the shipped table shows 18 for "all" and 6 for each category; each tile equals its category's count, and "all" is their sum |
| `Text.ToLower` | my-app/src/App.js:51 | lower-casing keeps the length, turns each capital letter into its lower-case letter, keeps every other character, and leaves no capital letter |
| `Text.ToLowerEqualIffSameUpToCase` | my-app/src/App.js:51 | two strings lower-case to the same string exactly when they agree up to ASCII case |
| `Text.ToLowerIdempotent` | my-app/src/App.js:51 | lower-casing twice is lower-casing once |
| `Text.IncludesIffOccurs` | my-app/src/App.js:51 | `includes` holds exactly when the query occurs at some position of the string |
| `Text.EmptyIncluded` | my-app/src/App.js:51 | the empty query is contained in every name |
| `Text.LongerNotIncluded` | my-app/src/App.js:51 | a query longer than the name never matches |
| `StableSort.CompareIsKeyDifference` | my-app/src/App.js:56-62 | each comparator is the difference of a sort key: price, minus price, or minus rating |
| `StableSort.InsertPermutes` | my-app/src/App.js:56-62 | one insertion step adds exactly the inserted product |
| `StableSort.InsertSorted` | my-app/src/App.js:56-62 | inserting into an ordered sequence keeps it ordered |
| `StableSort.SortedSnoc` | my-app/src/App.js:56-62 | a product that no element goes after can be appended to an ordered list |
| `StableSort.WithKeySnoc` | my-app/src/App.js:56-62 | appending a product extends only its own key class |
| `StableSort.InsertWithKeyStep` | my-app/src/App.js:56-62 | a product the comparator puts after the inserted one never shares its key class |
| `StableSort.InsertWithKey` | my-app/src/App.js:56-62 | the inserted product goes to the end of its key class; other classes are untouched |
| `StableSort.InsertAt` | my-app/src/App.js:56-62 | where the shifting loop stops, the functional insertion puts the product |
| `StableSort.SortByPermutes` | my-app/src/App.js:56-62 | the sorted list is a permutation of the filtered list |
| `StableSort.SortBySorted` | my-app/src/App.js:56-62 | the sorted list is ordered by the comparator |
| `StableSort.SortByStable` | my-app/src/App.js:56-62 | products with equal keys keep their relative order |
| `StableSort.WithKeyMembers` | my-app/src/App.js:56-62 | a key class holds exactly the products with that key |
| `StableSort.LastHasGreatestKey` | my-app/src/App.js:56-62 | in an ordered list the last product has the greatest key |
| `StableSort.SameLastKey` | my-app/src/App.js:56-62 | two ordered lists with the same key classes end with equal keys |
| `StableSort.DropLastSameClasses` | my-app/src/App.js:56-62 | such lists end with the same product, and their prefixes have the same key classes |
| `StableSort.SortedSameClassesEqual` | my-app/src/App.js:56-62 | two ordered lists with the same key classes are equal |
| `StableSort.SortByIsUnique` | my-app/src/App.js:56-62 | any ordered, stable rearrangement of the input is `SortBy`, so the result does not depend on the sorting algorithm |
| `StableSort.InsertInPlace` | my-app/src/App.js:56-62 | one pass of the in-place sort turns the array prefix into the functional insertion and leaves the rest alone |
| `StableSort.SortInPlace` | my-app/src/App.js:56-62 | `filtered.sort(cmp)` leaves the array holding `SortBy` of its old contents |
| `ProductFilter.FilterProducts` | my-app/src/App.js:48-53 | the filtered list is no longer than the catalog |
| `ProductFilter.FilterMembers` | my-app/src/App.js:48-53 | a product is kept iff it is in the catalog and passes the category, price and search tests |
| `ProductFilter.FilteredProducts` | my-app/src/App.js:47-65 | the filter-then-sort-in-place computation returns `Visible(catalog, criteria)` |
| `ProductFilter.FilterAppend` | my-app/src/App.js:48-53 | filtering a concatenation filters each part in order, so the filter keeps catalog order |
| `ProductFilter.FilterKeepsAll` | my-app/src/App.js:48-53 | when every product matches, the filter returns the catalog unchanged |
| `ProductFilter.FilterSubMultiset` | my-app/src/App.js:48-53 | the filter never repeats a product more often than the catalog |
| `ProductFilter.FilterWithKey` | my-app/src/App.js:48-62 | taking one key class and filtering commute |
| `ProductFilter.SearchMatchIgnoresCase` | my-app/src/App.js:51 | the search test gives the same answer for a query typed in another case |
| `ProductFilter.FilterIgnoresQueryCase` | my-app/src/App.js:48-53 | the filter keeps the same products for a query typed in another case |
| `ProductFilter.VisibleIgnoresQueryCase` | my-app/src/App.js:47-65 | the visible list is the same, in the same order, for a query typed in another case |
| `ProductFilter.VisibleMembership` | my-app/src/App.js:48-64 | soundness and completeness: a product is shown iff it is in the catalog and matches; sorting adds or drops nothing; no match gives the empty list |
| `ProductFilter.VisibleOrder` | my-app/src/App.js:48-64 | catalog order when unsorted; ascending price, descending price or descending rating for the three keys; products sharing a key appear in catalog order |
| `ProductFilter.CategoryCountIsShown` | my-app/src/App.js:29-53 | with no search text and a covering price range, selecting a category shows as many products as its tile counts ("all" shows the whole catalog) |
| `Cart.Find` | my-app/src/App.js:71 | `find` returns a line iff some line has the id; the line returned has that id and no earlier line has it |
| `Cart.KeepPositiveMembers` | my-app/src/App.js:91 | the final filter keeps exactly the lines with a positive quantity |
| `Cart.KeepPositiveKeepsAll` | my-app/src/App.js:91 | when all quantities are positive the final filter removes nothing |
| `Cart.LineTotalChange` | my-app/src/App.js:95 | changing a line's quantity by `d` changes its total by `d` times its price |
| `Cart.LineTotalIncrement` | my-app/src/App.js:95 | one more unit adds one unit price to the line total |
| `Cart.TotalsIncrementLine` | my-app/src/App.js:95-96 | one more unit on a line raises the count by 1 and the total by that line's price |
| `Cart.TotalsReplaceLine` | my-app/src/App.js:95-96 | replacing one line changes total and count by that line's difference |
| `Cart.AddToCartExisting` | my-app/src/App.js:71-76 | with a line for the product's id, only that line's quantity grows by one |
| `Cart.AddToCartProducts` | my-app/src/App.js:70-78 | every line after adding holds the product of the same position before, or the added product |
| `Cart.AddToCartEffect` | my-app/src/App.js:70-78 | an existing line for the id gets quantity + 1 in place and nothing else changes; otherwise one line with quantity 1 is appended at the end |
| `Cart.AddToCartWellFormed` | my-app/src/App.js:70-78 | adding keeps one line per id and every quantity at least 1 |
| `Cart.AddToCartTotalsAt` | my-app/src/App.js:71-76 | bumping an existing line raises the count by 1 and the total by the price |
| `Cart.AddToCartTotalsNew` | my-app/src/App.js:77 | appending a new one-unit line raises the count by 1 and the total by the price |
| `Cart.AddToCartTotals` | my-app/src/App.js:68-96 | adding raises `cartCount` by 1 and `cartTotal` by the product's price |
| `Cart.ChangeLineAt` | my-app/src/App.js:84-90 | the map step changes only the line with the id, and only when the new quantity is positive |
| `Cart.UpdateCartQuantityEffect` | my-app/src/App.js:82-93 | a positive new quantity updates only that line; a non-positive one leaves the cart unchanged and keeps the line; an unknown id leaves the cart unchanged |
| `Cart.UpdateCartQuantityProducts` | my-app/src/App.js:82-93 | updating keeps every line, in place, with its product |
| `Cart.UpdateCartQuantityWellFormed` | my-app/src/App.js:82-93 | updating keeps one line per id and every quantity at least 1 |
| `Cart.UpdateCartQuantityTotalsAt` | my-app/src/App.js:84-96 | an applied change to a line moves the count by `change` and the total by `change` times its price |
| `Cart.UpdateCartQuantityTotals` | my-app/src/App.js:82-96 | an applied change moves the count by `change` and the total by `change` times the price; when no line takes the change the cart, and so both totals, stay as they were |
| `Cart.CartScenario` | my-app/src/App.js:68-96 | adding A ($10) twice and B ($20) once gives 3 items and $40; lowering A by two then leaves the cart as it was |
| `Storefront.CatalogProductById` | my-app/src/App.js:5-27 | two catalog products with the same id are the same product |
| `Storefront.OpenCriteriaShowCatalog` | my-app/src/App.js:47-65 | with category "all", no search text, no sort and a covering price range, the page lists the catalog in catalog order |
| `Storefront.CatalogLinesPriced` | my-app/src/App.js:5-27 | a line copied from a catalog product records, for that id, the catalog price |
| `Storefront.InitialViewIsCatalog` | my-app/src/App.js:37-65 | with the initial criteria the page lists the whole catalog in catalog order |
| `Storefront.App.constructor` | my-app/src/App.js:37-43 | the initial state: category "all", range $0 to $300, empty search, "featured", empty cart |
| `Storefront.App.FilteredProducts` | my-app/src/App.js:47-65 | returns `Visible` of the catalog under the component's current criteria |
| `Storefront.App.AddToCart` | my-app/src/App.js:68-79 | replaces the cart by the add updater's result, keeps the cart invariant, and raises count by 1 and total by the price |
| `Storefront.App.UpdateCartQuantity` | my-app/src/App.js:82-93 | replaces the cart by the update updater's result and keeps the cart invariant |

## Left out

- Rendering is not modelled: the JSX markup, styling and icons (`my-app/src/App.js:98-397`) are presentation only.
- The UI toggles `showCart`, `showFilters` and `selectedProduct`, and the modal open/close, are not modelled. They are boolean flips or plain assignments with no logic.
- The criteria setters (`setSelectedCategory`, `setPriceRange`, `setSearchQuery`, `setSortBy`) are not modelled as methods. They only write one field of `App`.
- `e.stopPropagation()` and other DOM event plumbing are not modelled; they are browser behaviour.
- React scheduling (`useState`) and memoisation (`useMemo`) are not modelled. The state is plain fields of `App` that its methods update at once.
- Floating-point prices and ratings and `toFixed(2)` are not modelled. Integer cents and tenths are used instead.
- `parseInt` of the slider value and the slider's 0–300 bounds are not modelled. The price range is taken as given integers in cents.
- Text.ToLower: folds ASCII letters only. Full Unicode `toLowerCase` is library behaviour outside this model. Strings are modelled as sequences of Unicode scalar values, not UTF-16 code units: code-unit lengths and lone surrogates are not modelled (on well-formed strings `includes` gives the same answer either way).
- StableSort.SortInPlace: models the engine's sort by an insertion sort. Only its result is claimed to match; the engine's algorithm and its comparison count are not modelled.
- Cart.AddToCartTotals: assumes that a line already holding the product records the product's current price. `Storefront.App.AddToCart` discharges this for catalog products, because catalog ids are unique.
- Storefront.App.AddToCart: requires the product to come from the catalog. Every caller passes a product drawn from the displayed catalog or from the selected product.
