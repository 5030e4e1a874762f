# E-commerce product pages, modelled in Dafny

The repository holds two storefronts, and this project models the logic of both.

The TypeScript storefront (`src/`) filters, sorts and pages a product catalog. It keeps a cart whose lines merge by product id. The cart is reached through a hook that removes a line once its quantity drops to 0 or below. Around these sit a few pure helpers: totals, the discount percentage and price formatting. It also has a windowed page bar, a cart row with plus, minus and delete buttons, and a cart badge capped at "99+".

The Lumina storefront (`lumina-shop/` and the Lumina `.jsx` components under `src/`) has the following parts:
- a store whose cart never merges entries, beside a separate counter;
- a wishlist toggle;
- price-bound setters;
- a list page that filters, sorts and pages by nine, going back to page 1 whenever the query changes;
- a plain page bar;
- a two-thumb price slider that keeps the bounds 100 apart;
- a five-step onboarding tour.

Representation choices:
- Money is an `int` in cents for the TypeScript storefront and whole yuan for Lumina. Ratings are integers: hundredths of a star in TypeScript, tenths in Lumina.
- Strings are `seq<char>`.
- JavaScript's `filter` is `Seqs.Filter`.
- `slice` is `Paging.JsSlice`, including negative indices.
- The stable `Array.prototype.sort` with a difference-of-keys comparator is `Sorting.SortBy`, a stable insertion sort on one integer key. `Sorting.StableSortUnique` proves that every stable sort returns the same list.

How each kind of source code is modelled:
- State updated in place becomes classes:
  - `ProductStore.Store`, `Cart.CartStore` and `LuminaStore.Store` for the zustand stores;
  - `LuminaListPage.ListPage`, `Sidebar.PriceSlider` and `Onboarding.TourView` for component state.
- Each class method is specified by a pure function of the old state. The lemmas are proved about those functions.
- Loops in the source become methods with loop invariants. For example, `ProductPagination.GetPageNumbers` is proved equal to the case-by-case specification `ProductPagination.PageNumbers`.

## Model

| member | source | states |
|---|---|---|
| Seqs.Filter | src/utils/filters.ts:14 | the result holds exactly the input elements that pass the test, and is no longer than the input |
| Seqs.FilterIsSubsequence | src/utils/filters.ts:24 | a filter result is a subsequence of its input: nothing added, nothing reordered |
| Seqs.FilterCounts | src/utils/filters.ts:39-43 | each kept element occurs exactly as often as in the input, every other element not at all |
| Seqs.FilterCompose | src/utils/filters.ts:52-71 | two filters in a row are one filter by the conjunction of their tests |
| Seqs.FilterIdempotent | src/utils/filters.ts:52-71 | filtering twice with one test is filtering once |
| Seqs.FilterKeepsDistinct | lumina-shop/src/store/useStore.js:45 | filtering a list without repeats gives a list without repeats |
| Text.Trim | src/utils/filters.ts:34 | the result is a slice of the input with only whitespace cut off each end, and neither of its ends is whitespace |
| Text.TrimEmptyIff | src/utils/filters.ts:34-35 | the trimmed text is empty exactly when the text is all whitespace |
| Text.Lower | src/utils/filters.ts:34 | same length, no upper-case letter left, every other character kept |
| Text.LowerKeepsWhitespace | src/utils/filters.ts:34-35 | lower-casing does not change whether a text is blank |
| Text.ContainsIff | src/utils/filters.ts:41-42 | `includes` holds exactly when the pattern occurs at some index |
| Text.IntRoundTrip | src/components/cart/CartBadge.tsx:24 | the decimal text of any integer is a numeral that parses back to it |
| Text.IntToString | src/components/cart/CartBadge.tsx:24 | the decimal text of an integer: a minus sign exactly for negatives, then digits |
| Text.NatToString | src/components/cart/CartBadge.tsx:32 | digits with no leading zero; one digit exactly below 10, at most two below 100 |
| Text.ParseNatToString | src/components/cart/CartBadge.tsx:32 | the digits of a natural number parse back to it |
| Filters.FilterByPriceRange | src/utils/filters.ts:9-15 | keeps exactly the products with min ≤ price ≤ max, in input order and multiplicity; nothing when min > max |
| Filters.FilterByCategory | src/utils/filters.ts:23-25 | keeps exactly the products of that category, in input order and multiplicity |
| Filters.FilterByKeyword | src/utils/filters.ts:33-44 | a blank keyword returns the input; otherwise keeps exactly the products whose lower-cased name or description contains the lower-cased trimmed keyword, in input order and each as often as in the input |
| Filters.BlankKeywordIff | src/utils/filters.ts:34-37 | the normalised keyword is empty exactly when the keyword is blank |
| Filters.MeetsCriteria | src/utils/filters.ts:52-71 | a product meets the criteria when it passes each criterion present: category unless absent, empty or 'all', inclusive price range when present, keyword when present and not blank (its contract is `ApplyMultipleFiltersIsOneFilter`) |
| Filters.ApplyMultipleFilters | src/utils/filters.ts:52-71 | the result holds exactly the input products that meet every active criterion |
| Filters.ApplyMultipleFiltersIsOneFilter | src/utils/filters.ts:52-71 | the three optional steps are one filter by `MeetsCriteria`; an absent, empty or 'all' category and an absent or empty keyword impose nothing |
| Filters.ApplyMultipleFiltersSelects | src/utils/filters.ts:53 | the result is a subsequence of the input, and each meeting product keeps its multiplicity |
| Filters.ApplyMultipleFiltersIdempotent | src/utils/filters.ts:52-71 | applying the criteria twice is applying them once |
| Filters.InactiveCriteriaKeepAll | src/utils/filters.ts:56-68 | with no active criterion the list comes back unchanged |
| Sorting.SortBy | src/utils/sorting.ts:11-20 | a permutation of the input, sorted ascending on the key |
| Sorting.SortByIsStable | src/utils/sorting.ts:16 | elements with equal keys keep their input order |
| Sorting.StableSortUnique | src/utils/sorting.ts:16 | two stably sorted arrangements of one list on one key are equal |
| Sorting.SortProducts | src/utils/sorting.ts:9-35 | a permutation of the input; prices ascending for 'price-asc', descending for 'price-desc', ratings descending for 'rating' (missing counts as 0); 'default' keeps the input |
| Sorting.SortProductsIsStable | src/utils/sorting.ts:14-28 | products tying on the option's key keep their input order |
| Sorting.SortProductsMatchesAnyStableSort | src/utils/sorting.ts:14-28 | any stable sort on the option's key, JavaScript's included, returns exactly `SortProducts` |
| Paging.JsSlice | src/hooks/useProducts.ts:61 | `slice` yields only elements of the list and no more than it holds |
| Paging.RelativeIndex | src/hooks/useProducts.ts:61 | the position `slice` reads an index as, counted from the end when negative, always lies within 0..length |
| Paging.CeilDiv | src/hooks/useProducts.ts:65-67 | the fewest pages that hold the items; 0 exactly when there are no items |
| Paging.PageSlice | src/hooks/useProducts.ts:58-62 | `slice(start, start + size)` from start (p−1)·size: no longer than the list and only its items; the contents are `PageSliceContents` |
| Paging.PageSliceContents | src/hooks/useProducts.ts:58-62 | page p ≥ 1 is the items from index (p−1)·size, at most `size` of them |
| Paging.PageBeyondLastIsEmpty | src/hooks/useProducts.ts:59-61 | a page past the last one is empty, not an error |
| Paging.PageBeforeLastIsFull | src/hooks/useProducts.ts:58-62 | every page before the last holds exactly `size` items |
| Paging.AllPagesRebuildList | src/hooks/useProducts.ts:58-67 | pages 1..totalPages laid end to end are the whole list |
| Paging.PagesBeforeFirst | src/hooks/useProducts.ts:59-61 | below page 1 the start is negative and `slice` counts it from the end: page 0 is empty, and page −1 of two full pages is page 1 |
| ProductQuery.FilteredAndSorted | src/hooks/useProducts.ts:47-55 | the matching products put in order by `SortProducts` for the option (so sorted on its key, ties in catalog order), exactly those meeting the criteria, each as often as in the catalog |
| ProductQuery.View | src/hooks/useProducts.ts:58-73 | `totalProducts` counts the matches; `totalPages` is the ceiling of the count over the page size; the page holds at most a page size of matching products |
| ProductQuery.SortDoesNotChangeCounts | src/hooks/useProducts.ts:47-55 | changing only the sort option changes neither count |
| ProductQuery.CountsIgnoreCurrentPage | src/hooks/useProducts.ts:65-73 | the counts do not depend on the current page |
| ProductQuery.ViewPages | src/hooks/useProducts.ts:58-67 | the page shown is page `currentPage` of the sorted matches, empty past the last page, and all pages rebuild the list |
| ProductQuery.ThirteenProductsMakeTwoPages | src/hooks/useProducts.ts:58-67 | 13 matches in pages of 12: two pages, of 12 and 1 items, and page 3 is empty |
| ProductStore.MergeFilters | src/store/productStore.ts:48 | `{ ...filters, ...patch }`: each field the patch holds overwrites, an explicit undefined included; the laws are `MergeLaws` |
| ProductStore.MergeLaws | src/store/productStore.ts:46-48 | a field-wise overwrite: an empty patch changes nothing, one patch twice acts once, two patches act as one, a full patch replaces |
| ProductStore.AllCategoriesChoiceClearsCategory | src/components/product/ProductFilter.tsx:32 | choosing '全部' writes an explicit `undefined` category, after which the category constrains nothing |
| ProductStore.Store.constructor | src/store/productStore.ts:32-40 | no products, no criteria, 'default', page 1 of 12, 0 items |
| ProductStore.Store.SetProducts | src/store/productStore.ts:42-44 | replaces only the product list |
| ProductStore.Store.SetFilters | src/store/productStore.ts:46-52 | merges the patch into the criteria, sets page 1, keeps everything else |
| ProductStore.Store.SetSortOption | src/store/productStore.ts:54-60 | replaces the sort option, sets page 1, keeps the criteria |
| ProductStore.Store.SetPage | src/store/productStore.ts:62-66 | changes only the current page |
| ProductStore.Store.ResetFilters | src/store/productStore.ts:68-74 | restores no criteria, 'default' and page 1 of 12, keeps the products |
| ProductStore.QuerySession | src/store/productStore.ts:46-66 | after a page change, a criteria change and a sort change, the view is page 1 of the new query |
| Calculations.Subtotal | src/utils/calculations.ts:52-54 | 0 for quantity 0; non-negative for non-negative inputs; for a positive quantity, 0 exactly when the price is 0 |
| Calculations.TotalPrice | src/utils/calculations.ts:8-10 | the left-to-right sum of price × quantity, non-negative for non-negative lines |
| Calculations.TotalItems | src/utils/calculations.ts:32-34 | the sum of the quantities, at least the number of lines when every line holds one or more |
| Calculations.TotalsAppend | src/utils/calculations.ts:8-34 | both totals of two carts laid end to end are the sums of their totals |
| Calculations.TotalsAreSums | src/utils/calculations.ts:8-10 | the reduce equals the sum of `calculateSubtotal` over the lines, and likewise for the quantities |
| Calculations.Discount | src/utils/calculations.ts:18-25 | 0 when the original price is ≤ 0 or the current price is not lower; otherwise the nearest integer to (o−c)/o × 100, halves rounded up; within 0..100 for a non-negative current price |
| Calculations.DiscountExamples | src/utils/calculations.ts:23-24 | (150, 100) and (15000, 10000) give 33; the guarded cases give 0 |
| Calculations.DiscountScaleInvariant | src/utils/calculations.ts:23 | scaling both prices by the same factor leaves the discount unchanged |
| Calculations.FormatAmount | src/utils/calculations.ts:43 | the amount ends in a point and exactly two digits |
| Calculations.FormatPrice | src/utils/calculations.ts:42-44 | the currency symbol, then the amount with exactly two decimals |
| Calculations.FormatPriceRoundTrip | src/utils/calculations.ts:42-44 | the text after the symbol parses back to the price in cents |
| Calculations.FormatPriceExamples | src/utils/calculations.ts:42 | 10000 cents give "¥100.00" by default and "$100.00" with "$"; 9999 give "¥99.99" |
| Cart.Find | src/store/cartStore.ts:36 | returns a line of the cart with that id, and nothing exactly when no line has it |
| Cart.FindUnique | src/store/cartStore.ts:36 | with unique ids, finding a line's id returns that line |
| Cart.AddItemTo | src/store/cartStore.ts:34-51 | an existing id gains one unit, with length and every other line unchanged; a new id is appended with quantity 1; ids stay unique |
| Cart.WithoutItem | src/store/cartStore.ts:54-58 | no line with the id remains, every other line is kept in order, and an unknown id changes nothing |
| Cart.WithQuantity | src/store/cartStore.ts:60-66 | the matching line gets exactly the quantity, unclamped; other lines and the length are unchanged; an unknown id changes nothing |
| Cart.WithQuantityAt | src/store/cartStore.ts:60-66 | with unique ids, setting line i's product changes exactly line i |
| Cart.AddExistingLine | src/store/cartStore.ts:34-45 | adding a product already in the cart: looking it up finds its old line with one unit more and the snapshot stored when it was first added |
| Cart.AddNewLine | src/store/cartStore.ts:47-50 | adding a product not in the cart: looking it up finds a new line of one unit |
| Cart.AddItemKeepsOthers | src/store/cartStore.ts:34-51 | adding a product leaves what every other id finds unchanged |
| Cart.AddItemAt | src/store/cartStore.ts:36-45 | adding a product already on line i adds one unit to line i and changes nothing else |
| Cart.AddItemTotals | src/store/cartStore.ts:34-51 | an addition raises the item count by 1 and the total by the stored line's price, or by the new product's price |
| Cart.RepeatedAddsMerge | src/store/cartStore.ts:34-51 | N additions of a product absent from the cart give one new line of quantity N |
| Cart.WithoutItemAt | src/store/cartStore.ts:54-58 | removing a line's id cuts out exactly that line |
| Cart.RemoveItemEffect | src/store/cartStore.ts:54-58 | removal lowers the item count by the line's quantity and the total by its subtotal |
| Cart.TotalsRemoveAt | src/store/cartStore.ts:72-80 | cutting out line i lowers the item count by its quantity and the total by its subtotal |
| Cart.TotalsReplaceAt | src/store/cartStore.ts:72-80 | replacing line i changes the totals by the difference of the two lines |
| Cart.UpdateQuantityEffect | src/store/cartStore.ts:60-66 | the line reads the new quantity; the totals change by the difference |
| Cart.CartStore.constructor | src/store/cartStore.ts:32 | the cart starts empty, with the invariant `Valid` (one line per product id) established |
| Cart.CartStore.AddItem | src/store/cartStore.ts:34-52 | the new lines are `AddItemTo` of the old; `Valid` is kept |
| Cart.CartStore.RemoveItem | src/store/cartStore.ts:54-58 | the new lines are `WithoutItem` of the old; `Valid` is kept |
| Cart.CartStore.UpdateQuantity | src/store/cartStore.ts:60-66 | the new lines are `WithQuantity` of the old; `Valid` is kept |
| Cart.CartStore.ClearCart | src/store/cartStore.ts:68-70 | no lines are left; `Valid` is kept |
| Cart.CartStore.GetTotalPrice | src/store/cartStore.ts:72-75 | the sum of the subtotals, 0 for an empty cart, read without changing state |
| Cart.CartStore.GetTotalItems | src/store/cartStore.ts:77-80 | the sum of the quantities, 0 for an empty cart, read without changing state |
| UseCart.HookUpdate | src/hooks/useCart.ts:43-52 | a quantity ≤ 0 gives exactly `WithoutItem` (the line goes, the others stay in order); a positive one gives exactly `WithQuantity` (same length and order, only the matching line changes); ids stay unique and every line stays positive |
| UseCart.AddKeepsPositive | src/hooks/useCart.ts:19-25 | an addition keeps every quantity ≥ 1: a line grows or a new one starts at 1 |
| UseCart.Apply | src/hooks/useCart.ts:19-61 | every hook action keeps ids unique and every quantity ≥ 1 |
| UseCart.Run | src/hooks/useCart.ts:19-61 | any sequence of hook actions keeps ids unique and every quantity ≥ 1 |
| UseCart.RunAppend | src/hooks/useCart.ts:19-52 | running two batches of actions is running them all |
| UseCart.RunAdds | src/hooks/useCart.ts:19-25 | N hook additions are N store additions |
| UseCart.HookKeepsCartWellFormed | src/hooks/useCart.ts:19-52 | from an empty cart, any sequence of hook actions leaves unique ids and quantities ≥ 1 |
| UseCart.AddToCartOn | src/hooks/useCart.ts:19-25 | the same effect as the store's `addItem` |
| UseCart.RemoveFromCartOn | src/hooks/useCart.ts:31-37 | the same effect as the store's `removeItem` |
| UseCart.UpdateQuantityOn | src/hooks/useCart.ts:43-52 | removes for quantity ≤ 0, otherwise the store's `updateQuantity` |
| UseCart.Perform | src/hooks/useCart.ts:19-61 | performing an action on the store has the effect `Apply` describes |
| UseCart.AddNew | src/hooks/useCart.ts:19-22 | adding an absent product appends one line of 1 |
| UseCart.ThreeAdds | src/hooks/useCart.ts:19-22 | three additions of one product to an empty cart give one line of 3 |
| UseCart.TwoAndOneScenario | src/hooks/useCart.ts:60-61 | 2 × 100 and 1 × 50 give a total of 250 and 3 items |
| UseCart.ThreeAddsScenario | src/hooks/useCart.ts:19-22 | three additions of one product give one line of 3 and a total of 300 |
| UseCart.FourthAddScenario | src/hooks/useCart.ts:19-22 | one more product at 50 gives two lines, 4 items and 350 |
| UseCart.UpdateToZeroScenario | src/hooks/useCart.ts:43-49 | setting the first product to 0 leaves only the other line, total 50 |
| CartRow.OnIncrease | src/components/cart/CartItem.tsx:24-26 | asks to set the line's product to quantity + 1 |
| CartRow.OnDecrease | src/components/cart/CartItem.tsx:28-34 | asks for quantity − 1 exactly when the quantity is above 1, otherwise for removal of the product |
| CartRow.OnRemove | src/components/cart/CartItem.tsx:36-38 | asks for removal of the line's product |
| CartRow.RowSubtotal | src/components/cart/CartItem.tsx:40 | what the line adds to the cart total; 0 for quantity 0 |
| CartRow.Dispatch | src/components/cart/CartDrawer.tsx:88-89 | a row's request goes to the hook's `updateQuantity` or `removeFromCart`, so unique ids and positive quantities are kept |
| CartRow.DecreaseEffect | src/components/cart/CartItem.tsx:28-34 | through the hook, minus on a line above 1 takes one unit off; otherwise the line goes and the rest keep their order |
| CartRow.RemoveEffect | src/components/cart/CartItem.tsx:36-38 | through the hook, delete cuts out exactly that line |
| CartRow.IncreaseThenDecrease | src/components/cart/CartItem.tsx:24-34 | plus then minus on the same row gives back the cart |
| CartBadge.BadgeText | src/components/cart/CartBadge.tsx:27-33 | no badge exactly for counts ≤ 0; 1..99 shown as a numeral that reads back as the count; above 99 "99+" |
| CartBadge.AriaLabel | src/components/cart/CartBadge.tsx:24 | "购物车，" + count + " 件商品" |
| CartBadge.AriaLabelCarriesCount | src/components/cart/CartBadge.tsx:24 | the exact count can be read back from the label, also above 99 |
| CartBadge.BadgeCapsButLabelDoesNot | src/components/cart/CartBadge.tsx:24-32 | two counts above 99 share one badge but never one label |
| ProductPagination.TotalPages | src/components/product/ProductPagination.tsx:18 | `Math.ceil(totalProducts / pageSize)`: the fewest pages of `pageSize` that hold every product, 0 exactly for no products |
| ProductPagination.Visible | src/components/product/ProductPagination.tsx:18-23 | the render guard `totalProducts > pageSize`; `VisibleIffSeveralPages` ties it to the page count |
| ProductPagination.VisibleIffSeveralPages | src/components/product/ProductPagination.tsx:18-23 | the bar is rendered exactly when there are two pages or more |
| ProductPagination.Range | src/components/product/ProductPagination.tsx:38-40 | the buttons lo..hi in order |
| ProductPagination.PageNumbers | src/components/product/ProductPagination.tsx:36-63 | the four cases of `getPageNumbers`: all of 1..T for T ≤ 5, otherwise 6 or 7 entries from page 1 to page T, 7 exactly when 3 < c < T−2 |
| ProductPagination.GetPageNumbers | src/components/product/ProductPagination.tsx:32-67 | the loops push exactly the entries of `PageNumbers`: 1..T for T ≤ 5, [1,2,3,4,…,T] for c ≤ 3, [1,…,T−3..T] for c ≥ T−2, else [1,…,c−1,c,c+1,…,T] |
| ProductPagination.WellFormedIsIncreasing | src/components/product/ProductPagination.tsx:32-67 | in a bar running from 1 to T with consecutive neighbours and gap-hiding ellipses, the numbers rise strictly within 1..T |
| ProductPagination.PageNumbersWellFormed | src/components/product/ProductPagination.tsx:36-64 | every bar starts at 1, ends at T, has consecutive neighbouring buttons, hides at least one page per ellipsis, and holds at most 7 entries |
| ProductPagination.PageNumbersIncreasing | src/components/product/ProductPagination.tsx:32-67 | the numbers shown rise strictly and lie in 1..T |
| ProductPagination.FewPagesAllShown | src/components/product/ProductPagination.tsx:36-40 | with T ≤ 5 every page has a button |
| ProductPagination.CurrentPageShown | src/components/product/ProductPagination.tsx:43-63 | the current page, when within 1..T, has a button |
| ProductPagination.OneButtonHighlighted | src/components/product/ProductPagination.tsx:32-67 | the current page within 1..T has exactly one button |
| ProductPagination.Requested | src/components/product/ProductPagination.tsx:74-119 | prev is disabled exactly on page 1 and asks for c−1; next is disabled exactly on page T and asks for c+1; a page button asks for its page |
| ProductPagination.PrevNextTargets | src/components/product/ProductPagination.tsx:74-119 | from a page within 1..T, every enabled click on the bar asks for a page within 1..T; past the last page, next stays enabled and asks for c+1 |
| LuminaStore.CountOf | lumina-shop/src/store/useStore.js:22-23 | the number of entries with a cart id, 0 exactly when none has it |
| LuminaStore.WithoutEntry | lumina-shop/src/store/useStore.js:22-25 | every entry with the id goes, every other entry stays, in order |
| LuminaStore.WithoutEntryLength | lumina-shop/src/store/useStore.js:22-25 | removal shortens the cart by the number of entries with the id |
| LuminaStore.CountAfterActions | lumina-shop/src/store/useStore.js:17-25 | the counter still equals the length after an addition; after a removal it does exactly when one entry carried the id |
| LuminaStore.RemoveUnknownId | lumina-shop/src/store/useStore.js:22-25 | removing an id no entry carries leaves the cart unchanged (while the counter drops) |
| LuminaStore.Toggle | lumina-shop/src/store/useStore.js:41-48 | membership of the id flips, every other id keeps its membership, an absent id is appended at the end |
| LuminaStore.ToggleKeepsDistinct | lumina-shop/src/store/useStore.js:41-48 | toggling never introduces a duplicate |
| LuminaStore.ToggleTwice | lumina-shop/src/store/useStore.js:41-48 | toggling twice restores every id's membership, and the list itself when the id was absent |
| LuminaStore.Store.constructor | lumina-shop/src/store/useStore.js:5-14 | empty cart, counter 0, '全部', price range 0..5000, 'default', empty wishlist |
| LuminaStore.Store.AddToCart | lumina-shop/src/store/useStore.js:17-20 | appends a copy with the given cart id, counter + 1, nothing else changes |
| LuminaStore.Store.RemoveFromCart | lumina-shop/src/store/useStore.js:22-25 | drops every entry with the id, counter − 1 unconditionally, nothing else changes |
| LuminaStore.Store.SetActiveCategory | lumina-shop/src/store/useStore.js:27 | replaces only the category |
| LuminaStore.Store.SetPriceRange | lumina-shop/src/store/useStore.js:29 | replaces only the price range |
| LuminaStore.Store.SetMinPrice | lumina-shop/src/store/useStore.js:31-33 | replaces only the lower bound |
| LuminaStore.Store.SetMaxPrice | lumina-shop/src/store/useStore.js:35-37 | replaces only the upper bound |
| LuminaStore.Store.SetSortBy | lumina-shop/src/store/useStore.js:39 | replaces only the sort option |
| LuminaStore.Store.ToggleWishlist | lumina-shop/src/store/useStore.js:41-48 | the wishlist becomes `Toggle` of the old one, without repeats if it had none |
| LuminaStore.AddAddRemove | lumina-shop/src/store/useStore.js:17-25 | two additions with distinct ids, then removal of the first: one entry, counter in agreement |
| LuminaListPage.FilterProducts | lumina-shop/src/pages/ProductListPage.jsx:23-31 | the products passing the main-category test (skipped for '全部') and the inclusive price bounds, each as a subsequence of the catalog, both directions of membership |
| LuminaListPage.SortProducts | lumina-shop/src/pages/ProductListPage.jsx:34-50 | a permutation: prices ascending, prices, sales or ratings descending, any other option the order as is |
| LuminaListPage.SortIsStable | lumina-shop/src/pages/ProductListPage.jsx:36-45 | products tying on the key keep their catalog order |
| LuminaListPage.FilteredAndSortedProducts | lumina-shop/src/pages/ProductListPage.jsx:22-52 | the memo's two filter steps and its sort on a copy compute `SortProducts(FilterProducts(...))`; the catalog itself is a value and is not reordered |
| LuminaListPage.ListedProducts | lumina-shop/src/pages/ProductListPage.jsx:22-52 | a product is listed exactly when it is in the catalog and passes both filters, and as often as it occurs in the catalog |
| LuminaListPage.TotalPages | lumina-shop/src/pages/ProductListPage.jsx:55 | the fewest pages of nine that hold the list |
| LuminaListPage.PaginatedProducts | lumina-shop/src/pages/ProductListPage.jsx:56-59 | page p ≥ 1 holds at most nine items: the items at indices (p−1)·9 up to p·9, cut short at the end of the list (a partial last page included), and nothing past the end |
| LuminaListPage.PaginationShownIff | lumina-shop/src/pages/ProductListPage.jsx:119 | the page bar shows exactly when more than nine products are listed |
| LuminaListPage.ListPage.constructor | lumina-shop/src/pages/ProductListPage.jsx:18 | starts on page 1 |
| LuminaListPage.ListPage.SetCurrentPage | lumina-shop/src/pages/ProductListPage.jsx:123 | changes only the page |
| LuminaListPage.ListPage.Rerender | lumina-shop/src/pages/ProductListPage.jsx:62-64 | back to page 1 exactly when the category, a price bound or the sort changed |
| LuminaListPage.ListPage.Shown | lumina-shop/src/pages/ProductListPage.jsx:117 | the current page of the filtered, sorted catalog, so at most nine products, each in the catalog and passing the filters |
| LuminaListPage.SortChangeResetsPage | lumina-shop/src/pages/ProductListPage.jsx:62-64 | page 3 survives a re-render without changes; a sort change brings page 1 |
| LuminaPagination.Pages | lumina-shop/src/components/common/Pagination.jsx:5 | the list 1..T, empty for T ≤ 0 |
| LuminaPagination.PagesAreOneToTotal | lumina-shop/src/components/common/Pagination.jsx:5 | the buttons are exactly the pages 1..T, in increasing order |
| LuminaPagination.Requested | lumina-shop/src/components/common/Pagination.jsx:10-32 | prev is disabled exactly on page 1 and asks for c−1; next is disabled exactly on page T and asks for c+1; page p asks for p |
| LuminaPagination.RequestsStayInRange | lumina-shop/src/components/common/Pagination.jsx:5-32 | from a page within 1..T every enabled click asks for a page within 1..T |
| LuminaPagination.OneButtonHighlighted | lumina-shop/src/components/common/Pagination.jsx:22-24 | exactly one button is highlighted when 1 ≤ c ≤ T |
| LuminaPagination.NoHighlightOutside | lumina-shop/src/components/common/Pagination.jsx:22-24 | no button is highlighted when c is outside 1..T |
| Sidebar.ClampMin | src/components/common/Sidebar.jsx:20-23 | min(value, localMax − 100): at least 100 below the upper bound, and the value itself when it already is |
| Sidebar.ClampMax | src/components/common/Sidebar.jsx:26-29 | max(value, localMin + 100): at least 100 above the lower bound, and the value itself when it already is |
| Sidebar.PriceSlider.constructor | src/components/common/Sidebar.jsx:14-15 | the local bounds start as the store's range |
| Sidebar.PriceSlider.HandleMinChange | src/components/common/Sidebar.jsx:20-23 | sets the clamped lower bound; the thumbs end up at least 100 apart |
| Sidebar.PriceSlider.HandleMaxChange | src/components/common/Sidebar.jsx:26-29 | sets the clamped upper bound; the thumbs end up at least 100 apart |
| Sidebar.PriceSlider.HandleMouseUp | src/components/common/Sidebar.jsx:32-35 | the store's range becomes the local bounds, nothing else in the store changes |
| Sidebar.PriceSlider.Sync | src/components/common/Sidebar.jsx:38-41 | both local bounds are reset from the store's range |
| Sidebar.DragLowerThumb | src/components/common/Sidebar.jsx:20-41 | drag, release and sync: the store holds the clamped bound, 100 apart, and the slider agrees with it |
| Sidebar.DragUpperThumb | src/components/common/Sidebar.jsx:26-41 | the same for the upper thumb |
| Onboarding.Mount | src/components/common/OnboardingTour.jsx:43-51 | step 0, hidden, the stored flag kept, and the timer set exactly when the tour was not seen |
| Onboarding.TimerFires | src/components/common/OnboardingTour.jsx:49 | the overlay becomes visible at the same step |
| Onboarding.Close | src/components/common/OnboardingTour.jsx:61-64 | hides the overlay and records the tour as seen; keeps the invariant |
| Onboarding.Next | src/components/common/OnboardingTour.jsx:53-59 | one step on before the last step, closing on it; the step stays within 0..4 |
| Onboarding.Back | src/components/common/OnboardingTour.jsx:129-131 | offered only after step 0, one step back |
| Onboarding.PressesToFinish | src/components/common/OnboardingTour.jsx:53-59 | from step s, fewer than 5 − s presses leave the tour open at step s + n; exactly 5 − s close it and record it as seen |
| Onboarding.SeenTourStaysHidden | src/components/common/OnboardingTour.jsx:46-51 | with the flag set no timer is started, so the tour is never shown |
| Onboarding.TourView.constructor | src/components/common/OnboardingTour.jsx:43-51 | the first render is `Mount` of the stored flag |
| Onboarding.TourView.OnTimer | src/components/common/OnboardingTour.jsx:49 | the state becomes `TimerFires` of the old one |
| Onboarding.TourView.HandleClose | src/components/common/OnboardingTour.jsx:61-64 | the state becomes `Close` of the old one |
| Onboarding.TourView.HandleNext | src/components/common/OnboardingTour.jsx:53-59 | the state becomes `Next` of the old one |
| Onboarding.TourView.HandleBack | src/components/common/OnboardingTour.jsx:129-131 | the state becomes `Back` of the old one |

## Left out

- Persistence: the cart's `persist` middleware and `localStorage` are left out. The tour's stored flag is a constructor parameter.
- The catalog fetch in `useProducts` is left out: loading and error flags, the retry and the mock API.
- Toasts shown by the cart hook are left out.
- `window.scrollTo` in the page bar is left out.
- Animations and the rendering of every component are left out.
- Timers are modelled only as a step that fires. The one-second delay before the tour appears is the `TimerFires` step, and the time itself is not modelled.
- `Date.now()` cart ids are a parameter of `LuminaStore.Store.AddToCart`. The clock itself is not modelled, but because the id is free, two entries sharing one id (two additions in the same millisecond) can be represented: `CountAfterActions` states that removing such an id takes every entry with it, so the counter, which drops by one, no longer matches the cart (CountOf ≠ 1).
- Floating point is replaced by integers, so the sums are exact and there is no float tolerance. Prices are in cents for the TypeScript storefront, and the rating is in hundredths.
- Calculations.Discount: computed on integer prices as `Math.round` of the exact ratio. It does not model binary rounding of a ratio that lands just beside a half.
- Calculations.FormatPrice: formats integer cents. It does not model `toFixed` on arbitrary floats, nor the exponent notation `toFixed` uses at 1e21 and above.
- Text.Lower: lowers only the ASCII letters A-Z. Unicode case mapping is not modelled, and non-ASCII letters are kept as they are.
- `SortOption` and `FilterOptions` follow the TypeScript types, so an unknown sort string cannot reach the TypeScript `sortProducts`. The Lumina `sortBy` is a free string, and any unknown value keeps the order.
- The Lumina product's presentation fields (`imageColor`, `imageText`, `dark`) are not modelled, and neither is the random mock catalog.
- The Lumina cart drawer total (src/components/cart/CartDrawer.jsx) is not part of this model.
- The sort in place on the copy of the catalog is modelled as a sort of a value. `Sorting.SortBy` returns the sorted sequence rather than permuting an array.
- The Lumina handlers `Onboarding.Close`, `Onboarding.Next` and `Onboarding.Back` require a visible overlay, because their buttons are rendered only while it is visible.
