/**
 * The Lumina product list (lumina-shop/src/pages/ProductListPage.jsx): the
 * catalogue filtered by main category and price, sorted on a copy, and
 * cut into pages of nine; the page number returns to 1 whenever a filter
 * or the sort changes.
 */
module LuminaListPage {
  import opened Seqs
  import Sorting
  import opened Paging
  import opened LuminaStore

  const ItemsPerPage: int := 9

  function SameMainCategory(category: string): LuminaProduct -> bool
  {
    (p: LuminaProduct) => p.mainCategory == category
  }

  function WithinPrice(range: PriceRange): LuminaProduct -> bool
  {
    (p: LuminaProduct) => range.min <= p.price <= range.max
  }

  /** Whether a product passes both filters of the page. */
  predicate Selected(p: LuminaProduct, activeCategory: string, range: PriceRange)
  {
    (activeCategory == AllCategories || p.mainCategory == activeCategory) && range.min <= p.price <= range.max
  }

  function Selects(activeCategory: string, range: PriceRange): LuminaProduct -> bool
  {
    (p: LuminaProduct) => Selected(p, activeCategory, range)
  }

  /**
   * The products that pass both filters of the page, in catalogue
   * order: one filter by `Selected`.
   */
  function FilterProducts(products: seq<LuminaProduct>, activeCategory: string, range: PriceRange): (r: seq<LuminaProduct>)
    ensures forall p | p in r :: p in products && Selected(p, activeCategory, range)
    ensures forall p | p in products && Selected(p, activeCategory, range) :: p in r
    ensures IsSubsequence(r, products)
  {
    FilterIsSubsequence(products, Selects(activeCategory, range));
    Filter(products, Selects(activeCategory, range))
  }

  /**
   * The comparator of each sort option as an ascending integer key; every
   * comparator is a difference of keys, and the descending orders negate
   * the key. Any other option leaves the order alone.
   */
  function SortKeyOf(sortBy: string): (LuminaProduct -> int)
  {
    if sortBy == "priceAsc" then (p: LuminaProduct) => p.price
    else if sortBy == "priceDesc" then (p: LuminaProduct) => -p.price
    else if sortBy == "sales" then (p: LuminaProduct) => -p.sales
    else (p: LuminaProduct) => -p.rating
  }

  predicate IsSortOption(sortBy: string)
  {
    sortBy == "priceAsc" || sortBy == "priceDesc" || sortBy == "sales" || sortBy == "rating"
  }

  /** The switch on `sortBy`, applied to a copy. */
  function SortProducts(products: seq<LuminaProduct>, sortBy: string): (r: seq<LuminaProduct>)
    ensures multiset(r) == multiset(products)
    ensures sortBy == "priceAsc" ==> forall i, j | 0 <= i < j < |r| :: r[i].price <= r[j].price
    ensures sortBy == "priceDesc" ==> forall i, j | 0 <= i < j < |r| :: r[i].price >= r[j].price
    ensures sortBy == "sales" ==> forall i, j | 0 <= i < j < |r| :: r[i].sales >= r[j].sales
    ensures sortBy == "rating" ==> forall i, j | 0 <= i < j < |r| :: r[i].rating >= r[j].rating
    ensures !IsSortOption(sortBy) ==> r == products
  {
    if IsSortOption(sortBy) then
      var r := Sorting.SortBy(products, SortKeyOf(sortBy));
      assert forall i, j | 0 <= i < j < |r| :: SortKeyOf(sortBy)(r[i]) <= SortKeyOf(sortBy)(r[j]);
      r
    else products
  }

  /** Products that tie on the sort key keep their catalogue order. */
  lemma SortIsStable(products: seq<LuminaProduct>, sortBy: string, k: int)
    requires IsSortOption(sortBy)
    ensures Sorting.WithKey(SortProducts(products, sortBy), SortKeyOf(sortBy), k) == Sorting.WithKey(products, SortKeyOf(sortBy), k)
  {
    Sorting.SortByIsStable(products, SortKeyOf(sortBy), k);
  }

  /**
   * The memo: the catalogue copied, narrowed to the main category unless it
   * is '全部', narrowed to the price bounds, then sorted by the option.
   */
  method FilteredAndSortedProducts(catalogue: seq<LuminaProduct>, activeCategory: string, range: PriceRange, sortBy: string)
    returns (result: seq<LuminaProduct>)
    ensures result == SortProducts(FilterProducts(catalogue, activeCategory, range), sortBy)
  {
    result := catalogue;
    if activeCategory != AllCategories {
      result := Filter(result, SameMainCategory(activeCategory));
      FilterCompose(catalogue, SameMainCategory(activeCategory), WithinPrice(range), Selects(activeCategory, range));
    } else {
      FilterExtensional(catalogue, WithinPrice(range), Selects(activeCategory, range));
    }
    result := Filter(result, WithinPrice(range));
    if IsSortOption(sortBy) {
      result := Sorting.SortBy(result, SortKeyOf(sortBy));
    }
  }

  /** What the list shows for a catalogue and a filter state: exactly the selected products, each as often as in the catalogue. */
  lemma ListedProducts(catalogue: seq<LuminaProduct>, activeCategory: string, range: PriceRange, sortBy: string)
    ensures var r := SortProducts(FilterProducts(catalogue, activeCategory, range), sortBy);
            && (forall p :: p in r <==> p in catalogue && Selected(p, activeCategory, range))
            && (forall p :: multiset(r)[p] == if Selected(p, activeCategory, range) then multiset(catalogue)[p] else 0)
  {
    var f := FilterProducts(catalogue, activeCategory, range);
    var r := SortProducts(f, sortBy);
    FilterCounts(catalogue, Selects(activeCategory, range));
    forall p ensures p in r <==> p in f {
      assert p in r <==> p in multiset(r);
      assert p in f <==> p in multiset(f);
    }
  }

  /** `Math.ceil(length / 9)`. */
  function TotalPages(count: nat): (r: nat)
    ensures r == CeilDiv(count, ItemsPerPage)
    ensures r * ItemsPerPage >= count && (r > 0 ==> (r - 1) * ItemsPerPage < count)
  {
    CeilDiv(count, ItemsPerPage)
  }

  /** The products of page `currentPage`: indices (currentPage - 1) * 9 up to currentPage * 9. */
  function PaginatedProducts(list: seq<LuminaProduct>, currentPage: int): (r: seq<LuminaProduct>)
    ensures currentPage >= 1 ==> |r| <= ItemsPerPage
    ensures currentPage >= 1 && currentPage * ItemsPerPage <= |list| ==> r == list[(currentPage - 1) * ItemsPerPage..currentPage * ItemsPerPage]
    ensures currentPage >= 1 ==>
              var start := (currentPage - 1) * ItemsPerPage;
              r == if start < |list| then list[start..if start + ItemsPerPage < |list| then start + ItemsPerPage else |list|] else []
  {
    if currentPage >= 1 then PageSliceContents(list, currentPage, ItemsPerPage); PageSlice(list, currentPage, ItemsPerPage)
    else PageSlice(list, currentPage, ItemsPerPage)
  }

  /** The page bar is shown exactly when the list does not fit on one page. */
  lemma PaginationShownIff(count: nat)
    ensures TotalPages(count) > 1 <==> count > ItemsPerPage
  {
  }

  /**
   * The page's own state: the page number, and the filter values the reset
   * effect last saw.
   */
  class ListPage {
    var currentPage: int
    var seenCategory: string
    var seenRange: PriceRange
    var seenSortBy: string

    /** The first render: page 1, the effect having run once. */
    constructor(store: Store)
      ensures currentPage == 1
      ensures seenCategory == store.activeCategory && seenRange == store.priceRange && seenSortBy == store.sortBy
    {
      currentPage := 1;
      seenCategory := store.activeCategory;
      seenRange := store.priceRange;
      seenSortBy := store.sortBy;
    }

    /** `setCurrentPage`, passed to the page bar. */
    method SetCurrentPage(page: int)
      modifies this
      ensures currentPage == page
      ensures seenCategory == old(seenCategory) && seenRange == old(seenRange) && seenSortBy == old(seenSortBy)
    {
      currentPage := page;
    }

    /** The reset effect after a render: back to page 1 if a filter value or the sort changed. */
    method Rerender(store: Store)
      modifies this
      ensures seenCategory == store.activeCategory && seenRange == store.priceRange && seenSortBy == store.sortBy
      ensures currentPage == if old(seenCategory) != store.activeCategory || old(seenRange) != store.priceRange || old(seenSortBy) != store.sortBy
                             then 1 else old(currentPage)
    {
      if seenCategory != store.activeCategory || seenRange != store.priceRange || seenSortBy != store.sortBy {
        currentPage := 1;
      }
      seenCategory := store.activeCategory;
      seenRange := store.priceRange;
      seenSortBy := store.sortBy;
    }

    /** The products on screen. */
    function Shown(catalogue: seq<LuminaProduct>): (r: seq<LuminaProduct>)
      reads this
      ensures r == PaginatedProducts(SortProducts(FilterProducts(catalogue, seenCategory, seenRange), seenSortBy), currentPage)
      ensures currentPage >= 1 ==> |r| <= ItemsPerPage
      ensures forall p | p in r :: p in catalogue && Selected(p, seenCategory, seenRange)
    {
      var list := SortProducts(FilterProducts(catalogue, seenCategory, seenRange), seenSortBy);
      var r := PaginatedProducts(list, currentPage);
      assert forall p | p in list :: p in multiset(list);
      r
    }
  }

  /**
   * Going to page 3 and rendering again keeps page 3; changing the sort
   * and rendering brings the page back to 1.
   */
  method SortChangeResetsPage(store: Store, page: ListPage, sort: string)
    requires page.seenCategory == store.activeCategory && page.seenRange == store.priceRange && page.seenSortBy == store.sortBy
    requires sort != store.sortBy
    modifies store, page
    ensures page.currentPage == 1 && page.seenSortBy == sort
  {
    page.SetCurrentPage(3);
    page.Rerender(store);
    assert page.currentPage == 3;
    store.SetSortBy(sort);
    page.Rerender(store);
  }
}
