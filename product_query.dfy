/**
 * The derived values of the products hook (src/hooks/useProducts.ts):
 * filter, then sort, then cut out the current page; count the matches and
 * the pages. The catalog fetch, loading and error flags are not modelled.
 */
module ProductQuery {
  import opened Types
  import opened Seqs
  import opened Filters
  import opened Sorting
  import opened Paging

  /**
   * `filteredAndSortedProducts`: the matching products, in sort order. The
   * first clause hands the order and stability contracts of `SortProducts`
   * on to the hook's list.
   */
  function FilteredAndSorted(products: seq<Product>, filters: FilterOptions, option: SortOption): (r: seq<Product>)
    ensures r == SortProducts(ApplyMultipleFilters(products, filters), option)
    ensures forall p | p in r :: p in products && MeetsCriteria(filters, p)
    ensures forall p | p in products && MeetsCriteria(filters, p) :: p in r
    ensures forall p :: multiset(r)[p] == if MeetsCriteria(filters, p) then multiset(products)[p] else 0
  {
    var selected := ApplyMultipleFilters(products, filters);
    ApplyMultipleFiltersSelects(products, filters);
    var r := SortProducts(selected, option);
    SameMultisetSameMembers(r, selected);
    r
  }

  /** What the hook hands to the page. */
  datatype ProductsView = ProductsView(
    products: seq<Product>,      // the current page
    totalProducts: nat,
    totalPages: nat
  )

  /** The hook's result for the store's current state. */
  function View(products: seq<Product>, filters: FilterOptions, option: SortOption, pagination: PaginationState): (v: ProductsView)
    requires pagination.pageSize > 0
    ensures v.totalProducts == |ApplyMultipleFilters(products, filters)|
    ensures v.totalPages * pagination.pageSize >= v.totalProducts
    ensures v.totalPages == 0 || (v.totalPages - 1) * pagination.pageSize < v.totalProducts
    ensures |v.products| <= pagination.pageSize
    ensures forall p | p in v.products :: p in products && MeetsCriteria(filters, p)
  {
    var all := FilteredAndSorted(products, filters, option);
    var page := PageSlice(all, pagination.currentPage, pagination.pageSize);
    assert forall p | p in page :: p in all;
    ProductsView(page, |all|, CeilDiv(|all|, pagination.pageSize))
  }

  /** Changing only the sort option changes neither the product count nor the page count. */
  lemma SortDoesNotChangeCounts(products: seq<Product>, filters: FilterOptions, a: SortOption, b: SortOption, pagination: PaginationState)
    requires pagination.pageSize > 0
    ensures View(products, filters, a, pagination).totalProducts == View(products, filters, b, pagination).totalProducts
    ensures View(products, filters, a, pagination).totalPages == View(products, filters, b, pagination).totalPages
  {
  }

  /** The counts do not depend on the current page. */
  lemma CountsIgnoreCurrentPage(products: seq<Product>, filters: FilterOptions, option: SortOption, pagination: PaginationState, page: int)
    requires pagination.pageSize > 0
    ensures View(products, filters, option, pagination).totalProducts
            == View(products, filters, option, pagination.(currentPage := page)).totalProducts
    ensures View(products, filters, option, pagination).totalPages
            == View(products, filters, option, pagination.(currentPage := page)).totalPages
  {
  }

  /**
   * The current page is page `currentPage` of the filtered and sorted list;
   * past the last page it is empty, and the pages 1..totalPages laid end
   * to end are the whole list.
   */
  lemma ViewPages(products: seq<Product>, filters: FilterOptions, option: SortOption, pagination: PaginationState)
    requires pagination.pageSize > 0
    ensures var all := FilteredAndSorted(products, filters, option);
            var v := View(products, filters, option, pagination);
            && v.products == PageSlice(all, pagination.currentPage, pagination.pageSize)
            && (pagination.currentPage > v.totalPages ==> v.products == [])
            && PagesUpTo(all, pagination.pageSize, v.totalPages) == all
  {
    var all := FilteredAndSorted(products, filters, option);
    var v := View(products, filters, option, pagination);
    assert v.products == PageSlice(all, pagination.currentPage, pagination.pageSize);
    assert v.totalPages == CeilDiv(|all|, pagination.pageSize);
    if pagination.currentPage > v.totalPages {
      PageBeyondLastIsEmpty(all, pagination.currentPage, pagination.pageSize);
    }
    AllPagesRebuildList(all, pagination.pageSize);
  }

  /**
   * Thirteen matching products in pages of twelve: two pages, the first
   * full, the second holding one product, and a third page that is empty.
   */
  lemma ThirteenProductsMakeTwoPages(products: seq<Product>)
    requires |products| == 13
    ensures var pagination := PaginationState(1, 12, 0);
            var v1 := View(products, NoFilters, Default, pagination);
            && v1.totalPages == 2
            && |v1.products| == 12
            && |View(products, NoFilters, Default, pagination.(currentPage := 2)).products| == 1
            && View(products, NoFilters, Default, pagination.(currentPage := 3)).products == []
  {
    InactiveCriteriaKeepAll(products, NoFilters);
  }
}
