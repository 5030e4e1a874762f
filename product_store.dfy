/**
 * The product query store (src/store/productStore.ts): the catalog, the
 * filter criteria, the sort option and the pagination state, with setters
 * that send the page back to 1 whenever the query changes.
 */
module ProductStore {
  import opened Types
  import opened Filters
  import opened ProductQuery

  const DefaultPageSize: int := 12
  const InitialPagination: PaginationState := PaginationState(1, DefaultPageSize, 0)

  /**
   * One field of a `Partial<FilterOptions>`: left out of the object, or
   * written in it, possibly as `undefined` (which the object spread copies).
   */
  datatype Field<T> = Absent | Present(value: Option<T>)

  datatype FilterPatch = FilterPatch(category: Field<string>, priceRange: Field<(int, int)>, keyword: Field<string>)

  const EmptyPatch: FilterPatch := FilterPatch(Absent, Absent, Absent)

  function Overwrite<T>(current: Option<T>, field: Field<T>): Option<T>
  {
    match field
    case Absent => current
    case Present(v) => v
  }

  /** `{ ...filters, ...patch }`. */
  function MergeFilters(filters: FilterOptions, patch: FilterPatch): FilterOptions
  {
    FilterOptions(
      Overwrite(filters.category, patch.category),
      Overwrite(filters.priceRange, patch.priceRange),
      Overwrite(filters.keyword, patch.keyword))
  }

  /** The patch that has the effect of applying `first`, then `second`. */
  function ThenPatch(first: FilterPatch, second: FilterPatch): FilterPatch
  {
    FilterPatch(
      if second.category.Absent? then first.category else second.category,
      if second.priceRange.Absent? then first.priceRange else second.priceRange,
      if second.keyword.Absent? then first.keyword else second.keyword)
  }

  /** The patch that writes every field of `filters`. */
  function FullPatch(filters: FilterOptions): FilterPatch
  {
    FilterPatch(Present(filters.category), Present(filters.priceRange), Present(filters.keyword))
  }

  /**
   * Merging is a field-wise overwrite: an empty patch changes nothing, a
   * patch applied twice acts once, two patches in a row act as one, and a
   * patch that writes every field replaces the criteria outright.
   */
  lemma MergeLaws(filters: FilterOptions, first: FilterPatch, second: FilterPatch, other: FilterOptions)
    ensures MergeFilters(filters, EmptyPatch) == filters
    ensures MergeFilters(MergeFilters(filters, first), first) == MergeFilters(filters, first)
    ensures MergeFilters(MergeFilters(filters, first), second) == MergeFilters(filters, ThenPatch(first, second))
    ensures MergeFilters(filters, FullPatch(other)) == other
  {
  }

  /** The category patch sent by the filter panel: the '全部' choice clears the category. */
  function CategoryChoicePatch(choice: string): FilterPatch
  {
    FilterPatch(Present(if choice == "全部" then None else Some(choice)), Absent, Absent)
  }

  /** After choosing '全部' the category no longer constrains the result. */
  lemma AllCategoriesChoiceClearsCategory(filters: FilterOptions, p: Product)
    ensures !CategoryActive(MergeFilters(filters, CategoryChoicePatch("全部")))
    ensures CategoryTest(MergeFilters(filters, CategoryChoicePatch("全部")), p)
  {
  }

  class Store {
    var products: seq<Product>
    var filters: FilterOptions
    var sortOption: SortOption
    var pagination: PaginationState

    /** No action changes the page size or the item count. */
    ghost predicate Valid()
      reads this
    {
      pagination.pageSize == DefaultPageSize && pagination.totalItems == 0
    }

    constructor ()
      ensures Valid()
      ensures products == [] && filters == NoFilters && sortOption == Default
      ensures pagination == InitialPagination
    {
      products := [];
      filters := NoFilters;
      sortOption := Default;
      pagination := InitialPagination;
    }

    method SetProducts(newProducts: seq<Product>)
      requires Valid()
      modifies this
      ensures Valid()
      ensures products == newProducts
      ensures filters == old(filters) && sortOption == old(sortOption) && pagination == old(pagination)
    {
      products := newProducts;
    }

    method SetFilters(patch: FilterPatch)
      requires Valid()
      modifies this
      ensures Valid()
      ensures filters == MergeFilters(old(filters), patch)
      ensures pagination == old(pagination).(currentPage := 1)
      ensures products == old(products) && sortOption == old(sortOption)
    {
      filters := MergeFilters(filters, patch);
      pagination := pagination.(currentPage := 1);
    }

    method SetSortOption(option: SortOption)
      requires Valid()
      modifies this
      ensures Valid()
      ensures sortOption == option
      ensures pagination == old(pagination).(currentPage := 1)
      ensures products == old(products) && filters == old(filters)
    {
      sortOption := option;
      pagination := pagination.(currentPage := 1);
    }

    method SetPage(page: int)
      requires Valid()
      modifies this
      ensures Valid()
      ensures pagination == old(pagination).(currentPage := page)
      ensures products == old(products) && filters == old(filters) && sortOption == old(sortOption)
    {
      pagination := pagination.(currentPage := page);
    }

    method ResetFilters()
      requires Valid()
      modifies this
      ensures Valid()
      ensures filters == NoFilters && sortOption == Default && pagination == InitialPagination
      ensures products == old(products)
    {
      filters := NoFilters;
      sortOption := Default;
      pagination := InitialPagination;
    }

    /** What the products hook derives from the current state. */
    function CurrentView(): ProductsView
      reads this
      requires Valid()
    {
      View(products, filters, sortOption, pagination)
    }
  }

  /**
   * A client session: whatever page was showing, changing the criteria or
   * the sort shows page 1 of the new list; changing the page keeps the query.
   */
  method QuerySession(store: Store, patch: FilterPatch, option: SortOption, page: int)
    requires store.Valid()
    modifies store
    ensures store.Valid()
    ensures store.filters == MergeFilters(old(store.filters), patch) && store.sortOption == option
    ensures store.pagination.currentPage == 1 && store.products == old(store.products)
    ensures store.CurrentView() == View(store.products, store.filters, option, InitialPagination)
  {
    store.SetPage(page);
    ghost var before := store.filters;
    store.SetFilters(patch);
    assert store.pagination.currentPage == 1;
    assert store.filters == MergeFilters(before, patch);
    store.SetPage(page);
    store.SetSortOption(option);
    assert store.pagination.currentPage == 1 && store.filters == MergeFilters(before, patch);
  }
}
