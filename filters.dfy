/**
 * The product filters of src/utils/filters.ts: price range, category and
 * keyword, and their AND-combination `applyMultipleFilters`.
 */
module Filters {
  import opened Types
  import opened Seqs
  import opened Text

  /** Both ends of the range are inclusive. */
  predicate InPriceRange(p: Product, priceRange: (int, int))
  {
    p.price >= priceRange.0 && p.price <= priceRange.1
  }

  function FilterByPriceRange(products: seq<Product>, priceRange: (int, int)): (r: seq<Product>)
    ensures forall p | p in r :: p in products && InPriceRange(p, priceRange)
    ensures forall p | p in products && InPriceRange(p, priceRange) :: p in r
    ensures IsSubsequence(r, products)
    ensures forall p :: multiset(r)[p] == if InPriceRange(p, priceRange) then multiset(products)[p] else 0
    ensures priceRange.0 > priceRange.1 ==> r == []
  {
    var keep := p => InPriceRange(p, priceRange);
    FilterIsSubsequence(products, keep);
    FilterCounts(products, keep);
    Filter(products, keep)
  }

  function FilterByCategory(products: seq<Product>, category: string): (r: seq<Product>)
    ensures forall p | p in r :: p in products && p.category == category
    ensures forall p | p in products && p.category == category :: p in r
    ensures IsSubsequence(r, products)
    ensures forall p :: multiset(r)[p] == if p.category == category then multiset(products)[p] else 0
  {
    var keep := (p: Product) => p.category == category;
    FilterIsSubsequence(products, keep);
    FilterCounts(products, keep);
    Filter(products, keep)
  }

  /** The search key: the keyword lowered, then trimmed. */
  function NormalizedKeyword(keyword: string): string
  {
    Trim(Lower(keyword))
  }

  /** Case-insensitive substring match of the search key against name or description. */
  predicate MatchesKeyword(p: Product, key: string)
  {
    Contains(Lower(p.name), key) || Contains(Lower(p.description), key)
  }

  function FilterByKeyword(products: seq<Product>, keyword: string): (r: seq<Product>)
    ensures AllWhitespace(keyword) ==> r == products
    ensures !AllWhitespace(keyword) ==>
              (forall p | p in r :: p in products && MatchesKeyword(p, NormalizedKeyword(keyword)))
              && (forall p | p in products && MatchesKeyword(p, NormalizedKeyword(keyword)) :: p in r)
    ensures IsSubsequence(r, products)
    ensures forall p :: multiset(r)[p] == if AllWhitespace(keyword) || MatchesKeyword(p, NormalizedKeyword(keyword)) then multiset(products)[p] else 0
  {
    var key := NormalizedKeyword(keyword);
    BlankKeywordIff(keyword);
    if key == [] then
      FilterKeepsAll(products, _ => true);
      FilterIsSubsequence(products, _ => true);
      products
    else
      var keep := p => MatchesKeyword(p, key);
      FilterIsSubsequence(products, keep);
      FilterCounts(products, keep);
      Filter(products, keep)
  }

  /** The search key is empty exactly when the keyword is empty or all whitespace. */
  lemma BlankKeywordIff(keyword: string)
    ensures NormalizedKeyword(keyword) == [] <==> AllWhitespace(keyword)
  {
    TrimEmptyIff(Lower(keyword));
    LowerKeepsWhitespace(keyword);
  }

  /** A category criterion counts when it is present, non-empty and not 'all'. */
  predicate CategoryActive(filters: FilterOptions)
  {
    filters.category.Some? && filters.category.value != "" && filters.category.value != "all"
  }

  /** A keyword criterion counts when it is present and non-empty. */
  predicate KeywordActive(filters: FilterOptions)
  {
    filters.keyword.Some? && filters.keyword.value != ""
  }

  predicate CategoryTest(filters: FilterOptions, p: Product)
  {
    CategoryActive(filters) ==> p.category == filters.category.value
  }

  predicate PriceTest(filters: FilterOptions, p: Product)
  {
    filters.priceRange.Some? ==> InPriceRange(p, filters.priceRange.value)
  }

  predicate KeywordTest(filters: FilterOptions, p: Product)
  {
    var key := NormalizedKeyword(filters.keyword.GetOr(""));
    KeywordActive(filters) && key != [] ==> MatchesKeyword(p, key)
  }

  /** A product meets the criteria when it meets each criterion that is present. */
  predicate MeetsCriteria(filters: FilterOptions, p: Product)
  {
    CategoryTest(filters, p) && PriceTest(filters, p) && KeywordTest(filters, p)
  }

  function ApplyMultipleFilters(products: seq<Product>, filters: FilterOptions): (r: seq<Product>)
    ensures forall p | p in r :: p in products && MeetsCriteria(filters, p)
    ensures forall p | p in products && MeetsCriteria(filters, p) :: p in r
  {
    var byCategory := if CategoryActive(filters) then FilterByCategory(products, filters.category.value) else products;
    assert forall p | p in byCategory :: p in products && CategoryTest(filters, p);
    assert forall p | p in products && CategoryTest(filters, p) :: p in byCategory;
    var byPrice := if filters.priceRange.Some? then FilterByPriceRange(byCategory, filters.priceRange.value) else byCategory;
    assert forall p | p in byPrice :: p in byCategory && PriceTest(filters, p);
    assert forall p | p in byCategory && PriceTest(filters, p) :: p in byPrice;
    BlankKeywordIff(filters.keyword.GetOr(""));
    if KeywordActive(filters) then FilterByKeyword(byPrice, filters.keyword.value) else byPrice
  }

  /**
   * The successive filters of `applyMultipleFilters` are one filter by the
   * conjunction of the criteria: the result keeps input order and
   * multiplicity.
   */
  lemma ApplyMultipleFiltersIsOneFilter(products: seq<Product>, filters: FilterOptions)
    ensures ApplyMultipleFilters(products, filters) == Filter(products, p => MeetsCriteria(filters, p))
  {
    var cat := p => CategoryTest(filters, p);
    var price := p => PriceTest(filters, p);
    var kw := p => KeywordTest(filters, p);
    var catPrice := p => CategoryTest(filters, p) && PriceTest(filters, p);
    var all := p => MeetsCriteria(filters, p);

    var byCategory := if CategoryActive(filters) then FilterByCategory(products, filters.category.value) else products;
    if CategoryActive(filters) {
      FilterExtensional(products, (p: Product) => p.category == filters.category.value, cat);
    } else {
      FilterKeepsAll(products, cat);
    }
    assert byCategory == Filter(products, cat);

    var byPrice := if filters.priceRange.Some? then FilterByPriceRange(byCategory, filters.priceRange.value) else byCategory;
    if filters.priceRange.Some? {
      FilterExtensional(byCategory, p => InPriceRange(p, filters.priceRange.value), price);
    } else {
      FilterKeepsAll(byCategory, price);
    }
    assert byPrice == Filter(byCategory, price);

    var key := NormalizedKeyword(filters.keyword.GetOr(""));
    if KeywordActive(filters) && key != [] {
      FilterExtensional(byPrice, p => MatchesKeyword(p, key), kw);
    } else {
      FilterKeepsAll(byPrice, kw);
    }
    BlankKeywordIff(filters.keyword.GetOr(""));
    assert ApplyMultipleFilters(products, filters) == Filter(byPrice, kw);

    FilterCompose(products, cat, price, catPrice);
    FilterCompose(products, catPrice, kw, all);
  }

  /** The combined filter is a subsequence of its input with every match kept as often as it occurs. */
  lemma ApplyMultipleFiltersSelects(products: seq<Product>, filters: FilterOptions)
    ensures IsSubsequence(ApplyMultipleFilters(products, filters), products)
    ensures forall p :: multiset(ApplyMultipleFilters(products, filters))[p]
                        == if MeetsCriteria(filters, p) then multiset(products)[p] else 0
  {
    ApplyMultipleFiltersIsOneFilter(products, filters);
    FilterIsSubsequence(products, p => MeetsCriteria(filters, p));
    FilterCounts(products, p => MeetsCriteria(filters, p));
  }

  /** Filtering an already filtered list with the same criteria changes nothing. */
  lemma ApplyMultipleFiltersIdempotent(products: seq<Product>, filters: FilterOptions)
    ensures ApplyMultipleFilters(ApplyMultipleFilters(products, filters), filters)
            == ApplyMultipleFilters(products, filters)
  {
    var once := ApplyMultipleFilters(products, filters);
    ApplyMultipleFiltersIsOneFilter(products, filters);
    ApplyMultipleFiltersIsOneFilter(once, filters);
    FilterIdempotent(products, p => MeetsCriteria(filters, p));
  }

  /** Absent criteria, an empty or 'all' category and an empty keyword constrain nothing. */
  lemma InactiveCriteriaKeepAll(products: seq<Product>, filters: FilterOptions)
    requires !CategoryActive(filters) && filters.priceRange.None? && !KeywordActive(filters)
    ensures ApplyMultipleFilters(products, filters) == products
  {
    ApplyMultipleFiltersIsOneFilter(products, filters);
    FilterKeepsAll(products, p => MeetsCriteria(filters, p));
  }
}
