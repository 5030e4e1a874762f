/**
 * The page bar of the TypeScript storefront
 * (src/components/product/ProductPagination.tsx): hidden when one page
 * holds every product; otherwise previous and next buttons around at most
 * seven entries, page numbers and ellipses.
 */
module ProductPagination {
  import opened Types
  import opened Paging

  /** An entry of the bar: a page button or the '...' marker. */
  datatype PageItem = PageNo(n: int) | Ellipsis

  const MaxVisiblePages: int := 5

  /** `Math.ceil(totalProducts / pageSize)`. */
  function TotalPages(totalProducts: nat, pageSize: int): (r: nat)
    requires pageSize > 0
    ensures r * pageSize >= totalProducts && (r > 0 ==> (r - 1) * pageSize < totalProducts)
    ensures r == 0 <==> totalProducts == 0
  {
    CeilDiv(totalProducts, pageSize)
  }

  /** The bar is rendered only when the products do not fit on one page. */
  predicate Visible(totalProducts: nat, pageSize: int)
  {
    totalProducts > pageSize
  }

  /** The bar shows exactly when there are at least two pages. */
  lemma VisibleIffSeveralPages(totalProducts: nat, pageSize: int)
    requires pageSize > 0
    ensures Visible(totalProducts, pageSize) <==> TotalPages(totalProducts, pageSize) >= 2
  {
    var t := TotalPages(totalProducts, pageSize);
    if t >= 2 {
      MulMonotone(1, t - 1, pageSize);
    } else if t == 1 {
      assert totalProducts <= pageSize;
    }
  }

  /** The buttons lo, lo + 1, ..., hi. */
  function Range(lo: int, hi: int): (r: seq<PageItem>)
    ensures |r| == if hi < lo then 0 else hi - lo + 1
    ensures forall k | 0 <= k < |r| :: r[k] == PageNo(lo + k)
    decreases hi - lo
  {
    if hi < lo then [] else Range(lo, hi - 1) + [PageNo(hi)]
  }

  /** What `getPageNumbers` returns, case by case. */
  function PageNumbers(currentPage: int, totalPages: int): (r: seq<PageItem>)
    ensures totalPages <= MaxVisiblePages ==> |r| == if totalPages < 0 then 0 else totalPages
    ensures totalPages > MaxVisiblePages ==> 6 <= |r| <= 7 && r[0] == PageNo(1) && r[|r| - 1] == PageNo(totalPages)
    ensures totalPages > MaxVisiblePages ==> (|r| == 7 <==> 3 < currentPage < totalPages - 2)
  {
    if totalPages <= MaxVisiblePages then
      Range(1, totalPages)
    else if currentPage <= 3 then
      Range(1, 4) + [Ellipsis, PageNo(totalPages)]
    else if currentPage >= totalPages - 2 then
      [PageNo(1), Ellipsis] + Range(totalPages - 3, totalPages)
    else
      [PageNo(1), Ellipsis, PageNo(currentPage - 1), PageNo(currentPage), PageNo(currentPage + 1), Ellipsis, PageNo(totalPages)]
  }

  /** `getPageNumbers`: the entries pushed one by one. */
  method GetPageNumbers(currentPage: int, totalPages: int) returns (pages: seq<PageItem>)
    ensures pages == PageNumbers(currentPage, totalPages)
  {
    pages := [];
    if totalPages <= MaxVisiblePages {
      var i := 1;
      while i <= totalPages
        invariant 1 <= i <= if totalPages >= 1 then totalPages + 1 else 1
        invariant pages == Range(1, i - 1)
        decreases totalPages - i
      {
        pages := pages + [PageNo(i)];
        i := i + 1;
      }
    } else {
      if currentPage <= 3 {
        var i := 1;
        while i <= 4
          invariant 1 <= i <= 5
          invariant pages == Range(1, i - 1)
        {
          pages := pages + [PageNo(i)];
          i := i + 1;
        }
        pages := pages + [Ellipsis];
        pages := pages + [PageNo(totalPages)];
        assert pages == Range(1, 4) + [Ellipsis, PageNo(totalPages)];
      } else if currentPage >= totalPages - 2 {
        pages := pages + [PageNo(1)];
        pages := pages + [Ellipsis];
        var i := totalPages - 3;
        while i <= totalPages
          invariant totalPages - 3 <= i <= totalPages + 1
          invariant pages == [PageNo(1), Ellipsis] + Range(totalPages - 3, i - 1)
        {
          pages := pages + [PageNo(i)];
          i := i + 1;
        }
      } else {
        pages := pages + [PageNo(1)];
        pages := pages + [Ellipsis];
        pages := pages + [PageNo(currentPage - 1)];
        pages := pages + [PageNo(currentPage)];
        pages := pages + [PageNo(currentPage + 1)];
        pages := pages + [Ellipsis];
        pages := pages + [PageNo(totalPages)];
      }
    }
  }

  /**
   * A well-formed bar for `totalPages` pages: it starts at page 1 and ends at
   * the last page; neighbouring buttons are consecutive pages; an ellipsis
   * sits between two buttons and hides at least one page.
   */
  predicate WellFormedBar(r: seq<PageItem>, totalPages: int)
  {
    && |r| >= 1 && r[0] == PageNo(1) && r[|r| - 1] == PageNo(totalPages)
    && (forall k | 0 <= k < |r| - 1 && r[k].PageNo? && r[k + 1].PageNo? :: r[k + 1].n == r[k].n + 1)
    && (forall k | 0 <= k < |r| && r[k].Ellipsis? ::
          0 < k < |r| - 1 && r[k - 1].PageNo? && r[k + 1].PageNo? && r[k + 1].n >= r[k - 1].n + 2)
  }

  /** The page numbers shown rise strictly from left to right and stay within 1..totalPages. */
  predicate IncreasingWithin(r: seq<PageItem>, totalPages: int)
  {
    && (forall k | 0 <= k < |r| && r[k].PageNo? :: 1 <= r[k].n <= totalPages)
    && (forall i, j | 0 <= i < j < |r| && r[i].PageNo? && r[j].PageNo? :: r[i].n < r[j].n)
  }

  /** A well-formed bar has its numbers strictly increasing from 1 to the last page. */
  lemma {:induction false} WellFormedIsIncreasing(r: seq<PageItem>, totalPages: int)
    requires WellFormedBar(r, totalPages)
    ensures forall i, j | 0 <= i < j < |r| && r[i].PageNo? && r[j].PageNo? :: r[i].n < r[j].n
    ensures forall k | 0 <= k < |r| && r[k].PageNo? :: 1 <= r[k].n <= totalPages
  {
    // Each entry's number, an ellipsis counted as its left neighbour plus one, rises by at least one per step.
    forall i, j | 0 <= i < j < |r| && r[i].PageNo? && r[j].PageNo?
      ensures r[i].n < r[j].n
    {
      StepRises(r, totalPages, i, j);
    }
    forall k | 0 <= k < |r| && r[k].PageNo?
      ensures 1 <= r[k].n <= totalPages
    {
      if k > 0 {
        StepRises(r, totalPages, 0, k);
      }
      if k < |r| - 1 {
        StepRises(r, totalPages, k, |r| - 1);
      }
    }
  }

  /** The value an entry stands for: its number, or for an ellipsis one more than its left neighbour. */
  function Level(r: seq<PageItem>, k: int): int
    requires 0 <= k < |r|
  {
    match r[k]
    case PageNo(n) => n
    case Ellipsis => if k > 0 && r[k - 1].PageNo? then r[k - 1].n + 1 else 0
  }

  lemma {:induction false} StepRises(r: seq<PageItem>, totalPages: int, i: int, j: int)
    requires WellFormedBar(r, totalPages) && 0 <= i < j < |r| && r[i].PageNo?
    ensures Level(r, j) >= Level(r, i) + (j - i)
    ensures r[j].PageNo? ==> r[j].n > r[i].n
    decreases j - i
  {
    if j > i + 1 {
      if r[j - 1].PageNo? {
        StepRises(r, totalPages, i, j - 1);
      } else if i < j - 2 {
        StepRises(r, totalPages, i, j - 2);
      }
    }
  }

  /** Buttons 1..totalPages, and nothing else, form a well-formed bar. */
  lemma RangeWellFormed(totalPages: int)
    requires totalPages >= 1
    ensures WellFormedBar(Range(1, totalPages), totalPages)
  {
  }

  /** The bar of the last pages: 1, ..., then the last four pages. */
  lemma TailWellFormed(totalPages: int)
    requires totalPages > MaxVisiblePages
    ensures WellFormedBar([PageNo(1), Ellipsis] + Range(totalPages - 3, totalPages), totalPages)
  {
    var r := [PageNo(1), Ellipsis] + Range(totalPages - 3, totalPages);
    assert forall k | 2 <= k < 6 :: r[k] == PageNo(totalPages - 5 + k);
  }

  /** Every bar `getPageNumbers` builds for a positive number of pages is well formed and holds at most seven entries. */
  lemma PageNumbersWellFormed(currentPage: int, totalPages: int)
    requires totalPages >= 1
    ensures WellFormedBar(PageNumbers(currentPage, totalPages), totalPages)
    ensures |PageNumbers(currentPage, totalPages)| <= 7
  {
    if totalPages <= MaxVisiblePages {
      RangeWellFormed(totalPages);
    } else if currentPage <= 3 {
      HeadWellFormed(totalPages);
    } else if currentPage >= totalPages - 2 {
      TailWellFormed(totalPages);
    } else {
      MiddleWellFormed(currentPage, totalPages);
    }
  }

  /** The bar of the first pages: pages 1 to 4, ..., then the last page. */
  lemma HeadWellFormed(totalPages: int)
    requires totalPages > MaxVisiblePages
    ensures WellFormedBar(Range(1, 4) + [Ellipsis, PageNo(totalPages)], totalPages)
  {
    var r := Range(1, 4) + [Ellipsis, PageNo(totalPages)];
    assert forall k | 0 <= k < 4 :: r[k] == PageNo(k + 1);
  }

  /** The bar around a middle page: 1, ..., its two neighbours and itself, ..., the last page. */
  lemma MiddleWellFormed(currentPage: int, totalPages: int)
    requires 3 < currentPage < totalPages - 2
    ensures WellFormedBar([PageNo(1), Ellipsis, PageNo(currentPage - 1), PageNo(currentPage),
                           PageNo(currentPage + 1), Ellipsis, PageNo(totalPages)], totalPages)
  {
  }

  /** The page numbers in every bar rise strictly and stay within 1..totalPages. */
  lemma PageNumbersIncreasing(currentPage: int, totalPages: int)
    requires totalPages >= 1
    ensures IncreasingWithin(PageNumbers(currentPage, totalPages), totalPages)
  {
    PageNumbersWellFormed(currentPage, totalPages);
    WellFormedIsIncreasing(PageNumbers(currentPage, totalPages), totalPages);
  }

  /** In a bar whose numbers rise strictly, a page has at most one button. */
  lemma AtMostOneButton(r: seq<PageItem>, totalPages: int, k: int, page: int)
    requires IncreasingWithin(r, totalPages) && 0 <= k < |r| && r[k] == PageNo(page)
    ensures forall j | 0 <= j < |r| && j != k :: r[j] != PageNo(page)
  {
    forall j | 0 <= j < |r| && j != k ensures r[j] != PageNo(page) {
      if r[j].PageNo? {
        if j < k { assert r[j].n < r[k].n; } else { assert r[k].n < r[j].n; }
      }
    }
  }

  /** With five pages or fewer every page has a button, in order. */
  lemma FewPagesAllShown(currentPage: int, totalPages: int)
    requires 1 <= totalPages <= MaxVisiblePages
    ensures PageNumbers(currentPage, totalPages) == Range(1, totalPages)
    ensures forall p | 1 <= p <= totalPages :: PageNo(p) in PageNumbers(currentPage, totalPages)
  {
    var r := PageNumbers(currentPage, totalPages);
    forall p | 1 <= p <= totalPages ensures PageNo(p) in r {
      assert r[p - 1] == PageNo(p);
    }
  }

  /** The current page, when it is a page, always has its button. */
  lemma CurrentPageShown(currentPage: int, totalPages: int)
    requires 1 <= currentPage <= totalPages
    ensures PageNo(currentPage) in PageNumbers(currentPage, totalPages)
  {
    var r := PageNumbers(currentPage, totalPages);
    if totalPages <= MaxVisiblePages {
      FewPagesAllShown(currentPage, totalPages);
    } else if currentPage <= 3 {
      assert r[currentPage - 1] == PageNo(currentPage);
    } else if currentPage >= totalPages - 2 {
      assert r[2 + currentPage - (totalPages - 3)] == PageNo(currentPage);
    } else {
      assert r[3] == PageNo(currentPage);
    }
  }

  /** Exactly one button is highlighted when the current page is a page. */
  lemma OneButtonHighlighted(currentPage: int, totalPages: int)
    requires 1 <= currentPage <= totalPages
    ensures var r := PageNumbers(currentPage, totalPages);
            exists k :: 0 <= k < |r| && r[k] == PageNo(currentPage)
                        && forall j | 0 <= j < |r| && j != k :: r[j] != PageNo(currentPage)
  {
    var r := PageNumbers(currentPage, totalPages);
    CurrentPageShown(currentPage, totalPages);
    PageNumbersIncreasing(currentPage, totalPages);
    var k :| 0 <= k < |r| && r[k] == PageNo(currentPage);
    AtMostOneButton(r, totalPages, k, currentPage);
  }

  /**
   * The events the bar passes to `handlePageChange`. The Lumina bar sends
   * the same three events with the same disabled states (see
   * `LuminaPagination.Click` and `LuminaPagination.Requested`); each bar keeps
   * its own copy as each source file does.
   */
  datatype Click = Previous | Next | PageButton(page: int)

  predicate PrevDisabled(currentPage: int)
  {
    currentPage == 1
  }

  predicate NextDisabled(currentPage: int, totalPages: int)
  {
    currentPage == totalPages
  }

  /** The page a click hands to `onPageChange`, or nothing when the button is disabled. */
  function Requested(currentPage: int, totalPages: int, click: Click): (r: Option<int>)
    ensures click.PageButton? ==> r == Some(click.page)
    ensures click.Previous? ==> (r.None? <==> currentPage == 1) && (r.Some? ==> r.value == currentPage - 1)
    ensures click.Next? ==> (r.None? <==> currentPage == totalPages) && (r.Some? ==> r.value == currentPage + 1)
  {
    match click
    case Previous => if PrevDisabled(currentPage) then None else Some(currentPage - 1)
    case Next => if NextDisabled(currentPage, totalPages) then None else Some(currentPage + 1)
    case PageButton(page) => Some(page)
  }

  /**
   * From a page within 1..totalPages every click that does something asks
   * for a page within 1..totalPages, when a page button is one of the bar's;
   * from a page past the last one, next stays enabled and asks for a page
   * further out.
   */
  lemma PrevNextTargets(currentPage: int, totalPages: int, click: Click)
    requires click.PageButton? ==> PageNo(click.page) in PageNumbers(currentPage, totalPages)
    ensures var r := Requested(currentPage, totalPages, click);
            1 <= currentPage <= totalPages && r.Some? ==> 1 <= r.value <= totalPages
    ensures currentPage > totalPages ==> Requested(currentPage, totalPages, Next) == Some(currentPage + 1)
  {
    if click.PageButton? && totalPages >= 1 {
      PageNumbersIncreasing(currentPage, totalPages);
      var r := PageNumbers(currentPage, totalPages);
      var k :| 0 <= k < |r| && r[k] == PageNo(click.page);
      assert r[k].PageNo?;
    }
  }
}
