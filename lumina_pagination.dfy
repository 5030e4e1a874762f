/**
 * The Lumina page bar (lumina-shop/src/components/common/Pagination.jsx):
 * one button per page, and previous and next arrows.
 */
module LuminaPagination {
  import opened Types

  /** `Array.from({ length: totalPages }, (_, i) => i + 1)`; a length below 0 counts as 0. */
  function Pages(totalPages: int): (r: seq<int>)
    ensures |r| == if totalPages < 0 then 0 else totalPages
    ensures forall i | 0 <= i < |r| :: r[i] == i + 1
  {
    seq(if totalPages < 0 then 0 else totalPages, i => i + 1)
  }

  /** The buttons are exactly the pages 1..totalPages, each once, in increasing order. */
  lemma PagesAreOneToTotal(totalPages: int)
    ensures forall p :: p in Pages(totalPages) <==> 1 <= p <= totalPages
    ensures forall i, j | 0 <= i < j < |Pages(totalPages)| :: Pages(totalPages)[i] < Pages(totalPages)[j]
  {
    var r := Pages(totalPages);
    forall p | 1 <= p <= totalPages ensures p in r {
      assert r[p - 1] == p;
    }
  }

  /**
   * The events the bar sends to `onPageChange`, the same three as the
   * TypeScript storefront's bar (`ProductPagination.Click`).
   */
  datatype Click = Previous | Next | PageButton(page: int)

  predicate PrevDisabled(currentPage: int)
  {
    currentPage == 1
  }

  predicate NextDisabled(currentPage: int, totalPages: int)
  {
    currentPage == totalPages
  }

  /** The page a click asks for, or nothing when the button is disabled. */
  function Requested(currentPage: int, totalPages: int, click: Click): (r: Option<int>)
    ensures click.PageButton? ==> r == Some(click.page)
    ensures click.Previous? ==> (r.None? <==> currentPage == 1) && (r.Some? ==> r.value == currentPage - 1)
    ensures click.Next? ==> (r.None? <==> currentPage == totalPages) && (r.Some? ==> r.value == currentPage + 1)
  {
    match click
    case Previous => if PrevDisabled(currentPage) then None else Some(currentPage - 1)
    case Next => if NextDisabled(currentPage, totalPages) then None else Some(currentPage + 1)
    case PageButton(page) => Some(page)
  }

  /**
   * From a page within 1..totalPages every click that does something asks
   * for a page within 1..totalPages, provided the page button is one of the
   * bar's.
   */
  lemma RequestsStayInRange(currentPage: int, totalPages: int, click: Click)
    requires 1 <= currentPage <= totalPages
    requires click.PageButton? ==> click.page in Pages(totalPages)
    ensures var r := Requested(currentPage, totalPages, click);
            r.Some? ==> 1 <= r.value <= totalPages
  {
    PagesAreOneToTotal(totalPages);
  }

  /** Exactly one button is highlighted when the current page is one of the pages. */
  lemma OneButtonHighlighted(currentPage: int, totalPages: int)
    requires 1 <= currentPage <= totalPages
    ensures var r := Pages(totalPages);
            exists k :: 0 <= k < |r| && r[k] == currentPage && forall j | 0 <= j < |r| && j != k :: r[j] != currentPage
  {
    var r := Pages(totalPages);
    assert r[currentPage - 1] == currentPage;
  }

  /** From a current page outside the pages, no button is highlighted. */
  lemma NoHighlightOutside(currentPage: int, totalPages: int)
    requires currentPage < 1 || currentPage > totalPages
    ensures currentPage !in Pages(totalPages)
  {
    PagesAreOneToTotal(totalPages);
  }
}
