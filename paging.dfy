/**
 * Page arithmetic shared by both storefronts: `Math.ceil(n / size)` page
 * counts and the `Array.prototype.slice` that cuts out one page.
 */
module Paging {

  /**
   * How `slice` reads an index: a negative index counts back from the end,
   * and the result is clamped to 0..len.
   */
  function RelativeIndex(i: int, len: nat): (r: nat)
    ensures r <= len
  {
    if i < 0 then (if len + i < 0 then 0 else len + i)
    else if i < len then i else len
  }

  /** `s.slice(start, end)`. */
  function JsSlice<T>(s: seq<T>, start: int, end: int): (r: seq<T>)
    ensures |r| <= |s|
    ensures forall x | x in r :: x in s
  {
    var from := RelativeIndex(start, |s|);
    var to := RelativeIndex(end, |s|);
    if from < to then s[from..to] else []
  }

  /** `Math.ceil(n / d)` for a count `n` and a positive divisor: the fewest pages of `d` that hold `n`. */
  function CeilDiv(n: nat, d: int): (r: nat)
    requires d > 0
    ensures r * d >= n
    ensures r == 0 || (r - 1) * d < n
    ensures r == 0 <==> n == 0
  {
    (n + d - 1) / d
  }

  /** Page `page` (counted from 1) of `size` items: `s.slice((page - 1) * size, (page - 1) * size + size)`. */
  function PageSlice<T>(s: seq<T>, page: int, size: int): (r: seq<T>)
    ensures |r| <= |s|
    ensures forall x | x in r :: x in s
  {
    var start := (page - 1) * size;
    JsSlice(s, start, start + size)
  }

  /**
   * A page at or after the first holds the items with indices
   * (page - 1) * size up to page * size, cut short at the end of the list.
   */
  lemma PageSliceContents<T>(s: seq<T>, page: int, size: int)
    requires page >= 1 && size > 0
    ensures var start := (page - 1) * size;
            PageSlice(s, page, size) == if start < |s| then s[start..if start + size < |s| then start + size else |s|] else []
    ensures |PageSlice(s, page, size)| <= size
  {
    var start := (page - 1) * size;
    MulMonotone(0, page - 1, size);
    assert PageSlice(s, page, size) == JsSlice(s, start, start + size);
    SliceWindow(s, start, size);
  }

  /** `slice(start, start + size)` from a non-negative start: at most `size` items from `start` on. */
  lemma SliceWindow<T>(s: seq<T>, start: int, size: int)
    requires start >= 0 && size > 0
    ensures JsSlice(s, start, start + size) == if start < |s| then s[start..if start + size < |s| then start + size else |s|] else []
    ensures |JsSlice(s, start, start + size)| <= size
  {
  }

  lemma MulMonotone(a: int, b: int, c: int)
    requires a <= b && c >= 0
    ensures a * c <= b * c
  {
    assert b * c - a * c == (b - a) * c;
  }

  lemma MulSucc(a: int, b: int)
    ensures (a + 1) * b == a * b + b
  {
  }

  /** A page number past the last page gives an empty page, not an error. */
  lemma PageBeyondLastIsEmpty<T>(s: seq<T>, page: int, size: int)
    requires size > 0 && page > CeilDiv(|s|, size)
    ensures PageSlice(s, page, size) == []
  {
    var total := CeilDiv(|s|, size);
    PageSliceContents(s, page, size);
    MulMonotone(total, page - 1, size);
  }

  /** Every page before the last is full. */
  lemma PageBeforeLastIsFull<T>(s: seq<T>, page: int, size: int)
    requires size > 0 && 1 <= page < CeilDiv(|s|, size)
    ensures |PageSlice(s, page, size)| == size
  {
    var start := (page - 1) * size;
    PageBeforeLastEnds(|s|, page, size);
    assert PageSlice(s, page, size) == s[start..start + size];
  }

  /** A page before the last starts at a valid index and ends before the end of the list. */
  lemma PageBeforeLastEnds(n: nat, page: int, size: int)
    requires size > 0 && 1 <= page < CeilDiv(n, size)
    ensures 0 <= (page - 1) * size && (page - 1) * size + size < n
  {
    var total := CeilDiv(n, size);
    MulMonotone(0, page - 1, size);
    MulSucc(page - 1, size);
    MulMonotone(page, total - 1, size);
  }

  /** Pages 1..k, one after the other. */
  function PagesUpTo<T>(s: seq<T>, size: int, k: int): seq<T>
    decreases k
  {
    if k <= 0 then [] else PagesUpTo(s, size, k - 1) + PageSlice(s, k, size)
  }

  lemma {:induction false} PagesUpToIsPrefix<T>(s: seq<T>, size: int, k: int)
    requires size > 0 && k >= 0
    ensures PagesUpTo(s, size, k) == s[..if k * size < |s| then k * size else |s|]
    decreases k
  {
    if k > 0 {
      PagesUpToIsPrefix(s, size, k - 1);
      var lo := (k - 1) * size;
      MulMonotone(0, k - 1, size);
      MulSucc(k - 1, size);
      assert PageSlice(s, k, size) == JsSlice(s, lo, lo + size);
      PrefixThenSlice(s, lo, size);
    }
  }

  /** The items before index `lo`, then the slice of `size` from `lo`, are the items before `lo + size`. */
  lemma PrefixThenSlice<T>(s: seq<T>, lo: int, size: int)
    requires 0 <= lo && size > 0
    ensures s[..if lo < |s| then lo else |s|] + JsSlice(s, lo, lo + size)
            == s[..if lo + size < |s| then lo + size else |s|]
  {
    if lo < |s| {
      var hi := if lo + size < |s| then lo + size else |s|;
      assert JsSlice(s, lo, lo + size) == s[lo..hi];
      assert s[..lo] + s[lo..hi] == s[..hi];
    } else {
      assert JsSlice(s, lo, lo + size) == [];
    }
  }


  /** Concatenating pages 1..totalPages gives back the whole list, in order. */
  lemma AllPagesRebuildList<T>(s: seq<T>, size: int)
    requires size > 0
    ensures PagesUpTo(s, size, CeilDiv(|s|, size)) == s
  {
    PagesUpToIsPrefix(s, size, CeilDiv(|s|, size));
  }

  /**
   * Before page 1 the slice start is negative and `slice` counts it from the
   * end of the list: page 0 is empty, and page -1 of a list of two full
   * pages is its first page.
   */
  lemma PagesBeforeFirst<T>(s: seq<T>, size: int)
    requires size > 0
    ensures PageSlice(s, 0, size) == []
    ensures |s| == 2 * size ==> PageSlice(s, -1, size) == PageSlice(s, 1, size) != []
  {
    if |s| == 2 * size {
      PageSliceContents(s, 1, size);
    }
  }
}
