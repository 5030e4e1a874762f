/**
 * Sorting a copy of a product list (src/utils/sorting.ts).
 *
 * JavaScript's `Array.prototype.sort` is stable, and every comparator in the
 * storefront is a difference of two integer keys (`a.price - b.price`,
 * `b.price - a.price`, ...). Such a sort is a stable sort ascending on one
 * integer key, the key being negated for the descending orders.
 * `SortBy` is that sort, written as an insertion sort over values, so the
 * caller's sequence cannot change.
 */
module Sorting {
  import opened Types
  import opened Seqs

  predicate SortedBy<T>(s: seq<T>, key: T -> int)
  {
    forall i, j | 0 <= i < j < |s| :: key(s[i]) <= key(s[j])
  }

  /** Puts `x` in front of the first element whose key is not smaller. */
  function Insert<T(==)>(x: T, s: seq<T>, key: T -> int): (r: seq<T>)
    requires SortedBy(s, key)
    ensures SortedBy(r, key)
    ensures multiset(r) == multiset(s) + multiset{x}
    ensures |r| == |s| + 1
    ensures key(r[0]) == if s != [] && key(s[0]) < key(x) then key(s[0]) else key(x)
  {
    if s == [] || key(x) <= key(s[0]) then
      [x] + s
    else
      TailSorted(s, key);
      var rest := Insert(x, s[1..], key);
      InsertBehindHead(x, s, key, rest);
      [s[0]] + rest
  }

  lemma TailSorted<T>(s: seq<T>, key: T -> int)
    requires SortedBy(s, key) && s != []
    ensures SortedBy(s[1..], key)
  {
    forall i, j | 0 <= i < j < |s| - 1 ensures key(s[1..][i]) <= key(s[1..][j]) {
      assert s[1..][i] == s[i + 1] && s[1..][j] == s[j + 1];
    }
  }

  /** When `x` goes behind the head, the head followed by `x` inserted into the tail is sorted and holds `s` and `x`. */
  lemma InsertBehindHead<T>(x: T, s: seq<T>, key: T -> int, rest: seq<T>)
    requires SortedBy(s, key) && s != [] && key(s[0]) < key(x)
    requires SortedBy(rest, key) && multiset(rest) == multiset(s[1..]) + multiset{x} && |rest| == |s|
    requires key(rest[0]) == if s[1..] != [] && key(s[1..][0]) < key(x) then key(s[1..][0]) else key(x)
    ensures SortedBy([s[0]] + rest, key)
    ensures multiset([s[0]] + rest) == multiset(s) + multiset{x}
  {
    assert s == [s[0]] + s[1..];
    if s[1..] != [] {
      assert key(s[0]) <= key(s[1]);
    }
    ConsSorted(s[0], rest, key);
  }

  /** An element no greater than the head of a sorted sequence can go in front of it. */
  lemma ConsSorted<T>(y: T, t: seq<T>, key: T -> int)
    requires SortedBy(t, key) && (t == [] || key(y) <= key(t[0]))
    ensures SortedBy([y] + t, key)
  {
    var r := [y] + t;
    forall i, j | 0 <= i < j < |r| ensures key(r[i]) <= key(r[j]) {
      if i > 0 {
        assert r[i] == t[i - 1] && r[j] == t[j - 1];
      } else {
        assert r[j] == t[j - 1];
      }
    }
  }

  /** Stable sort ascending on `key`: a sorted permutation of `s`. */
  function SortBy<T(==)>(s: seq<T>, key: T -> int): (r: seq<T>)
    ensures SortedBy(r, key)
    ensures multiset(r) == multiset(s)
    ensures |r| == |s|
  {
    if s == [] then []
    else
      assert s == [s[0]] + s[1..];
      var r := Insert(s[0], SortBy(s[1..], key), key);
      assert |r| == |multiset(r)|;
      r
  }

  /** The elements of `s` whose key is `k`, in their order in `s`. */
  function WithKey<T>(s: seq<T>, key: T -> int, k: int): seq<T>
  {
    Filter(s, x => key(x) == k)
  }

  /** Filtering by key a sequence that starts with `y`. */
  lemma WithKeyCons<T>(y: T, t: seq<T>, key: T -> int, k: int)
    ensures WithKey([y] + t, key, k) == (if key(y) == k then [y] else []) + WithKey(t, key, k)
  {
    assert ([y] + t)[1..] == t;
  }

  lemma {:induction false} InsertWithKey<T>(x: T, s: seq<T>, key: T -> int, k: int)
    requires SortedBy(s, key)
    ensures WithKey(Insert(x, s, key), key, k) == (if key(x) == k then [x] else []) + WithKey(s, key, k)
  {
    if s == [] || key(x) <= key(s[0]) {
      WithKeyCons(x, s, key, k);
    } else {
      var rest := Insert(x, s[1..], key);
      InsertWithKey(x, s[1..], key, k);
      WithKeyCons(s[0], rest, key, k);
      WithKeyCons(s[0], s[1..], key, k);
      assert s == [s[0]] + s[1..];
    }
  }

  /**
   * Stability: for every key value, the elements carrying it appear in the
   * output in the same relative order as in the input.
   */
  lemma {:induction false} SortByIsStable<T>(s: seq<T>, key: T -> int, k: int)
    ensures WithKey(SortBy(s, key), key, k) == WithKey(s, key, k)
  {
    if s != [] {
      SortByIsStable(s[1..], key, k);
      InsertWithKey(s[0], SortBy(s[1..], key), key, k);
    }
  }

  lemma {:induction false} WithKeyMembers<T>(s: seq<T>, key: T -> int, k: int)
    ensures forall x | x in WithKey(s, key, k) :: key(x) == k
    ensures (exists i :: 0 <= i < |s| && key(s[i]) == k) ==> WithKey(s, key, k) != []
  {
    if exists i :: 0 <= i < |s| && key(s[i]) == k {
      var i :| 0 <= i < |s| && key(s[i]) == k;
      assert s[i] in s;
    }
  }

  lemma NoKeysMeansEmpty<T>(s: seq<T>, key: T -> int)
    requires forall k :: WithKey(s, key, k) == []
    ensures s == []
  {
    if s != [] {
      WithKeyMembers(s, key, key(s[0]));
    }
  }

  /**
   * A stable sort is unique: any sequence that is sorted on `key` and keeps,
   * for every key value, the input's order among the elements carrying it
   * is exactly `SortBy`. So `SortBy` is what every stable sort, and in
   * particular JavaScript's, returns.
   */
  lemma {:induction false} StableSortUnique<T>(a: seq<T>, b: seq<T>, key: T -> int)
    requires SortedBy(a, key) && SortedBy(b, key)
    requires forall k :: WithKey(a, key, k) == WithKey(b, key, k)
    ensures a == b
    decreases |a|
  {
    if a == [] {
      NoKeysMeansEmpty(b, key);
    } else if b == [] {
      NoKeysMeansEmpty(a, key);
    } else {
      var m := key(a[0]);
      // The smallest key of a and of b coincide.
      assert key(b[0]) == m by {
        WithKeyMembers(a, key, key(b[0]));
        WithKeyMembers(b, key, key(b[0]));
        WithKeyMembers(a, key, m);
        WithKeyMembers(b, key, m);
        var wb := WithKey(b, key, key(b[0]));
        assert wb != [] && wb == WithKey(a, key, key(b[0]));
        assert wb[0] in WithKey(a, key, key(b[0]));
        assert key(b[0]) >= m;
        var wa := WithKey(a, key, m);
        assert wa[0] in WithKey(b, key, m);
        assert m >= key(b[0]);
      }
      assert a[0] == b[0] by {
        assert WithKey(a, key, m)[0] == a[0];
        assert WithKey(b, key, m)[0] == b[0];
      }
      forall k ensures WithKey(a[1..], key, k) == WithKey(b[1..], key, k) {
        assert a == [a[0]] + a[1..];
        assert b == [b[0]] + b[1..];
        var head := Filter([a[0]], x => key(x) == k);
        FilterAppend([a[0]], a[1..], x => key(x) == k);
        FilterAppend([b[0]], b[1..], x => key(x) == k);
        assert WithKey(a, key, k) == head + WithKey(a[1..], key, k);
        assert WithKey(b, key, k) == head + WithKey(b[1..], key, k);
        assert (head + WithKey(a[1..], key, k))[|head|..] == WithKey(a[1..], key, k);
        assert (head + WithKey(b[1..], key, k))[|head|..] == WithKey(b[1..], key, k);
      }
      StableSortUnique(a[1..], b[1..], key);
    }
  }

  /** The key of each sort option; the rating sort reads a missing rating as 0. */
  function SortKey(option: SortOption): Product -> int
  {
    match option
    case PriceAsc => (p: Product) => p.price
    case PriceDesc => (p: Product) => -p.price
    case Rating => (p: Product) => -p.rating.GetOr(0)
    case Default => (p: Product) => 0
  }

  /** `sortProducts`: a sorted copy; the default option keeps the input order. */
  function SortProducts(products: seq<Product>, option: SortOption): (r: seq<Product>)
    ensures multiset(r) == multiset(products) && |r| == |products|
    ensures option == PriceAsc ==> forall i, j | 0 <= i < j < |r| :: r[i].price <= r[j].price
    ensures option == PriceDesc ==> forall i, j | 0 <= i < j < |r| :: r[i].price >= r[j].price
    ensures option == Rating ==> forall i, j | 0 <= i < j < |r| :: r[i].rating.GetOr(0) >= r[j].rating.GetOr(0)
    ensures option == Default ==> r == products
  {
    if option == Default then products
    else
      var r := SortBy(products, SortKey(option));
      assert forall i, j | 0 <= i < j < |r| :: SortKey(option)(r[i]) <= SortKey(option)(r[j]);
      r
  }

  /** Products with equal sort keys keep their input order, for every option. */
  lemma SortProductsIsStable(products: seq<Product>, option: SortOption, k: int)
    ensures WithKey(SortProducts(products, option), SortKey(option), k) == WithKey(products, SortKey(option), k)
  {
    if option != Default {
      SortByIsStable(products, SortKey(option), k);
    }
  }

  /**
   * Any list that is ordered by the option's key and keeps the input order
   * among equal keys is `sortProducts`' output: the model returns exactly
   * what a stable `Array.prototype.sort` returns.
   */
  lemma SortProductsMatchesAnyStableSort(products: seq<Product>, option: SortOption, r: seq<Product>)
    requires option != Default
    requires SortedBy(r, SortKey(option))
    requires forall k :: WithKey(r, SortKey(option), k) == WithKey(products, SortKey(option), k)
    ensures r == SortProducts(products, option)
  {
    var sorted := SortProducts(products, option);
    forall k ensures WithKey(r, SortKey(option), k) == WithKey(sorted, SortKey(option), k) {
      SortByIsStable(products, SortKey(option), k);
    }
    StableSortUnique(r, sorted, SortKey(option));
  }
}
