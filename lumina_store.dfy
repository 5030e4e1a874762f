/**
 * The store of the Lumina storefront (lumina-shop/src/store/useStore.js):
 * a cart that never merges entries, kept beside a separate counter, the
 * catalogue filters, and a wishlist of product ids that each click toggles.
 */
module LuminaStore {
  import opened Seqs

  /** A catalogue entry; prices are whole yuan and the rating is in tenths of a star. */
  datatype LuminaProduct = LuminaProduct(
    id: int,
    name: string,
    category: string,
    mainCategory: string,
    price: int,
    rating: int,
    sales: int,
    stock: int,
    description: string)

  /** A copy of a product in the cart, told apart by its `cartId`. */
  datatype CartEntry = CartEntry(product: LuminaProduct, cartId: int)

  /** The inclusive price bounds of the catalogue filter. */
  datatype PriceRange = PriceRange(min: int, max: int)

  const AllCategories: string := "全部"
  const InitialPriceRange: PriceRange := PriceRange(0, 5000)
  const DefaultSort: string := "default"

  /** The filter test that drops the entries carrying `cartId`. */
  function OtherCartId(cartId: int): CartEntry -> bool
  {
    (e: CartEntry) => e.cartId != cartId
  }

  /** How many entries carry `cartId`. */
  function CountOf(cart: seq<CartEntry>, cartId: int): (r: nat)
    ensures r <= |cart|
    ensures r == 0 <==> forall e | e in cart :: e.cartId != cartId
  {
    if cart == [] then 0
    else
      assert forall e | e in cart :: e == cart[0] || e in cart[1..];
      (if cart[0].cartId == cartId then 1 else 0) + CountOf(cart[1..], cartId)
  }

  /** `removeFromCart`'s new cart: every entry with that `cartId` is gone, the others keep their order. */
  function WithoutEntry(cart: seq<CartEntry>, cartId: int): (r: seq<CartEntry>)
    ensures forall e | e in r :: e.cartId != cartId && e in cart
    ensures forall e | e in cart && e.cartId != cartId :: e in r
    ensures IsSubsequence(r, cart)
  {
    FilterIsSubsequence(cart, OtherCartId(cartId));
    Filter(cart, OtherCartId(cartId))
  }

  /** Removal shortens the cart by exactly the number of entries carrying the id. */
  lemma {:induction false} WithoutEntryLength(cart: seq<CartEntry>, cartId: int)
    ensures |WithoutEntry(cart, cartId)| == |cart| - CountOf(cart, cartId)
  {
    if cart != [] {
      WithoutEntryLength(cart[1..], cartId);
    }
  }

  /**
   * The counter agrees with the cart after an addition whenever it did
   * before; after a removal it does exactly when one entry carried the id
   * (an unknown id still takes one off the counter).
   */
  lemma CountAfterActions(cart: seq<CartEntry>, cartCount: int, product: LuminaProduct, cartId: int)
    requires cartCount == |cart|
    ensures cartCount + 1 == |cart + [CartEntry(product, cartId)]|
    ensures cartCount - 1 == |WithoutEntry(cart, cartId)| <==> CountOf(cart, cartId) == 1
  {
    WithoutEntryLength(cart, cartId);
  }

  /** Removing an id no entry carries leaves the cart as it is, but the counter one lower than its length. */
  lemma RemoveUnknownId(cart: seq<CartEntry>, cartId: int)
    requires forall e | e in cart :: e.cartId != cartId
    ensures WithoutEntry(cart, cartId) == cart
  {
    FilterKeepsAll(cart, OtherCartId(cartId));
  }

  /** The filter test that drops one product id. */
  function OtherId(productId: int): int -> bool
  {
    (x: int) => x != productId
  }

  /** `toggleWishlist`'s new list: an absent id is appended, a present one removed everywhere. */
  function Toggle(wishlist: seq<int>, productId: int): (r: seq<int>)
    ensures productId in r <==> productId !in wishlist
    ensures forall x | x in r && x != productId :: x in wishlist
    ensures forall x | x in wishlist && x != productId :: x in r
    ensures productId !in wishlist ==> r == wishlist + [productId]
    ensures productId in wishlist ==> IsSubsequence(r, wishlist)
  {
    if productId in wishlist then
      FilterIsSubsequence(wishlist, OtherId(productId));
      Filter(wishlist, OtherId(productId))
    else
      wishlist + [productId]
  }

  /** Toggling never puts an id into the list twice. */
  lemma ToggleKeepsDistinct(wishlist: seq<int>, productId: int)
    requires Distinct(wishlist)
    ensures Distinct(Toggle(wishlist, productId))
  {
    if productId in wishlist {
      FilterKeepsDistinct(wishlist, OtherId(productId));
    }
  }

  /**
   * Toggling twice restores membership of every id; starting from an id
   * that was absent, it restores the list itself.
   */
  lemma ToggleTwice(wishlist: seq<int>, productId: int)
    ensures forall x :: x in Toggle(Toggle(wishlist, productId), productId) <==> x in wishlist
    ensures productId !in wishlist ==> Toggle(Toggle(wishlist, productId), productId) == wishlist
  {
    if productId !in wishlist {
      var keep := OtherId(productId);
      FilterAppend(wishlist, [productId], keep);
      FilterKeepsAll(wishlist, keep);
      FilterRejectsOne(productId, keep);
      assert wishlist + [] == wishlist;
    }
  }

  /** The Lumina store, each action changing only the fields it names. */
  class Store {
    var cart: seq<CartEntry>
    var cartCount: int
    var activeCategory: string
    var priceRange: PriceRange
    var sortBy: string
    var wishlist: seq<int>

    /** The counter shows the number of entries in the cart. */
    predicate CountMatches()
      reads this
    {
      cartCount == |cart|
    }

    constructor()
      ensures cart == [] && cartCount == 0 && wishlist == []
      ensures activeCategory == AllCategories && priceRange == InitialPriceRange && sortBy == DefaultSort
      ensures CountMatches()
    {
      cart := [];
      cartCount := 0;
      activeCategory := AllCategories;
      priceRange := InitialPriceRange;
      sortBy := DefaultSort;
      wishlist := [];
    }

    /** `addToCart`: a copy with the given `cartId` goes to the end; no merging. */
    method AddToCart(product: LuminaProduct, cartId: int)
      modifies this
      ensures cart == old(cart) + [CartEntry(product, cartId)]
      ensures cartCount == old(cartCount) + 1
      ensures activeCategory == old(activeCategory) && priceRange == old(priceRange)
      ensures sortBy == old(sortBy) && wishlist == old(wishlist)
      ensures old(CountMatches()) ==> CountMatches()
    {
      cart := cart + [CartEntry(product, cartId)];
      cartCount := cartCount + 1;
    }

    /** `removeFromCart`: every entry with the id goes, and the counter drops by one regardless. */
    method RemoveFromCart(cartId: int)
      modifies this
      ensures cart == WithoutEntry(old(cart), cartId)
      ensures cartCount == old(cartCount) - 1
      ensures activeCategory == old(activeCategory) && priceRange == old(priceRange)
      ensures sortBy == old(sortBy) && wishlist == old(wishlist)
      ensures old(CountMatches()) ==> (CountMatches() <==> CountOf(old(cart), cartId) == 1)
    {
      WithoutEntryLength(cart, cartId);
      cart := WithoutEntry(cart, cartId);
      cartCount := cartCount - 1;
    }

    method SetActiveCategory(category: string)
      modifies this
      ensures activeCategory == category
      ensures cart == old(cart) && cartCount == old(cartCount) && priceRange == old(priceRange)
      ensures sortBy == old(sortBy) && wishlist == old(wishlist)
    {
      activeCategory := category;
    }

    method SetPriceRange(range: PriceRange)
      modifies this
      ensures priceRange == range
      ensures cart == old(cart) && cartCount == old(cartCount) && activeCategory == old(activeCategory)
      ensures sortBy == old(sortBy) && wishlist == old(wishlist)
    {
      priceRange := range;
    }

    /** `setMinPrice`: the lower bound only. */
    method SetMinPrice(min: int)
      modifies this
      ensures priceRange == PriceRange(min, old(priceRange.max))
      ensures cart == old(cart) && cartCount == old(cartCount) && activeCategory == old(activeCategory)
      ensures sortBy == old(sortBy) && wishlist == old(wishlist)
    {
      priceRange := priceRange.(min := min);
    }

    /** `setMaxPrice`: the upper bound only. */
    method SetMaxPrice(max: int)
      modifies this
      ensures priceRange == PriceRange(old(priceRange.min), max)
      ensures cart == old(cart) && cartCount == old(cartCount) && activeCategory == old(activeCategory)
      ensures sortBy == old(sortBy) && wishlist == old(wishlist)
    {
      priceRange := priceRange.(max := max);
    }

    method SetSortBy(sort: string)
      modifies this
      ensures sortBy == sort
      ensures cart == old(cart) && cartCount == old(cartCount) && activeCategory == old(activeCategory)
      ensures priceRange == old(priceRange) && wishlist == old(wishlist)
    {
      sortBy := sort;
    }

    method ToggleWishlist(productId: int)
      modifies this
      ensures wishlist == Toggle(old(wishlist), productId)
      ensures cart == old(cart) && cartCount == old(cartCount) && activeCategory == old(activeCategory)
      ensures priceRange == old(priceRange) && sortBy == old(sortBy)
      ensures old(Distinct(wishlist)) ==> Distinct(wishlist)
    {
      if Distinct(wishlist) {
        ToggleKeepsDistinct(wishlist, productId);
      }
      wishlist := Toggle(wishlist, productId);
    }
  }

  /**
   * Two additions with distinct ids, then removal of the first: one entry
   * left, and the counter still agrees with it.
   */
  method AddAddRemove(product: LuminaProduct)
    returns (store: Store)
    ensures store.cart == [CartEntry(product, 2)] && store.CountMatches()
  {
    store := new Store();
    store.AddToCart(product, 1);
    store.AddToCart(product, 2);
    assert store.cart == [CartEntry(product, 1), CartEntry(product, 2)];
    assert CountOf(store.cart, 1) == 1 by {
      assert store.cart[1..] == [CartEntry(product, 2)];
      assert store.cart[1..][1..] == [];
    }
    FilterCutOne([], CartEntry(product, 1), [CartEntry(product, 2)], OtherCartId(1));
    assert [] + [CartEntry(product, 1)] + [CartEntry(product, 2)] == store.cart;
    store.RemoveFromCart(1);
  }
}
