/**
 * The cart store of the TypeScript storefront (src/store/cartStore.ts).
 *
 * Each action replaces the item list by a new one; the transitions are the
 * functions `AddItemTo`, `WithoutItem` and `WithQuantity`, and the class
 * `CartStore` holds the list and applies them. The persisted copy of the
 * list is not modelled.
 */
module Cart {
  import opened Types
  import opened Seqs
  import opened Calculations

  predicate HasId(items: seq<CartItem>, id: string)
  {
    exists i | 0 <= i < |items| :: items[i].product.id == id
  }

  /** No two lines hold the same product id. */
  predicate UniqueIds(items: seq<CartItem>)
  {
    forall i, j | 0 <= i < j < |items| :: items[i].product.id != items[j].product.id
  }

  /** `items.find(item => item.product.id === id)`: the first line with that id. */
  function Find(items: seq<CartItem>, id: string): (r: Option<CartItem>)
    ensures r.Some? ==> r.value in items && r.value.product.id == id
    ensures r.None? <==> !HasId(items, id)
  {
    if items == [] then None
    else if items[0].product.id == id then Some(items[0])
    else
      var r := Find(items[1..], id);
      assert HasId(items, id) ==> HasId(items[1..], id) by {
        if HasId(items, id) {
          var i :| 0 <= i < |items| && items[i].product.id == id;
          assert items[1..][i - 1] == items[i];
        }
      }
      r
  }

  /** In a list with unique ids, looking up the id of a line finds that line. */
  lemma FindUnique(items: seq<CartItem>, i: int)
    requires UniqueIds(items) && 0 <= i < |items|
    ensures Find(items, items[i].product.id) == Some(items[i])
  {
    var r := Find(items, items[i].product.id);
    var k :| 0 <= k < |items| && items[k] == r.value;
  }

  /**
   * `addItem`: a product already in the cart has every line with its id
   * incremented by one; a new product is appended with quantity 1.
   */
  function AddItemTo(items: seq<CartItem>, product: Product): (r: seq<CartItem>)
    ensures UniqueIds(items) ==> UniqueIds(r)
    ensures HasId(items, product.id) ==>
              |r| == |items|
              && forall i | 0 <= i < |r| ::
                   r[i].product == items[i].product
                   && r[i].quantity == items[i].quantity + (if items[i].product.id == product.id then 1 else 0)
    ensures !HasId(items, product.id) ==> r == items + [CartItem(product, 1)]
  {
    if Find(items, product.id).Some? then
      seq(|items|, i requires 0 <= i < |items| =>
        if items[i].product.id == product.id then items[i].(quantity := items[i].quantity + 1) else items[i])
    else
      items + [CartItem(product, 1)]
  }

  /** The test `item => item.product.id !== id`. */
  function OtherId(id: string): CartItem -> bool
  {
    (x: CartItem) => x.product.id != id
  }

  /** `removeItem`: the lines with another id, in their order. */
  function WithoutItem(items: seq<CartItem>, id: string): (r: seq<CartItem>)
    ensures !HasId(r, id)
    ensures forall x | x in items && x.product.id != id :: x in r
    ensures forall x | x in r :: x in items
    ensures IsSubsequence(r, items)
    ensures UniqueIds(items) ==> UniqueIds(r)
    ensures !HasId(items, id) ==> r == items
  {
    var keep := OtherId(id);
    FilterIsSubsequence(items, keep);
    FilterKeepsIdsUnique(items, keep);
    assert !HasId(items, id) ==> Filter(items, keep) == items by {
      if !HasId(items, id) {
        FilterKeepsAll(items, keep);
      }
    }
    var r := Filter(items, keep);
    assert forall k | 0 <= k < |r| :: r[k] in r;
    r
  }

  lemma {:induction false} FilterKeepsIdsUnique(items: seq<CartItem>, keep: CartItem -> bool)
    ensures UniqueIds(items) ==> UniqueIds(Filter(items, keep))
  {
    if items != [] && UniqueIds(items) {
      var rest := Filter(items[1..], keep);
      FilterKeepsIdsUnique(items[1..], keep);
      assert UniqueIds(items[1..]) by {
        forall i, j | 0 <= i < j < |items| - 1
          ensures items[1..][i].product.id != items[1..][j].product.id
        {
          assert items[1..][i] == items[i + 1] && items[1..][j] == items[j + 1];
        }
      }
      if keep(items[0]) {
        forall j | 0 <= j < |rest| ensures items[0].product.id != rest[j].product.id {
          assert rest[j] in items[1..];
          var k :| 0 <= k < |items| - 1 && items[1..][k] == rest[j];
          assert items[k + 1] == rest[j];
        }
        assert Filter(items, keep) == [items[0]] + rest;
      } else {
        assert Filter(items, keep) == rest;
      }
    }
  }

  /** `updateQuantity`: every line with the id gets exactly `quantity`, with no clamping. */
  function WithQuantity(items: seq<CartItem>, id: string, quantity: int): (r: seq<CartItem>)
    ensures |r| == |items|
    ensures forall i | 0 <= i < |r| ::
              r[i].product == items[i].product
              && r[i].quantity == (if items[i].product.id == id then quantity else items[i].quantity)
    ensures UniqueIds(items) ==> UniqueIds(r)
    ensures !HasId(items, id) ==> r == items
  {
    seq(|items|, i requires 0 <= i < |items| =>
      if items[i].product.id == id then items[i].(quantity := quantity) else items[i])
  }

  /** The totals of a one-line list are that line's quantity and subtotal. */
  lemma TotalsOfOne(x: CartItem)
    ensures TotalItems([x]) == x.quantity
    ensures TotalPrice([x]) == Subtotal(x.product, x.quantity)
  {
    assert [x][..0] == [];
  }

  /** The totals of a list split around one line. */
  lemma TotalsAround(front: seq<CartItem>, x: CartItem, back: seq<CartItem>)
    ensures TotalItems(front + [x] + back) == TotalItems(front) + x.quantity + TotalItems(back)
    ensures TotalPrice(front + [x] + back) == TotalPrice(front) + Subtotal(x.product, x.quantity) + TotalPrice(back)
  {
    TotalsAppend(front + [x], back);
    TotalsAppend(front, [x]);
    TotalsOfOne(x);
  }

  /** Changing one line changes the totals by the difference of that line alone. */
  lemma TotalsReplaceAt(items: seq<CartItem>, i: int, x: CartItem)
    requires 0 <= i < |items|
    ensures TotalItems(items[i := x]) == TotalItems(items) - items[i].quantity + x.quantity
    ensures TotalPrice(items[i := x]) == TotalPrice(items) - Subtotal(items[i].product, items[i].quantity) + Subtotal(x.product, x.quantity)
  {
    SplitAt(items, i);
    SplitAt(items[i := x], i);
    assert items[i := x][..i] == items[..i] && items[i := x][i + 1..] == items[i + 1..];
    TotalsAround(items[..i], items[i], items[i + 1..]);
    TotalsAround(items[..i], x, items[i + 1..]);
  }

  /** Removing one line lowers the totals by that line. */
  lemma TotalsRemoveAt(items: seq<CartItem>, i: int)
    requires 0 <= i < |items|
    ensures TotalItems(items[..i] + items[i + 1..]) == TotalItems(items) - items[i].quantity
    ensures TotalPrice(items[..i] + items[i + 1..]) == TotalPrice(items) - Subtotal(items[i].product, items[i].quantity)
  {
    SplitAt(items, i);
    TotalsAround(items[..i], items[i], items[i + 1..]);
    TotalsAppend(items[..i], items[i + 1..]);
  }

  lemma SplitAt(items: seq<CartItem>, i: int)
    requires 0 <= i < |items|
    ensures items == items[..i] + [items[i]] + items[i + 1..]
  {
  }

  /** With unique ids, the new line for `id` is the old one with `quantity`. */
  lemma WithQuantityAt(items: seq<CartItem>, i: int, quantity: int)
    requires UniqueIds(items) && 0 <= i < |items|
    ensures WithQuantity(items, items[i].product.id, quantity) == items[i := items[i].(quantity := quantity)]
  {
  }

  /**
   * Adding a product already in the cart: its line gains one unit and keeps
   * the product snapshot stored when it was first added.
   */
  lemma AddExistingLine(items: seq<CartItem>, i: int, product: Product)
    requires UniqueIds(items) && 0 <= i < |items| && items[i].product.id == product.id
    ensures Find(items, product.id) == Some(items[i])
    ensures Find(AddItemTo(items, product), product.id) == Some(items[i].(quantity := items[i].quantity + 1))
  {
    FindUnique(items, i);
    AddItemAt(items, i, product);
    var r := items[i := items[i].(quantity := items[i].quantity + 1)];
    assert UniqueIds(r);
    FindUnique(r, i);
  }

  /** Adding a product not in the cart: it is found on a new line of one unit. */
  lemma AddNewLine(items: seq<CartItem>, product: Product)
    requires UniqueIds(items) && !HasId(items, product.id)
    ensures Find(AddItemTo(items, product), product.id) == Some(CartItem(product, 1))
  {
    var r := items + [CartItem(product, 1)];
    assert AddItemTo(items, product) == r;
    assert UniqueIds(r);
    FindUnique(r, |items|);
  }

  /** Adding a product leaves what every other id finds unchanged. */
  lemma AddItemKeepsOthers(items: seq<CartItem>, product: Product, id: string)
    requires UniqueIds(items) && id != product.id
    ensures Find(AddItemTo(items, product), id) == Find(items, id)
  {
    var r := AddItemTo(items, product);
    if HasId(items, id) {
      var k :| 0 <= k < |items| && items[k].product.id == id;
      FindUnique(items, k);
      FindUnique(r, k);
    } else {
      assert !HasId(r, id);
    }
  }

  /** With unique ids, adding a product already in the cart bumps its one line. */
  lemma AddItemAt(items: seq<CartItem>, i: int, product: Product)
    requires UniqueIds(items) && 0 <= i < |items| && items[i].product.id == product.id
    ensures AddItemTo(items, product) == items[i := items[i].(quantity := items[i].quantity + 1)]
  {
    var r := AddItemTo(items, product);
    assert HasId(items, product.id);
    forall k | 0 <= k < |r| ensures r[k] == items[i := items[i].(quantity := items[i].quantity + 1)][k] {
    }
  }

  lemma SubtotalDifference(product: Product, a: int, b: int)
    ensures Subtotal(product, b) == Subtotal(product, a) + product.price * (b - a)
  {
    assert product.price * b == product.price * a + product.price * (b - a);
  }

  /**
   * Adding a product adds one unit and the unit price of the line that
   * receives it: the stored snapshot's price when the product was already in
   * the cart, the given product's price otherwise.
   */
  lemma AddItemTotals(items: seq<CartItem>, product: Product)
    requires UniqueIds(items)
    ensures var r := AddItemTo(items, product);
            && TotalItems(r) == TotalItems(items) + 1
            && TotalPrice(r) == TotalPrice(items) + (match Find(items, product.id)
                                                    case Some(line) => line.product.price
                                                    case None => product.price)
  {
    match Find(items, product.id)
    case Some(line) =>
      var i :| 0 <= i < |items| && items[i] == line;
      AddExistingTotals(items, i, product);
    case None =>
      TotalsAppend(items, [CartItem(product, 1)]);
      assert [CartItem(product, 1)][..0] == [];
  }

  lemma {:induction false} AddExistingTotals(items: seq<CartItem>, i: int, product: Product)
    requires UniqueIds(items) && 0 <= i < |items| && items[i].product.id == product.id
    ensures TotalItems(AddItemTo(items, product)) == TotalItems(items) + 1
    ensures TotalPrice(AddItemTo(items, product)) == TotalPrice(items) + items[i].product.price
  {
    AddItemAt(items, i, product);
    BumpTotals(items, i);
  }

  /** One more unit on one line: one more item, and that line's unit price more. */
  lemma {:induction false} BumpTotals(items: seq<CartItem>, i: int)
    requires 0 <= i < |items|
    ensures TotalItems(items[i := items[i].(quantity := items[i].quantity + 1)]) == TotalItems(items) + 1
    ensures TotalPrice(items[i := items[i].(quantity := items[i].quantity + 1)]) == TotalPrice(items) + items[i].product.price
  {
    var line := items[i];
    var bumped := line.(quantity := line.quantity + 1);
    TotalsReplaceAt(items, i, bumped);
    assert TotalItems(items[i := bumped]) == TotalItems(items) + 1;
    SubtotalIncrement(line.product, line.quantity);
    assert Subtotal(bumped.product, bumped.quantity) == Subtotal(line.product, line.quantity) + line.product.price;
  }

  lemma SubtotalIncrement(product: Product, quantity: int)
    ensures Subtotal(product, quantity + 1) == Subtotal(product, quantity) + product.price
  {
    assert product.price * (quantity + 1) == product.price * quantity + product.price;
  }

  /** `n` additions of the same product. */
  function AddTimes(items: seq<CartItem>, product: Product, n: nat): seq<CartItem>
  {
    if n == 0 then items else AddItemTo(AddTimes(items, product, n - 1), product)
  }

  /** Adding a new product `n` times gives one line for it, with quantity `n`, at the end. */
  lemma {:induction false} RepeatedAddsMerge(items: seq<CartItem>, product: Product, n: nat)
    requires !HasId(items, product.id) && n >= 1
    ensures AddTimes(items, product, n) == items + [CartItem(product, n)]
  {
    if n > 1 {
      RepeatedAddsMerge(items, product, n - 1);
      var before := items + [CartItem(product, n - 1)];
      assert before[|items|].product.id == product.id;
      var r := AddItemTo(before, product);
      assert |r| == |before|;
      forall i | 0 <= i < |r| ensures r[i] == (items + [CartItem(product, n)])[i] {
        if i < |items| {
          assert before[i] == items[i];
          assert items[i].product.id != product.id;
        }
      }
    }
  }

  /** Filtering out an id that a list does not carry keeps the list. */
  lemma WithoutAbsentId(s: seq<CartItem>, id: string)
    requires forall k | 0 <= k < |s| :: s[k].product.id != id
    ensures Filter(s, OtherId(id)) == s
  {
    var keep := OtherId(id);
    forall x | x in s ensures keep(x) {
      var k :| 0 <= k < |s| && s[k] == x;
    }
    FilterKeepsAll(s, keep);
  }

  /** With unique ids, removing the id of a line cuts out that line and nothing else. */
  lemma WithoutItemAt(items: seq<CartItem>, i: int)
    requires UniqueIds(items) && 0 <= i < |items|
    ensures WithoutItem(items, items[i].product.id) == items[..i] + items[i + 1..]
  {
    var id := items[i].product.id;
    SliceLacksId(items, i, 0, i);
    SliceLacksId(items, i, i + 1, |items|);
    assert items[0..i] == items[..i] && items[i + 1..|items|] == items[i + 1..];
    SplitAt(items, i);
    FilterCutOne(items[..i], items[i], items[i + 1..], OtherId(id));
  }

  /** With unique ids, a slice of the list that leaves out line `i` keeps all its lines when `i`'s id is filtered out. */
  lemma SliceLacksId(items: seq<CartItem>, i: int, lo: int, hi: int)
    requires UniqueIds(items) && 0 <= i < |items| && 0 <= lo <= hi <= |items| && !(lo <= i < hi)
    ensures Filter(items[lo..hi], OtherId(items[i].product.id)) == items[lo..hi]
  {
    var s := items[lo..hi];
    forall k | 0 <= k < |s| ensures s[k].product.id != items[i].product.id {
      assert s[k] == items[lo + k];
    }
    WithoutAbsentId(s, items[i].product.id);
  }

  /**
   * Removing a line by id: the other lines keep their order, and the totals
   * drop by exactly that line.
   */
  lemma RemoveItemEffect(items: seq<CartItem>, i: int)
    requires UniqueIds(items) && 0 <= i < |items|
    ensures var r := WithoutItem(items, items[i].product.id);
            && r == items[..i] + items[i + 1..]
            && TotalItems(r) == TotalItems(items) - items[i].quantity
            && TotalPrice(r) == TotalPrice(items) - Subtotal(items[i].product, items[i].quantity)
  {
    WithoutItemAt(items, i);
    TotalsRemoveAt(items, i);
  }

  /**
   * Setting the quantity of a line: it is found with the new quantity and
   * the old product snapshot, and the totals move by the difference.
   */
  lemma UpdateQuantityEffect(items: seq<CartItem>, i: int, quantity: int)
    requires UniqueIds(items) && 0 <= i < |items|
    ensures var line := items[i];
            var r := WithQuantity(items, line.product.id, quantity);
            && Find(r, line.product.id) == Some(line.(quantity := quantity))
            && TotalItems(r) == TotalItems(items) + (quantity - line.quantity)
            && TotalPrice(r) == TotalPrice(items) + line.product.price * (quantity - line.quantity)
  {
    var line := items[i];
    var r := WithQuantity(items, line.product.id, quantity);
    WithQuantityAt(items, i, quantity);
    FindUnique(r, i);
    TotalsReplaceAt(items, i, line.(quantity := quantity));
    SubtotalDifference(line.product, line.quantity, quantity);
  }

  class CartStore {
    var items: seq<CartItem>

    /** The store's invariant: one line per product. */
    predicate Valid()
      reads this
    {
      UniqueIds(items)
    }

    constructor ()
      ensures Valid() && items == []
    {
      items := [];
    }

    method AddItem(product: Product)
      requires Valid()
      modifies this
      ensures Valid()
      ensures items == AddItemTo(old(items), product)
    {
      items := AddItemTo(items, product);
    }

    method RemoveItem(productId: string)
      requires Valid()
      modifies this
      ensures Valid()
      ensures items == WithoutItem(old(items), productId)
    {
      items := WithoutItem(items, productId);
    }

    method UpdateQuantity(productId: string, quantity: int)
      requires Valid()
      modifies this
      ensures Valid()
      ensures items == WithQuantity(old(items), productId, quantity)
    {
      items := WithQuantity(items, productId, quantity);
    }

    method ClearCart()
      requires Valid()
      modifies this
      ensures Valid()
      ensures items == []
    {
      items := [];
    }

    /** `getTotalPrice`: the sum of the line subtotals; 0 for an empty cart. */
    function GetTotalPrice(): (r: int)
      reads this
      ensures r == SumOfSubtotals(items)
      ensures items == [] ==> r == 0
    {
      TotalsAreSums(items);
      TotalPrice(items)
    }

    /** `getTotalItems`: the sum of the quantities; 0 for an empty cart. */
    function GetTotalItems(): (r: int)
      reads this
      ensures r == SumOfQuantities(items)
      ensures items == [] ==> r == 0
    {
      TotalsAreSums(items);
      TotalItems(items)
    }
  }
}
