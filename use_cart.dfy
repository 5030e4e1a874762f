/**
 * The cart hook (src/hooks/useCart.ts): the store's actions, except that
 * setting a quantity of 0 or less removes the line. The toasts it shows
 * are not modelled.
 */
module UseCart {
  import opened Types
  import opened Calculations
  import opened Cart
  import opened Seqs

  /** Every line holds at least one unit. */
  predicate AllPositive(items: seq<CartItem>)
  {
    forall i | 0 <= i < |items| :: items[i].quantity >= 1
  }

  /** The hook's `updateQuantity`: remove the line when the quantity is 0 or less, otherwise set it. */
  function HookUpdate(items: seq<CartItem>, productId: string, quantity: int): (r: seq<CartItem>)
    ensures quantity <= 0 ==> r == WithoutItem(items, productId)
    ensures quantity > 0 ==> r == WithQuantity(items, productId, quantity)
    ensures quantity <= 0 ==> !HasId(r, productId)
    ensures quantity > 0 ==> (HasId(r, productId) <==> HasId(items, productId))
    ensures quantity > 0 ==> forall i | 0 <= i < |r| && r[i].product.id == productId :: r[i].quantity == quantity
    ensures forall i | 0 <= i < |r| && r[i].product.id != productId :: r[i] in items
    ensures UniqueIds(items) ==> UniqueIds(r)
    ensures AllPositive(items) ==> AllPositive(r)
  {
    if quantity <= 0 then
      var r := WithoutItem(items, productId);
      assert forall i | 0 <= i < |r| :: r[i] in r;
      r
    else
      var r := WithQuantity(items, productId, quantity);
      assert forall i | 0 <= i < |items| && items[i].product.id != productId :: r[i] == items[i];
      assert HasId(items, productId) ==> HasId(r, productId) by {
        if HasId(items, productId) {
          var k :| 0 <= k < |items| && items[k].product.id == productId;
          assert r[k].product.id == productId;
        }
      }
      r
  }

  /** Adding keeps every line positive: an existing line grows, a new one starts at 1. */
  lemma AddKeepsPositive(items: seq<CartItem>, product: Product)
    requires AllPositive(items)
    ensures AllPositive(AddItemTo(items, product))
  {
    var r := AddItemTo(items, product);
    if !HasId(items, product.id) {
      assert forall i | 0 <= i < |items| :: r[i] == items[i];
    }
  }

  /** What the hook offers a component. */
  datatype CartAction =
    | AddToCart(product: Product)
    | RemoveFromCart(productId: string)
    | UpdateQuantity(productId: string, quantity: int)
    | ClearCart

  function Apply(items: seq<CartItem>, action: CartAction): (r: seq<CartItem>)
    ensures UniqueIds(items) ==> UniqueIds(r)
    ensures AllPositive(items) ==> AllPositive(r)
  {
    match action
    case AddToCart(product) =>
      if AllPositive(items) then AddKeepsPositive(items, product); AddItemTo(items, product)
      else AddItemTo(items, product)
    case RemoveFromCart(productId) =>
      var r := WithoutItem(items, productId);
      assert forall i | 0 <= i < |r| :: r[i] in r;
      r
    case UpdateQuantity(productId, quantity) => HookUpdate(items, productId, quantity)
    case ClearCart => []
  }

  /** The actions applied one after the other, the first one first. */
  function Run(items: seq<CartItem>, actions: seq<CartAction>): (r: seq<CartItem>)
    ensures UniqueIds(items) ==> UniqueIds(r)
    ensures AllPositive(items) ==> AllPositive(r)
    decreases |actions|
  {
    if actions == [] then items
    else Run(Apply(items, actions[0]), actions[1..])
  }

  /** Running actions in two batches is running them all. */
  lemma {:induction false} RunAppend(items: seq<CartItem>, first: seq<CartAction>, second: seq<CartAction>)
    ensures Run(items, first + second) == Run(Run(items, first), second)
    decreases |first|
  {
    if first != [] {
      assert (first + second)[1..] == first[1..] + second;
      RunAppend(Apply(items, first[0]), first[1..], second);
    } else {
      assert first + second == second;
    }
  }

  /** The same action `n` times. */
  function Repeat(action: CartAction, n: nat): (r: seq<CartAction>)
    ensures |r| == n && forall i | 0 <= i < n :: r[i] == action
  {
    seq(n, _ => action)
  }

  /** `n` additions through the hook are `n` additions to the store. */
  lemma {:induction false} RunAdds(items: seq<CartItem>, product: Product, n: nat)
    ensures Run(items, Repeat(AddToCart(product), n)) == AddTimes(items, product, n)
  {
    if n > 0 {
      var add := AddToCart(product);
      var before := Repeat(add, n - 1);
      assert Repeat(add, n) == before + [add];
      RunSnoc(items, before, add);
      RunAdds(items, product, n - 1);
    } else {
      assert Repeat(AddToCart(product), n) == [];
    }
  }

  /**
   * A cart changed only through the hook, from empty, never holds two lines
   * for one product nor a line with fewer than one unit.
   */
  lemma HookKeepsCartWellFormed(actions: seq<CartAction>)
    ensures UniqueIds(Run([], actions)) && AllPositive(Run([], actions))
  {
  }

  method AddToCartOn(store: CartStore, product: Product)
    requires store.Valid()
    modifies store
    ensures store.Valid()
    ensures store.items == AddItemTo(old(store.items), product)
  {
    store.AddItem(product);
  }

  method RemoveFromCartOn(store: CartStore, productId: string)
    requires store.Valid()
    modifies store
    ensures store.Valid()
    ensures store.items == WithoutItem(old(store.items), productId)
  {
    store.RemoveItem(productId);
  }

  method UpdateQuantityOn(store: CartStore, productId: string, quantity: int)
    requires store.Valid()
    modifies store
    ensures store.Valid()
    ensures store.items == HookUpdate(old(store.items), productId, quantity)
  {
    if quantity <= 0 {
      RemoveFromCartOn(store, productId);
    } else {
      store.UpdateQuantity(productId, quantity);
    }
  }

  /** Carrying out an action on the store has the effect `Apply` describes. */
  method Perform(store: CartStore, action: CartAction)
    requires store.Valid()
    modifies store
    ensures store.Valid()
    ensures store.items == Apply(old(store.items), action)
  {
    match action
    case AddToCart(product) => AddToCartOn(store, product);
    case RemoveFromCart(productId) => RemoveFromCartOn(store, productId);
    case UpdateQuantity(productId, quantity) => UpdateQuantityOn(store, productId, quantity);
    case ClearCart => store.ClearCart();
  }

  /** Adding a product to a cart that does not hold it appends a line of 1. */
  lemma AddNew(items: seq<CartItem>, product: Product)
    requires !HasId(items, product.id)
    ensures Apply(items, AddToCart(product)) == items + [CartItem(product, 1)]
  {
  }

  /** Running one more action after a batch. */
  lemma RunSnoc(items: seq<CartItem>, actions: seq<CartAction>, action: CartAction)
    ensures Run(items, actions + [action]) == Apply(Run(items, actions), action)
  {
    RunAppend(items, actions, [action]);
    assert [action][1..] == [];
  }

  /** The totals of a cart of one line and of two lines. */
  lemma TotalsOfShortCarts(a: CartItem, b: CartItem)
    ensures TotalPrice([a]) == a.product.price * a.quantity && TotalItems([a]) == a.quantity
    ensures TotalPrice([a, b]) == a.product.price * a.quantity + b.product.price * b.quantity
    ensures TotalItems([a, b]) == a.quantity + b.quantity
  {
    assert [a][..0] == [] && [a, b][..1] == [a];
  }

  /** One more addition of the product on the only line of a one-line cart. */
  lemma AddAgain(p1: Product, n: int)
    ensures Apply([CartItem(p1, n)], AddToCart(p1)) == [CartItem(p1, n + 1)]
  {
    AddItemAt([CartItem(p1, n)], 0, p1);
  }

  /** Two additions of one product, from an empty cart, give one line of 2. */
  lemma TwoAdds(p1: Product)
    ensures Run([], [AddToCart(p1), AddToCart(p1)]) == [CartItem(p1, 2)]
  {
    var a := AddToCart(p1);
    RunSnoc([], [a], a);
    RunSnoc([], [], a);
    assert [] + [a] == [a] && [a] + [a] == [a, a];
    AddNew([], p1);
    assert [] + [CartItem(p1, 1)] == [CartItem(p1, 1)];
    AddAgain(p1, 1);
  }

  /**
   * Two units of a product at 100 and one of another at 50: a total of 250
   * and 3 items.
   */
  lemma TwoAndOneScenario(p1: Product, p2: Product)
    requires p1.id != p2.id && p1.price == 100 && p2.price == 50
    ensures var items := Run([], [AddToCart(p1), AddToCart(p1), AddToCart(p2)]);
            TotalPrice(items) == 250 && TotalItems(items) == 3
  {
    TwoAddsThenOther(p1, p2);
    TotalsOfShortCarts(CartItem(p1, 2), CartItem(p2, 1));
  }

  /** Two additions of one product, then one of another: two lines, of 2 and 1. */
  lemma TwoAddsThenOther(p1: Product, p2: Product)
    requires p1.id != p2.id
    ensures Run([], [AddToCart(p1), AddToCart(p1), AddToCart(p2)]) == [CartItem(p1, 2), CartItem(p2, 1)]
  {
    var a, b := AddToCart(p1), AddToCart(p2);
    TwoAdds(p1);
    RunSnoc([], [a, a], b);
    assert [a, a] + [b] == [a, a, b];
    AddNew([CartItem(p1, 2)], p2);
    assert [CartItem(p1, 2)] + [CartItem(p2, 1)] == [CartItem(p1, 2), CartItem(p2, 1)];
  }

  /** Three additions of one product, from an empty cart, give one line of 3. */
  lemma ThreeAdds(p1: Product)
    ensures Run([], [AddToCart(p1), AddToCart(p1), AddToCart(p1)]) == [CartItem(p1, 3)]
  {
    var a := AddToCart(p1);
    TwoAdds(p1);
    RunSnoc([], [a, a], a);
    assert [a, a] + [a] == [a, a, a];
    AddAgain(p1, 2);
  }

  /** Three additions of a product at 100: one line of 3, and a total of 300. */
  lemma ThreeAddsScenario(p1: Product)
    requires p1.price == 100
    ensures var items := Run([], [AddToCart(p1), AddToCart(p1), AddToCart(p1)]);
            items == [CartItem(p1, 3)] && TotalPrice(items) == 300
  {
    ThreeAdds(p1);
    TotalsOfShortCarts(CartItem(p1, 3), CartItem(p1, 3));
  }

  /** Three additions of one product, then one of another: two lines, of 3 and 1. */
  lemma FourAdds(p1: Product, p2: Product)
    requires p1.id != p2.id
    ensures Run([], [AddToCart(p1), AddToCart(p1), AddToCart(p1), AddToCart(p2)]) == [CartItem(p1, 3), CartItem(p2, 1)]
  {
    var a, b := AddToCart(p1), AddToCart(p2);
    ThreeAdds(p1);
    RunSnoc([], [a, a, a], b);
    assert [a, a, a] + [b] == [a, a, a, b];
    AddNew([CartItem(p1, 3)], p2);
    assert [CartItem(p1, 3)] + [CartItem(p2, 1)] == [CartItem(p1, 3), CartItem(p2, 1)];
  }

  /** Then one addition of another product at 50: two lines, 4 items and a total of 350. */
  lemma FourthAddScenario(p1: Product, p2: Product)
    requires p1.id != p2.id && p1.price == 100 && p2.price == 50
    ensures var items := Run([], [AddToCart(p1), AddToCart(p1), AddToCart(p1), AddToCart(p2)]);
            items == [CartItem(p1, 3), CartItem(p2, 1)] && TotalItems(items) == 4 && TotalPrice(items) == 350
  {
    FourAdds(p1, p2);
    TotalsOfShortCarts(CartItem(p1, 3), CartItem(p2, 1));
  }

  /** The four additions, then the first product set to 0: only the second line is left. */
  lemma FourAddsThenZero(p1: Product, p2: Product)
    requires p1.id != p2.id
    ensures Run([], [AddToCart(p1), AddToCart(p1), AddToCart(p1), AddToCart(p2), UpdateQuantity(p1.id, 0)]) == [CartItem(p2, 1)]
  {
    var a, b, u := AddToCart(p1), AddToCart(p2), UpdateQuantity(p1.id, 0);
    FourAdds(p1, p2);
    UpdateFirstToZero(CartItem(p1, 3), CartItem(p2, 1));
    RunSnoc([], [a, a, a, b], u);
    assert [a, a, a, b] + [u] == [a, a, a, b, u];
  }

  /** Then setting the first product's quantity to 0: only the second line is left, and the total is 50. */
  lemma UpdateToZeroScenario(p1: Product, p2: Product)
    requires p1.id != p2.id && p1.price == 100 && p2.price == 50
    ensures var items := Run([], [AddToCart(p1), AddToCart(p1), AddToCart(p1), AddToCart(p2), UpdateQuantity(p1.id, 0)]);
            items == [CartItem(p2, 1)] && TotalPrice(items) == 50
  {
    FourAddsThenZero(p1, p2);
    TotalsOfShortCarts(CartItem(p2, 1), CartItem(p2, 1));
  }

  /** Setting the first of two lines to 0 leaves the second. */
  lemma UpdateFirstToZero(x: CartItem, y: CartItem)
    requires x.product.id != y.product.id
    ensures Apply([x, y], UpdateQuantity(x.product.id, 0)) == [y]
  {
    var id := x.product.id;
    assert Apply([x, y], UpdateQuantity(id, 0)) == WithoutItem([x, y], id);
    WithoutAbsentId([], id);
    WithoutAbsentId([y], id);
    assert [x, y] == [] + [x] + [y];
    FilterCutOne([], x, [y], OtherId(id));
  }
}
