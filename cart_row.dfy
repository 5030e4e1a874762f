/**
 * One row of the cart drawer (src/components/cart/CartItem.tsx): its three
 * buttons each ask for one change, and it shows the line's subtotal. The
 * drawer passes the hook's `updateQuantity` and `removeFromCart` as the
 * row's callbacks (src/components/cart/CartDrawer.tsx:88-89).
 */
module CartRow {
  import opened Types
  import opened Calculations
  import opened Cart
  import opened UseCart

  /** The callback a button calls, with its arguments. */
  datatype Request =
    | UpdateRequest(productId: string, quantity: int)
    | RemoveRequest(productId: string)

  /** The plus button: one unit more. */
  function OnIncrease(item: CartItem): (r: Request)
    ensures r.UpdateRequest? && r.productId == item.product.id && r.quantity == item.quantity + 1
  {
    UpdateRequest(item.product.id, item.quantity + 1)
  }

  /** The minus button: one unit less while more than one is left, otherwise removal. */
  function OnDecrease(item: CartItem): (r: Request)
    ensures r.productId == item.product.id
    ensures r.UpdateRequest? <==> item.quantity > 1
    ensures r.UpdateRequest? ==> r.quantity == item.quantity - 1 && r.quantity >= 1
  {
    if item.quantity > 1 then UpdateRequest(item.product.id, item.quantity - 1)
    else RemoveRequest(item.product.id)
  }

  /** The delete button. */
  function OnRemove(item: CartItem): (r: Request)
    ensures r.RemoveRequest? && r.productId == item.product.id
  {
    RemoveRequest(item.product.id)
  }

  /** The row's subtotal: what the line adds to the cart total. */
  function RowSubtotal(item: CartItem): (r: int)
    ensures r == TotalPrice([item])
    ensures item.quantity == 0 ==> r == 0
  {
    assert [item][..0] == [];
    item.product.price * item.quantity
  }

  /** A request carried out through the hook. */
  function Dispatch(items: seq<CartItem>, request: Request): (r: seq<CartItem>)
    ensures UniqueIds(items) ==> UniqueIds(r)
    ensures AllPositive(items) ==> AllPositive(r)
  {
    match request
    case UpdateRequest(productId, quantity) => Apply(items, UpdateQuantity(productId, quantity))
    case RemoveRequest(productId) => Apply(items, RemoveFromCart(productId))
  }

  /**
   * The minus button on a line of more than one unit takes exactly one
   * unit off and keeps the line; on a line of one unit it removes the line
   * and keeps the others in order.
   */
  lemma DecreaseEffect(items: seq<CartItem>, i: int)
    requires UniqueIds(items) && 0 <= i < |items|
    ensures var line := items[i];
            var r := Dispatch(items, OnDecrease(line));
            && (line.quantity > 1 ==> r == items[i := line.(quantity := line.quantity - 1)]
                                      && Find(r, line.product.id) == Some(line.(quantity := line.quantity - 1)))
            && (line.quantity <= 1 ==> r == items[..i] + items[i + 1..] && !HasId(r, line.product.id))
  {
    var line := items[i];
    if line.quantity > 1 {
      WithQuantityAt(items, i, line.quantity - 1);
      FindUnique(items[i := line.(quantity := line.quantity - 1)], i);
    } else {
      WithoutItemAt(items, i);
    }
  }

  /** The delete button removes the line and keeps the others in order. */
  lemma RemoveEffect(items: seq<CartItem>, i: int)
    requires UniqueIds(items) && 0 <= i < |items|
    ensures Dispatch(items, OnRemove(items[i])) == items[..i] + items[i + 1..]
  {
    WithoutItemAt(items, i);
  }

  /** The plus button and then the minus button on the same row leave the cart as it was. */
  lemma IncreaseThenDecrease(items: seq<CartItem>, i: int)
    requires UniqueIds(items) && AllPositive(items) && 0 <= i < |items|
    ensures var once := Dispatch(items, OnIncrease(items[i]));
            |once| == |items| && Dispatch(once, OnDecrease(once[i])) == items
  {
    var line := items[i];
    var up := line.(quantity := line.quantity + 1);
    WithQuantityAt(items, i, line.quantity + 1);
    var once := items[i := up];
    assert once[i] == up;
    WithQuantityAt(once, i, line.quantity);
    assert once[i := up.(quantity := line.quantity)] == items;
  }
}
