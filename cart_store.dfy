/** The customer's cart: a store holding a list of (dish, quantity) items that its actions
    replace with new lists. */
module CartStore {
  import opened Types
  import opened Pricing

  /** No two items share a dish id. */
  predicate UniqueDishIds(items: seq<OrderItem>) {
    forall i, j :: 0 <= i < j < |items| ==> items[i].dish.id != items[j].dish.id
  }

  /** `items.find(item => item.dish.id === id)` found something. */
  predicate HasDish(items: seq<OrderItem>, id: DishId) {
    exists i :: 0 <= i < |items| && items[i].dish.id == id
  }

  /** `items.map(item => item.dish.id === id ? { ...item, quantity: item.quantity + q } : item)`. */
  function Bumped(items: seq<OrderItem>, id: DishId, q: int): (r: seq<OrderItem>)
    ensures |r| == |items|
  {
    seq(|items|, i requires 0 <= i < |items| =>
      if items[i].dish.id == id then items[i].(quantity := items[i].quantity + q) else items[i])
  }

  /** `items.map(item => item.dish.id === id ? { ...item, quantity: q } : item)`. */
  function WithQuantity(items: seq<OrderItem>, id: DishId, q: int): (r: seq<OrderItem>)
    ensures |r| == |items|
  {
    seq(|items|, i requires 0 <= i < |items| =>
      if items[i].dish.id == id then items[i].(quantity := q) else items[i])
  }

  /** `items.filter(item => item.dish.id !== id)`. */
  function WithoutDish(items: seq<OrderItem>, id: DishId): (r: seq<OrderItem>)
    ensures |r| <= |items|
    ensures forall i :: 0 <= i < |r| ==> r[i].dish.id != id && r[i] in items
    decreases |items|
  {
    if items == [] then []
    else
      var init := items[..|items| - 1];
      var last := items[|items| - 1];
      assert items == init + [last];
      if last.dish.id == id then WithoutDish(init, id) else WithoutDish(init, id) + [last]
  }

  /** The items after `addItem(dish, quantity)`: an existing item of that dish gets the
      extra quantity, otherwise the dish is appended. */
  function AddedItems(items: seq<OrderItem>, dish: Dish, quantity: int): seq<OrderItem> {
    if HasDish(items, dish.id) then Bumped(items, dish.id, quantity)
    else items + [OrderItem(dish, quantity)]
  }

  class CartStore {
    var items: seq<OrderItem>

    /** The invariant every action keeps: one item per dish. */
    ghost predicate Valid()
      reads this
    {
      UniqueDishIds(items)
    }

    /** The store starts with an empty cart. */
    constructor ()
      ensures Valid() && items == []
    {
      items := [];
    }

    /** `addItem(dish, quantity = 1)`. */
    method AddItem(dish: Dish, quantity: int := 1)
      requires Valid()
      modifies this
      ensures Valid()
      ensures items == AddedItems(old(items), dish, quantity)
    {
      AddedItemsKeepsUnique(items, dish, quantity);
      if HasDish(items, dish.id) {
        items := Bumped(items, dish.id, quantity);
      } else {
        items := items + [OrderItem(dish, quantity)];
      }
    }

    /** `removeItem(dishId)`. */
    method RemoveItem(dishId: DishId)
      requires Valid()
      modifies this
      ensures Valid()
      ensures items == WithoutDish(old(items), dishId)
    {
      WithoutDishKeepsUnique(items, dishId);
      items := WithoutDish(items, dishId);
    }

    /** `updateQuantity(dishId, quantity)`: a quantity of zero or less removes the dish. */
    method UpdateQuantity(dishId: DishId, quantity: int)
      requires Valid()
      modifies this
      ensures Valid()
      ensures quantity <= 0 ==> items == WithoutDish(old(items), dishId)
      ensures quantity > 0 ==> items == WithQuantity(old(items), dishId, quantity)
    {
      if quantity <= 0 {
        RemoveItem(dishId);
        return;
      }
      items := WithQuantity(items, dishId, quantity);
    }

    /** `clearCart()`. */
    method ClearCart()
      modifies this
      ensures Valid() && items == []
    {
      items := [];
    }

    /** `total()`: the sum of price times quantity; 0 for an empty cart, and never
        negative when no price is negative and every quantity is positive. */
    function Total(): (t: real)
      reads this
      ensures items == [] ==> t == 0.0
      ensures (forall i :: 0 <= i < |items| ==> items[i].dish.price >= 0.0 && items[i].quantity > 0)
              ==> t >= 0.0
    {
      if forall i :: 0 <= i < |items| ==> items[i].dish.price >= 0.0 && items[i].quantity > 0 then
        SubtotalNonNegative(items);
        Subtotal(items)
      else
        Subtotal(items)
    }

    /** `itemCount()`: the number of units; 0 for an empty cart, and at least the number of
        items when every quantity is positive. */
    function ItemCount(): (n: int)
      reads this
      ensures items == [] ==> n == 0
      ensures (forall i :: 0 <= i < |items| ==> items[i].quantity > 0) ==> n >= |items|
    {
      QuantityAtLeastLength(items);
      Quantity(items)
    }
  }

  // ---- What the actions promise ----

  /** Every positive quantity counts at least one unit. */
  lemma {:induction false} QuantityAtLeastLength(items: seq<OrderItem>)
    ensures (forall i :: 0 <= i < |items| ==> items[i].quantity > 0) ==> Quantity(items) >= |items|
    decreases |items|
  {
    if items != [] {
      QuantityAtLeastLength(items[..|items| - 1]);
    }
  }

  /** With unique ids, the item of a present dish sits at exactly one index. */
  lemma IndexOfDish(items: seq<OrderItem>, id: DishId) returns (k: nat)
    requires UniqueDishIds(items) && HasDish(items, id)
    ensures k < |items| && items[k].dish.id == id
    ensures forall i :: 0 <= i < |items| && i != k ==> items[i].dish.id != id
  {
    k :| 0 <= k < |items| && items[k].dish.id == id;
  }

  /** `addItem` keeps one item per dish. */
  lemma AddedItemsKeepsUnique(items: seq<OrderItem>, dish: Dish, quantity: int)
    requires UniqueDishIds(items)
    ensures UniqueDishIds(AddedItems(items, dish, quantity))
  {
    var r := AddedItems(items, dish, quantity);
    if !HasDish(items, dish.id) {
      assert forall i :: 0 <= i < |items| ==> r[i] == items[i];
    }
  }

  /** `addItem` of a dish already in the cart adds the quantity to that item, keeps the
      cart's length and leaves every other item as it was. */
  lemma AddExistingDish(items: seq<OrderItem>, dish: Dish, quantity: int, k: nat)
    requires UniqueDishIds(items) && k < |items| && items[k].dish.id == dish.id
    ensures AddedItems(items, dish, quantity) == items[k := items[k].(quantity := items[k].quantity + quantity)]
  {
  }

  /** `addItem` of a new dish appends it with the given quantity. */
  lemma AddNewDish(items: seq<OrderItem>, dish: Dish, quantity: int)
    requires !HasDish(items, dish.id)
    ensures AddedItems(items, dish, quantity) == items + [OrderItem(dish, quantity)]
  {
  }

  /** `removeItem` keeps one item per dish. */
  lemma {:induction false} WithoutDishKeepsUnique(items: seq<OrderItem>, id: DishId)
    requires UniqueDishIds(items)
    ensures UniqueDishIds(WithoutDish(items, id))
    decreases |items|
  {
    if items != [] {
      var init := items[..|items| - 1];
      var last := items[|items| - 1];
      assert UniqueDishIds(init) by {
        assert forall i :: 0 <= i < |init| ==> init[i] == items[i];
      }
      WithoutDishKeepsUnique(init, id);
      if last.dish.id != id {
        var r := WithoutDish(init, id);
        assert forall i :: 0 <= i < |init| ==> init[i].dish.id != last.dish.id by {
          assert forall i :: 0 <= i < |init| ==> init[i] == items[i];
        }
        assert forall i :: 0 <= i < |r| ==> r[i].dish.id != last.dish.id;
      }
    }
  }

  /** `removeItem` of a dish that is not in the cart changes nothing. */
  lemma {:induction false} WithoutAbsentDish(items: seq<OrderItem>, id: DishId)
    requires !HasDish(items, id)
    ensures WithoutDish(items, id) == items
    decreases |items|
  {
    if items != [] {
      var init := items[..|items| - 1];
      assert !HasDish(init, id) by {
        assert forall i :: 0 <= i < |init| ==> init[i] == items[i];
      }
      WithoutAbsentDish(init, id);
      assert items == init + [items[|items| - 1]];
    }
  }

  /** On a single item, `removeItem` drops it exactly when it is of that dish. */
  lemma WithoutDishSingle(x: OrderItem, id: DishId)
    ensures WithoutDish([x], id) == if x.dish.id == id then [] else [x]
  {
    assert [x][..0] == [];
  }

  /** Removing distributes over concatenation: the kept items stay in their order. */
  lemma {:induction false} WithoutDishAppend(a: seq<OrderItem>, b: seq<OrderItem>, id: DishId)
    ensures WithoutDish(a + b, id) == WithoutDish(a, id) + WithoutDish(b, id)
    decreases |b|
  {
    if b == [] {
      assert a + b == a;
    } else {
      var bInit := b[..|b| - 1];
      assert (a + b)[..|a + b| - 1] == a + bInit;
      assert (a + b)[|a + b| - 1] == b[|b| - 1];
      WithoutDishAppend(a, bInit, id);
    }
  }

  /** `updateQuantity` with a positive quantity sets the quantity of the dish's item and
      leaves the others; it changes nothing when the dish is not in the cart. */
  lemma UpdatePresentDish(items: seq<OrderItem>, id: DishId, q: int, k: nat)
    requires UniqueDishIds(items) && k < |items| && items[k].dish.id == id
    ensures WithQuantity(items, id, q) == items[k := items[k].(quantity := q)]
  {
  }

  lemma UpdateAbsentDish(items: seq<OrderItem>, id: DishId, q: int)
    requires !HasDish(items, id)
    ensures WithQuantity(items, id, q) == items
  {
  }

  /** Replacing one item changes the total by the difference of the two lines. */
  lemma {:induction false} ReplacedSubtotal(items: seq<OrderItem>, k: nat, x: OrderItem)
    requires k < |items|
    ensures Subtotal(items[k := x]) == Subtotal(items) - LineTotal(items[k]) + LineTotal(x)
    decreases |items|
  {
    var r := items[k := x];
    var init := items[..|items| - 1];
    assert r[..|r| - 1] == if k == |items| - 1 then init else init[k := x];
    if k < |items| - 1 {
      ReplacedSubtotal(init, k, x);
    }
  }

  /** Replacing one item changes the count by the difference of the two quantities. */
  lemma {:induction false} ReplacedQuantity(items: seq<OrderItem>, k: nat, x: OrderItem)
    requires k < |items|
    ensures Quantity(items[k := x]) == Quantity(items) - items[k].quantity + x.quantity
    decreases |items|
  {
    var r := items[k := x];
    var init := items[..|items| - 1];
    assert r[..|r| - 1] == if k == |items| - 1 then init else init[k := x];
    if k < |items| - 1 {
      ReplacedQuantity(init, k, x);
    }
  }

  /** Adding `q` units of a dish already in the cart at index `k` raises the count by `q`
      and the total by `q` times the price of the dish as the cart holds it. */
  lemma AddExistingDishSums(items: seq<OrderItem>, dish: Dish, q: int, k: nat)
    requires UniqueDishIds(items) && k < |items| && items[k].dish.id == dish.id
    ensures Quantity(AddedItems(items, dish, q)) == Quantity(items) + q
    ensures Subtotal(AddedItems(items, dish, q)) == Subtotal(items) + items[k].dish.price * q as real
  {
    AddExistingDish(items, dish, q, k);
    BumpedSums(items, k, q);
  }

  /** `q` more units of the item at index `k` raise the count by `q` and the total by `q`
      times that item's price. */
  lemma BumpedSums(items: seq<OrderItem>, k: nat, q: int)
    requires k < |items|
    ensures var y := items[k := items[k].(quantity := items[k].quantity + q)];
      && Quantity(y) == Quantity(items) + q
      && Subtotal(y) == Subtotal(items) + items[k].dish.price * q as real
  {
    var x := items[k].(quantity := items[k].quantity + q);
    ReplacedQuantity(items, k, x);
    ReplacedSubtotal(items, k, x);
    LineTotalOfMore(items[k], q);
  }

  /** Adding `q` units of a new dish raises the count by `q` and the total by `q` times
      its price. */
  lemma AddNewDishSums(items: seq<OrderItem>, dish: Dish, q: int)
    requires !HasDish(items, dish.id)
    ensures Quantity(AddedItems(items, dish, q)) == Quantity(items) + q
    ensures Subtotal(AddedItems(items, dish, q)) == Subtotal(items) + dish.price * q as real
  {
    AddNewDish(items, dish, q);
    SubtotalAppend(items, [OrderItem(dish, q)]);
    QuantityAppend(items, [OrderItem(dish, q)]);
    SubtotalSmall(OrderItem(dish, q));
  }

  /** `q` more units of an item cost `q` times its price more. */
  lemma LineTotalOfMore(item: OrderItem, q: int)
    ensures LineTotal(item.(quantity := item.quantity + q)) == LineTotal(item) + item.dish.price * q as real
  {
    var p, n := item.dish.price, item.quantity as real;
    assert p * (n + q as real) == p * n + p * q as real;
  }

  /** `removeItem` of the dish at index `k` removes exactly that item. */
  lemma RemoveItemAt(items: seq<OrderItem>, k: nat)
    requires UniqueDishIds(items) && k < |items|
    ensures WithoutDish(items, items[k].dish.id) == items[..k] + items[k + 1..]
  {
    UniqueOutsideIndex(items, k);
    assert items == items[..k] + [items[k]] + items[k + 1..];
    WithoutOnlyOccurrence(items[..k], items[k], items[k + 1..]);
  }

  /** With unique dish ids, the dish at `k` occurs nowhere before or after it. */
  lemma UniqueOutsideIndex(items: seq<OrderItem>, k: nat)
    requires UniqueDishIds(items) && k < |items|
    ensures !HasDish(items[..k], items[k].dish.id) && !HasDish(items[k + 1..], items[k].dish.id)
  {
    var a, b := items[..k], items[k + 1..];
    assert forall i :: 0 <= i < |a| ==> a[i] == items[i];
    assert forall i :: 0 <= i < |b| ==> b[i] == items[k + 1 + i];
  }

  /** Filtering out a dish that occurs once leaves what is around it. */
  lemma WithoutOnlyOccurrence(a: seq<OrderItem>, x: OrderItem, b: seq<OrderItem>)
    requires !HasDish(a, x.dish.id) && !HasDish(b, x.dish.id)
    ensures WithoutDish(a + [x] + b, x.dish.id) == a + b
  {
    var id := x.dish.id;
    WithoutAbsentDish(a, id);
    WithoutAbsentDish(b, id);
    WithoutDishAppend(a + [x], b, id);
    WithoutDishAppend(a, [x], id);
    WithoutDishSingle(x, id);
    assert a + [] == a;
  }

  /** Dropping the item at index `k` lowers the sums by exactly that item. */
  lemma SumsWithoutIndex(items: seq<OrderItem>, k: nat)
    requires k < |items|
    ensures Subtotal(items[..k] + items[k + 1..]) == Subtotal(items) - LineTotal(items[k])
    ensures Quantity(items[..k] + items[k + 1..]) == Quantity(items) - items[k].quantity
  {
    var a, m, b := items[..k], [items[k]], items[k + 1..];
    assert items == a + m + b;
    SubtotalAppend(a + m, b);
    SubtotalAppend(a, m);
    SubtotalAppend(a, b);
    SubtotalSmall(items[k]);
    QuantityAppend(a + m, b);
    QuantityAppend(a, m);
    QuantityAppend(a, b);
  }

  /** Removing the dish at index `k` lowers the total by exactly that item's line and the
      count by exactly its quantity. */
  lemma RemoveItemSums(items: seq<OrderItem>, k: nat)
    requires UniqueDishIds(items) && k < |items|
    ensures Subtotal(WithoutDish(items, items[k].dish.id)) == Subtotal(items) - LineTotal(items[k])
    ensures Quantity(WithoutDish(items, items[k].dish.id)) == Quantity(items) - items[k].quantity
  {
    RemoveItemAt(items, k);
    SumsWithoutIndex(items, k);
  }
}
