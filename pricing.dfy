/** The sums over order items that the server, the cart store and the checkout view each
    compute with `reduce`, starting from 0. */
module Pricing {
  import opened Types

  /** The price of one line: `item.dish.price * item.quantity`. */
  function LineTotal(item: OrderItem): real {
    item.dish.price * item.quantity as real
  }

  /** `items.reduce((acc, item) => acc + item.dish.price * item.quantity, 0)`. */
  function Subtotal(items: seq<OrderItem>): real
    decreases |items|
  {
    if items == [] then 0.0 else Subtotal(items[..|items| - 1]) + LineTotal(items[|items| - 1])
  }

  /** `items.reduce((sum, item) => sum + item.quantity, 0)`. */
  function Quantity(items: seq<OrderItem>): int
    decreases |items|
  {
    if items == [] then 0 else Quantity(items[..|items| - 1]) + items[|items| - 1].quantity
  }

  /** The subtotal of two runs of items is the sum of their subtotals. */
  lemma {:induction false} SubtotalAppend(a: seq<OrderItem>, b: seq<OrderItem>)
    ensures Subtotal(a + b) == Subtotal(a) + Subtotal(b)
    decreases |b|
  {
    if b == [] {
      assert a + b == a;
    } else {
      var bInit := b[..|b| - 1];
      assert (a + b)[..|a + b| - 1] == a + bInit;
      assert (a + b)[|a + b| - 1] == b[|b| - 1];
      SubtotalAppend(a, bInit);
    }
  }

  /** The quantity of two runs of items is the sum of their quantities. */
  lemma {:induction false} QuantityAppend(a: seq<OrderItem>, b: seq<OrderItem>)
    ensures Quantity(a + b) == Quantity(a) + Quantity(b)
    decreases |b|
  {
    if b == [] {
      assert a + b == a;
    } else {
      var bInit := b[..|b| - 1];
      assert (a + b)[..|a + b| - 1] == a + bInit;
      assert (a + b)[|a + b| - 1] == b[|b| - 1];
      QuantityAppend(a, bInit);
    }
  }

  /** The subtotal of one item is its line total, and of none is 0. */
  lemma SubtotalSmall(item: OrderItem)
    ensures Subtotal([]) == 0.0 && Quantity([]) == 0
    ensures Subtotal([item]) == LineTotal(item) && Quantity([item]) == item.quantity
  {
    assert [item][..0] == [];
  }

  /** Items with non-negative prices and positive quantities cost nothing negative, and
      there are at least as many units as items. */
  lemma {:induction false} SubtotalNonNegative(items: seq<OrderItem>)
    requires forall i :: 0 <= i < |items| ==> items[i].dish.price >= 0.0 && items[i].quantity > 0
    ensures Subtotal(items) >= 0.0
    ensures Quantity(items) >= |items|
    decreases |items|
  {
    if items != [] {
      var init := items[..|items| - 1];
      SubtotalNonNegative(init);
      var last := items[|items| - 1];
      assert LineTotal(last) >= 0.0 by {
        assert last.dish.price >= 0.0 && last.quantity as real > 0.0;
      }
    }
  }
}
