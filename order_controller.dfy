/** Order creation and status updates on the server: validate the request, price it, build
    the order and store it. */
module OrderController {
  import opened Wrappers
  import opened Strings
  import opened Types
  import opened Validators
  import opened Pricing
  import opened OrderedMaps
  import opened Database

  const ValidationFailed := "Order validation failed"

  /** The order-number prefix of every generated id. */
  const OrderIdPrefix := "#ORD-"

  /** `Math.floor(1000 + random * 8999)` for a `Math.random()` value. */
  function OrderNumber(random: real): (n: int)
    requires 0.0 <= random < 1.0
    ensures 1000 <= n <= 9998
  {
    assert 0.0 <= random * 8999.0 < 8999.0;
    (1000.0 + random * 8999.0).Floor
  }

  /** The generated id: `#ORD-` and the order number in decimal. */
  function OrderIdFor(random: real): OrderId
    requires 0.0 <= random < 1.0
  {
    OrderIdPrefix + NatToDecimal(OrderNumber(random))
  }

  /** A well-formed generated id: `#ORD-` followed by four digits that denote a number
      from 1000 to 9998. */
  ghost predicate IsGeneratedOrderId(id: OrderId) {
    && |id| == |OrderIdPrefix| + 4
    && StartsWith(id, OrderIdPrefix)
    && (forall i :: |OrderIdPrefix| <= i < |id| ==> IsDigit(id[i]))
    && 1000 <= DecimalValue(id[|OrderIdPrefix|..]) <= 9998
  }

  /** Every generated id is well formed, and reading its digits back gives the number. */
  lemma OrderIdWellFormed(random: real)
    requires 0.0 <= random < 1.0
    ensures IsGeneratedOrderId(OrderIdFor(random))
    ensures DecimalValue(OrderIdFor(random)[|OrderIdPrefix|..]) == OrderNumber(random)
  {
    var n := OrderNumber(random);
    var id := OrderIdFor(random);
    FourDigits(n);
    DecimalRoundTrip(n);
    assert id[|OrderIdPrefix|..] == NatToDecimal(n);
    assert id[..|OrderIdPrefix|] == OrderIdPrefix;
  }

  /** `paymentMethod === 'Cash' ? 'Pending' : 'Paid'`. */
  function PaymentStatusFor(m: PaymentMethod): (s: PaymentStatus)
    ensures s == Pending <==> m == Cash
    ensures s != Failed
  {
    if m == Cash then Pending else Paid
  }

  /** `subtotal * 1.05`. */
  function OrderTotal(subtotal: real): (total: real)
    ensures total == subtotal + subtotal * 0.05
    ensures subtotal >= 0.0 ==> total >= subtotal
  {
    subtotal * 1.05
  }

  /** The outcome of `createNewOrder` before it stores anything: the order, or the error it
      throws. `random` is `Math.random()` and `now` is `Date.now()`. */
  function NewOrder(userId: UserId, tableNumber: int, items: seq<OrderItem>, paymentMethod: PaymentMethod,
                    random: real, now: int): (r: Result<Order, string>)
    requires 0.0 <= random < 1.0
    ensures r.Err? <==> !ValidateOrder(tableNumber, items)
    ensures r.Err? ==> r.error == ValidationFailed
    ensures r.Ok? ==>
      && r.value.status == Received
      && r.value.userId == userId && r.value.tableNumber == tableNumber && r.value.items == items
      && r.value.total == OrderTotal(Subtotal(items))
      && (r.value.paymentStatus == Pending <==> paymentMethod == Cash)
      && r.value.paymentStatus != Failed
      && r.value.timestamp == now
      && r.value.paymentMethod == paymentMethod
      && r.value.customerName.None? && r.value.customerPhone.None?
      && r.value.stripePaymentIntentId.None?
  {
    if !ValidateOrder(tableNumber, items) then Err(ValidationFailed)
    else
      Ok(Order(OrderIdFor(random), userId, tableNumber, items, Received, OrderTotal(Subtotal(items)),
        now, paymentMethod, PaymentStatusFor(paymentMethod), None, None, None))
  }

  /** A created order is well formed: a positive table, at least one item, every item with
      a dish id and a positive quantity, a generated id, and, when no dish has a negative
      price, a total no smaller than its subtotal. */
  lemma NewOrderWellFormed(userId: UserId, tableNumber: int, items: seq<OrderItem>,
                           paymentMethod: PaymentMethod, random: real, now: int)
    requires 0.0 <= random < 1.0
    requires NewOrder(userId, tableNumber, items, paymentMethod, random, now).Ok?
    ensures var o := NewOrder(userId, tableNumber, items, paymentMethod, random, now).value;
      && o.tableNumber > 0 && |o.items| > 0
      && (forall item :: item in o.items ==> WellFormedItem(item))
      && IsGeneratedOrderId(o.id)
      && ((forall item :: item in items ==> item.dish.price >= 0.0) ==> o.total >= Subtotal(items) >= 0.0)
  {
    OrderIdWellFormed(random);
    if forall item :: item in items ==> item.dish.price >= 0.0 {
      assert forall i :: 0 <= i < |items| ==> items[i] in items;
      SubtotalNonNegative(items);
    }
  }

  /** `createNewOrder`: a rejected request throws and stores nothing; an accepted one is
      stored with `insertOrder`. */
  method CreateNewOrder(db: PostgresClient, userId: UserId, tableNumber: int, items: seq<OrderItem>,
                        paymentMethod: PaymentMethod, random: real, now: int)
    returns (r: Result<Order, string>)
    requires db.Valid() && 0.0 <= random < 1.0
    modifies db
    ensures db.Valid()
    ensures r == NewOrder(userId, tableNumber, items, paymentMethod, random, now)
    ensures r.Err? ==> db.orders == old(db.orders)
    ensures r.Ok? ==> db.orders == WithOrder(old(db.orders), r.value)
    ensures db.users == old(db.users) && db.credentials == old(db.credentials)
    ensures db.dishes == old(db.dishes) && db.configs == old(db.configs)
  {
    r := NewOrder(userId, tableNumber, items, paymentMethod, random, now);
    if r.Ok? {
      var saved := db.InsertOrder(r.value);
      r := Ok(saved);
    }
  }

  /** `getLiveOrders`: the user's orders, newest first. */
  method GetLiveOrders(db: PostgresClient, userId: UserId) returns (r: seq<Order>)
    requires db.Valid()
    ensures NewestFirst(r)
    ensures r == SortNewestFirst(TableOf(db.orders, userId).Values())
  {
    r := db.QueryOrders(userId);
  }

  /** `updateStatus`: hands the requested status to the store without consulting the
      transition table. */
  method UpdateStatus(db: PostgresClient, userId: UserId, id: OrderId, status: OrderStatus)
    requires db.Valid()
    modifies db
    ensures db.Valid()
    ensures db.orders == if userId in old(db.orders)
      then old(db.orders)[userId := WithStatus(old(db.orders)[userId], id, status)]
      else old(db.orders)
    ensures db.users == old(db.users) && db.credentials == old(db.credentials)
    ensures db.dishes == old(db.dishes) && db.configs == old(db.configs)
  {
    db.UpdateOrderStatus(userId, id, status);
  }

  /** On a freshly seeded store, `updateStatus` may move the demo order from `preparing`
      back to `received`, a step the transition table does not list. */
  lemma SeededOrderCanBeReopened(now: int)
    ensures var t := SeedOrders(DemoUsers, now)["u_demo"];
      && t.Valid() && "#ORD-7721" in t.entries
      && t.entries["#ORD-7721"].status == Preparing
      && WithStatus(t, "#ORD-7721", Received).entries["#ORD-7721"].status == Received
      && !CanTransition(Preparing, Received)
  {
    SeededDemoOrder(now);
  }
}
