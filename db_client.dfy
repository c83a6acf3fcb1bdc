/** The in-memory store behind the repositories: per-user tables of dishes and orders,
    restaurant configurations, users and their credentials. */
module Database {
  import opened Wrappers
  import opened Strings
  import opened Types
  import opened OrderedMaps

  // ---- Partial dish updates (`Object.assign(dish, updates)`) ----

  /** A `Partial<Dish>`: `None` for an absent property. For the optional properties
      `Some(None)` is a property that is present and `undefined`. */
  datatype DishUpdate = DishUpdate(
    id: Option<DishId>,
    userId: Option<UserId>,
    name: Option<string>,
    description: Option<string>,
    price: Option<real>,
    category: Option<string>,
    images: Option<seq<string>>,
    portionSize: Option<string>,
    isARReady: Option<bool>,
    arModelUrl: Option<Option<string>>,
    modelGenerationStatus: Option<ModelGenerationStatus>,
    generationProgress: Option<int>,
    geometricPrompt: Option<Option<string>>)

  const NoUpdates: DishUpdate :=
    DishUpdate(None, None, None, None, None, None, None, None, None, None, None, None, None)

  /** `Object.assign(dish, updates)`: every present property overwrites the dish's. */
  function ApplyUpdates(d: Dish, u: DishUpdate): Dish {
    d.(
      id := u.id.GetOr(d.id),
      userId := u.userId.GetOr(d.userId),
      name := u.name.GetOr(d.name),
      description := u.description.GetOr(d.description),
      price := u.price.GetOr(d.price),
      category := u.category.GetOr(d.category),
      images := u.images.GetOr(d.images),
      portionSize := u.portionSize.GetOr(d.portionSize),
      isARReady := u.isARReady.GetOr(d.isARReady),
      arModelUrl := u.arModelUrl.GetOr(d.arModelUrl),
      modelGenerationStatus := u.modelGenerationStatus.GetOr(d.modelGenerationStatus),
      generationProgress := u.generationProgress.GetOr(d.generationProgress),
      geometricPrompt := u.geometricPrompt.GetOr(d.geometricPrompt))
  }

  /** Properties absent from the update keep their value; present ones take the update's. */
  lemma ApplyUpdatesOverwritesPresentOnly(d: Dish, u: DishUpdate)
    ensures ApplyUpdates(d, NoUpdates) == d
    ensures var r := ApplyUpdates(d, u);
      && (u.name.None? ==> r.name == d.name) && (u.name.Some? ==> r.name == u.name.value)
      && (u.price.None? ==> r.price == d.price) && (u.price.Some? ==> r.price == u.price.value)
      && (u.isARReady.None? ==> r.isARReady == d.isARReady)
      && (u.isARReady.Some? ==> r.isARReady == u.isARReady.value)
      && (u.arModelUrl.None? ==> r.arModelUrl == d.arModelUrl)
      && (u.arModelUrl.Some? ==> r.arModelUrl == u.arModelUrl.value)
      && (u.modelGenerationStatus.None? ==> r.modelGenerationStatus == d.modelGenerationStatus)
      && (u.modelGenerationStatus.Some? ==> r.modelGenerationStatus == u.modelGenerationStatus.value)
      && (u.generationProgress.None? ==> r.generationProgress == d.generationProgress)
      && (u.generationProgress.Some? ==> r.generationProgress == u.generationProgress.value)
    ensures ApplyUpdates(ApplyUpdates(d, u), u) == ApplyUpdates(d, u)
  {
  }

  // ---- Per-user tables ----

  function DishKey(d: Dish): DishId { d.id }
  function OrderKey(o: Order): OrderId { o.id }
  function UserKey(u: User): UserId { u.id }

  /** `this.dishes.get(userId)` or `this.orders.get(userId)`, read as an empty table when
      the user has none. */
  function TableOf<V>(m: map<UserId, OMap<string, V>>, u: UserId): OMap<string, V> {
    if u in m then m[u] else Empty()
  }

  /** A user's order table: keyed by order id, every order owned by that user. */
  ghost predicate OrderTableValid(u: UserId, t: OMap<OrderId, Order>) {
    t.Valid() && forall k :: k in t.entries ==> t.entries[k].id == k && t.entries[k].userId == u
  }

  ghost predicate DishTablesValid(m: map<UserId, OMap<DishId, Dish>>) {
    forall u :: u in m ==> m[u].Valid()
  }

  ghost predicate OrderTablesValid(m: map<UserId, OMap<OrderId, Order>>) {
    forall u :: u in m ==> OrderTableValid(u, m[u])
  }

  /** The tables after `insertDish(d)`. */
  function WithDish(m: map<UserId, OMap<DishId, Dish>>, d: Dish): map<UserId, OMap<DishId, Dish>>
    requires TableOf(m, d.userId).Valid()
  {
    m[d.userId := TableOf(m, d.userId).Set(d.id, d)]
  }

  /** The tables after `insertOrder(o)`. */
  function WithOrder(m: map<UserId, OMap<OrderId, Order>>, o: Order): map<UserId, OMap<OrderId, Order>>
    requires TableOf(m, o.userId).Valid()
  {
    m[o.userId := TableOf(m, o.userId).Set(o.id, o)]
  }

  /** Storing an order under its owner keeps every order table well formed. */
  lemma WithOrderKeepsTablesValid(m: map<UserId, OMap<OrderId, Order>>, o: Order)
    requires OrderTablesValid(m)
    ensures TableOf(m, o.userId).Valid() && OrderTablesValid(WithOrder(m, o))
  {
    var t := TableOf(m, o.userId);
    assert OrderTableValid(o.userId, t);
    assert OrderTableValid(o.userId, t.Set(o.id, o));
  }

  /** A table after `order.status = s` on the order stored under `id`, if there is one. */
  function WithStatus(t: OMap<OrderId, Order>, id: OrderId, s: OrderStatus): OMap<OrderId, Order>
    requires t.Valid()
  {
    if id in t.entries then t.Set(id, t.entries[id].(status := s)) else t
  }

  /** A table after `Object.assign` on the dish stored under `id`, if there is one. */
  function WithDishUpdates(t: OMap<DishId, Dish>, id: DishId, u: DishUpdate): OMap<DishId, Dish>
    requires t.Valid()
  {
    if id in t.entries then t.Set(id, ApplyUpdates(t.entries[id], u)) else t
  }

  // ---- Sorting orders by timestamp, newest first (`sort((a, b) => b.timestamp - a.timestamp)`) ----

  /** Each order is at least as new as the one after it. */
  predicate NewestFirst(os: seq<Order>) {
    forall i :: 0 <= i < |os| - 1 ==> os[i].timestamp >= os[i + 1].timestamp
  }

  /** Newest first means every earlier order is at least as new as every later one. */
  lemma {:induction false} NewestFirstOrdersAllPairs(os: seq<Order>, i: int, j: int)
    requires NewestFirst(os) && 0 <= i <= j < |os|
    ensures os[i].timestamp >= os[j].timestamp
    decreases j - i
  {
    if i < j {
      NewestFirstOrdersAllPairs(os, i + 1, j);
    }
  }

  /** Places `o` after every order at least as new, so equal timestamps keep their order. */
  function InsertNewestFirst(o: Order, sorted: seq<Order>): (r: seq<Order>)
    requires NewestFirst(sorted)
    ensures NewestFirst(r)
    ensures multiset(r) == multiset(sorted) + multiset{o}
    ensures |r| > 0 && (r[0] == o || (|sorted| > 0 && r[0] == sorted[0]))
    decreases |sorted|
  {
    if sorted == [] then [o]
    else if sorted[0].timestamp >= o.timestamp then
      assert NewestFirst(sorted[1..]) by {
        forall i | 0 <= i < |sorted[1..]| - 1
          ensures sorted[1..][i].timestamp >= sorted[1..][i + 1].timestamp
        {
          assert sorted[1..][i] == sorted[i + 1] && sorted[1..][i + 1] == sorted[i + 2];
        }
      }
      var rest := InsertNewestFirst(o, sorted[1..]);
      assert sorted == [sorted[0]] + sorted[1..];
      var r := [sorted[0]] + rest;
      assert NewestFirst(r) by {
        forall i | 0 <= i < |r| - 1 ensures r[i].timestamp >= r[i + 1].timestamp {
          if i > 0 {
            assert r[i] == rest[i - 1] && r[i + 1] == rest[i];
          }
        }
      }
      r
    else [o] + sorted
  }

  /** A stable sort of `os` by timestamp, newest first. */
  function SortNewestFirst(os: seq<Order>): (r: seq<Order>)
    ensures NewestFirst(r)
    ensures multiset(r) == multiset(os)
    decreases |os|
  {
    if os == [] then []
    else
      assert os == os[..|os| - 1] + [os[|os| - 1]];
      InsertNewestFirst(os[|os| - 1], SortNewestFirst(os[..|os| - 1]))
  }

  // ---- Stability: orders with equal timestamps keep their relative order ----

  /** The orders of `os` that carry timestamp `t`, in the order they appear. */
  function WithTimestamp(os: seq<Order>, t: int): (r: seq<Order>)
    ensures |r| <= |os|
    decreases |os|
  {
    if os == [] then []
    else (if os[0].timestamp == t then [os[0]] else []) + WithTimestamp(os[1..], t)
  }

  lemma {:induction false} WithTimestampAppend(a: seq<Order>, b: seq<Order>, t: int)
    ensures WithTimestamp(a + b, t) == WithTimestamp(a, t) + WithTimestamp(b, t)
    decreases |a|
  {
    if a != [] {
      assert (a + b)[1..] == a[1..] + b;
      WithTimestampAppend(a[1..], b, t);
    } else {
      assert a + b == b;
    }
  }

  lemma NewestFirstTail(os: seq<Order>)
    requires NewestFirst(os) && os != []
    ensures NewestFirst(os[1..])
  {
    forall i | 0 <= i < |os[1..]| - 1 ensures os[1..][i].timestamp >= os[1..][i + 1].timestamp {
      assert os[1..][i] == os[i + 1] && os[1..][i + 1] == os[i + 2];
    }
  }

  /** A newest-first list that starts older than `t` holds no order with timestamp `t`. */
  lemma {:induction false} OlderHoldsNoTies(os: seq<Order>, t: int)
    requires NewestFirst(os) && os != [] && os[0].timestamp < t
    ensures WithTimestamp(os, t) == []
    decreases |os|
  {
    if |os| > 1 {
      NewestFirstTail(os);
      OlderHoldsNoTies(os[1..], t);
    }
  }

  lemma WithTimestampCons(o: Order, os: seq<Order>, t: int)
    ensures WithTimestamp([o] + os, t) == TieOf(o, t) + WithTimestamp(os, t)
  {
    assert ([o] + os)[0] == o && ([o] + os)[1..] == os;
  }

  /** One step of `InsertNewestFirst`: the order goes in front of the first older order. */
  lemma InsertStep(o: Order, sorted: seq<Order>)
    requires NewestFirst(sorted) && sorted != []
    ensures sorted[0].timestamp >= o.timestamp ==>
      NewestFirst(sorted[1..]) && InsertNewestFirst(o, sorted) == [sorted[0]] + InsertNewestFirst(o, sorted[1..])
    ensures sorted[0].timestamp < o.timestamp ==> InsertNewestFirst(o, sorted) == [o] + sorted
  {
    NewestFirstTail(sorted);
  }

  /** The tie list `o` contributes to timestamp `t`. */
  function TieOf(o: Order, t: int): seq<Order> {
    if o.timestamp == t then [o] else []
  }

  /** `o` goes in front of an older list, which holds no order tied with it. */
  lemma InsertAheadKeepsTies(o: Order, sorted: seq<Order>, t: int)
    requires NewestFirst(sorted) && sorted != [] && sorted[0].timestamp < o.timestamp
    ensures WithTimestamp(InsertNewestFirst(o, sorted), t) == WithTimestamp(sorted, t) + TieOf(o, t)
  {
    InsertStep(o, sorted);
    WithTimestampCons(o, sorted, t);
    if o.timestamp == t {
      OlderHoldsNoTies(sorted, t);
    }
  }

  /** Putting the same order in front of two lists keeps their tie lists related. */
  lemma ConsKeepsTies(head: Order, rest: seq<Order>, tail: seq<Order>, tie: seq<Order>, t: int)
    requires WithTimestamp(rest, t) == WithTimestamp(tail, t) + tie
    ensures WithTimestamp([head] + rest, t) == WithTimestamp([head] + tail, t) + tie
  {
    WithTimestampCons(head, rest, t);
    WithTimestampCons(head, tail, t);
    var h := TieOf(head, t);
    assert h + (WithTimestamp(tail, t) + tie) == (h + WithTimestamp(tail, t)) + tie;
  }

  /** Inserting `o` puts it after every order that shares its timestamp. */
  lemma {:induction false} InsertKeepsTies(o: Order, sorted: seq<Order>, t: int)
    requires NewestFirst(sorted)
    ensures WithTimestamp(InsertNewestFirst(o, sorted), t) == WithTimestamp(sorted, t) + TieOf(o, t)
    decreases |sorted|
  {
    if sorted == [] {
      assert InsertNewestFirst(o, sorted) == [o] + [];
      WithTimestampCons(o, [], t);
    } else if sorted[0].timestamp >= o.timestamp {
      InsertStep(o, sorted);
      InsertKeepsTies(o, sorted[1..], t);
      ConsKeepsTies(sorted[0], InsertNewestFirst(o, sorted[1..]), sorted[1..], TieOf(o, t), t);
      assert sorted == [sorted[0]] + sorted[1..];
    } else {
      InsertAheadKeepsTies(o, sorted, t);
    }
  }

  /** The sort is stable: for every timestamp, the orders carrying it come out in the order
      they went in. */
  lemma {:induction false} SortNewestFirstStable(os: seq<Order>, t: int)
    ensures WithTimestamp(SortNewestFirst(os), t) == WithTimestamp(os, t)
    decreases |os|
  {
    if os != [] {
      var init, last := os[..|os| - 1], os[|os| - 1];
      assert os == init + [last];
      SortNewestFirstStable(init, t);
      InsertKeepsTies(last, SortNewestFirst(init), t);
      WithTimestampAppend(init, [last], t);
      WithTimestampCons(last, [], t);
      assert [last] + [] == [last];
    }
  }

  // ---- Looking users up by email (`find(u => u.email === email)`) ----

  /** The first user in `us` with the given email. */
  function FindByEmail(us: seq<User>, email: string): (r: Option<User>)
    ensures r.Some? ==> r.value.email == email && r.value in us
    ensures r.None? <==> forall i :: 0 <= i < |us| ==> us[i].email != email
    ensures r.Some? ==> exists i :: 0 <= i < |us| && us[i] == r.value &&
                                    (forall j :: 0 <= j < i ==> us[j].email != email)
    decreases |us|
  {
    if us == [] then None
    else if us[0].email == email then Some(us[0])
    else
      var r := FindByEmail(us[1..], email);
      assert forall i :: 1 <= i < |us| ==> us[i] == us[1..][i - 1];
      r
  }

  // ---- Seed data ----

  const DemoPassword := "password123"

  const DemoUsers: seq<User> := [
    User("u_demo", "demo@ardine.com", "Gourmet Garden", None, None),
    User("g_123", "google@user.com", "Demo Gourmet", None, None)]

  function DemoConfig(u: UserId): RestaurantConfig {
    RestaurantConfig(u, if u == "u_demo" then "Gourmet Garden AR" else "Bistro Digitale", 12)
  }

  // The texts of the seeded dishes.
  const PizzaName := "Truffle Mushroom Pizza"
  const PizzaDescription := "Artisanal sourdough topped with wild truffles, creamy mozzarella, and fresh arugula."
  const PizzaImage := "https://images.unsplash.com/photo-1513104890138-7c749659a591?w=800&q=80"
  const BurgerName := "Wagyu Secret Burger"
  const BurgerDescription := "Premium A5 Wagyu beef, caramelized onions, melted aged cheddar, and house-made truffle aioli."
  const BurgerImage := "https://images.unsplash.com/photo-1568901346375-23c9450c58cd?w=800&q=80"
  const SalmonName := "Miso Glazed Salmon"
  const SalmonDescription := "Atlantic salmon fillet glazed with honey-miso, served over a bed of roasted asparagus."
  const SalmonImage := "https://images.unsplash.com/photo-1467003909585-2f8a72700288?w=800&q=80"
  const DemoModelUrl := "https://modelviewer.dev/shared-assets/models/Astronaut.glb"

  /** The three dishes seeded for user `u`. */
  function DemoDishes(u: UserId): seq<Dish> {
    [
      Dish("d1_" + u, u, PizzaName, PizzaDescription, 18.99, "Mains", [PizzaImage],
        "12 inch", true, Some(DemoModelUrl), ModelReady, 100, None),
      Dish("d2_" + u, u, BurgerName, BurgerDescription, 24.50, "Burgers", [BurgerImage],
        "Regular", true, Some(DemoModelUrl), ModelReady, 100, None),
      Dish("d3_" + u, u, SalmonName, SalmonDescription, 21.00, "Seafood", [SalmonImage],
        "250g", false, None, ModelGenerating, 45, None)
    ]
  }

  /** The one seeded order of each demo user, placed ten minutes before `now`. */
  function DemoOrder(u: UserId, now: int): Order {
    var ds := DemoDishes(u);
    Order("#ORD-7721", u, 4, [OrderItem(ds[0], 1), OrderItem(ds[1], 1)], Preparing, 45.66,
      now - 600000, Card, Paid, None, None, None)
  }

  /** The credentials after seeding `us`. */
  function SeedCredentials(us: seq<User>): map<string, string>
    decreases |us|
  {
    if us == [] then map[] else SeedCredentials(us[..|us| - 1])[us[|us| - 1].email := DemoPassword]
  }

  /** The configurations after seeding `us`. */
  function SeedConfigs(us: seq<User>): map<UserId, RestaurantConfig>
    decreases |us|
  {
    if us == [] then map[]
    else SeedConfigs(us[..|us| - 1])[us[|us| - 1].id := DemoConfig(us[|us| - 1].id)]
  }

  /** The dish tables after seeding `us`. */
  function SeedDishes(us: seq<User>): map<UserId, OMap<DishId, Dish>>
    decreases |us|
  {
    if us == [] then map[]
    else SeedDishes(us[..|us| - 1])[us[|us| - 1].id := FromSeq(DemoDishes(us[|us| - 1].id), DishKey)]
  }

  /** The table holding just one order. */
  function SingleOrderTable(o: Order): (t: OMap<OrderId, Order>)
    ensures OrderTableValid(o.userId, t)
  {
    Empty().Set(o.id, o)
  }

  /** The order tables after seeding `us`. */
  function SeedOrders(us: seq<User>, now: int): map<UserId, OMap<OrderId, Order>>
    decreases |us|
  {
    if us == [] then map[]
    else SeedOrders(us[..|us| - 1], now)[us[|us| - 1].id := SingleOrderTable(DemoOrder(us[|us| - 1].id, now))]
  }

  class PostgresClient {
    var users: OMap<UserId, User>
    var credentials: map<string, string>
    var dishes: map<UserId, OMap<DishId, Dish>>
    var orders: map<UserId, OMap<OrderId, Order>>
    var configs: map<UserId, RestaurantConfig>

    ghost predicate Valid()
      reads this
    {
      && users.Valid()
      && DishTablesValid(dishes)
      && OrderTablesValid(orders)
    }

    /** The private constructor with `seedDemoData`; `now` is `Date.now()`. */
    constructor (now: int)
      ensures Valid()
      ensures users == FromSeq(DemoUsers, UserKey)
      ensures credentials == SeedCredentials(DemoUsers)
      ensures configs == SeedConfigs(DemoUsers)
      ensures dishes == SeedDishes(DemoUsers)
      ensures orders == SeedOrders(DemoUsers, now)
    {
      users, credentials, dishes, orders, configs := Empty(), map[], map[], map[], map[];
      new;
      SeedDemoData(DemoUsers, now);
      SeededTablesValid(DemoUsers, now);
    }

    /** `seedDemoData`: the seeding `forEach` over the demo users, from empty tables. */
    method SeedDemoData(demoUsers: seq<User>, now: int)
      requires users == Empty() && credentials == map[] && configs == map[]
      requires dishes == map[] && orders == map[]
      modifies this
      ensures users == FromSeq(demoUsers, UserKey)
      ensures credentials == SeedCredentials(demoUsers)
      ensures configs == SeedConfigs(demoUsers)
      ensures dishes == SeedDishes(demoUsers)
      ensures orders == SeedOrders(demoUsers, now)
    {
      for i := 0 to |demoUsers|
        invariant users == FromSeq(demoUsers[..i], UserKey)
        invariant credentials == SeedCredentials(demoUsers[..i])
        invariant configs == SeedConfigs(demoUsers[..i])
        invariant dishes == SeedDishes(demoUsers[..i])
        invariant orders == SeedOrders(demoUsers[..i], now)
      {
        assert demoUsers[..i + 1][..i] == demoUsers[..i];
        SeedUser(demoUsers[i], DemoDishes(demoUsers[i].id), DemoOrder(demoUsers[i].id, now));
      }
      assert demoUsers[..|demoUsers|] == demoUsers;
    }

    /** One step of the seeding `forEach`: the user, the demo password under the user's
        email, the configuration, three dishes and one order. */
    method SeedUser(user: User, ds: seq<Dish>, o: Order)
      requires users.Valid()
      modifies this
      ensures users == old(users).Set(user.id, user)
      ensures credentials == old(credentials)[user.email := DemoPassword]
      ensures configs == old(configs)[user.id := DemoConfig(user.id)]
      ensures dishes == old(dishes)[user.id := FromSeq(ds, DishKey)]
      ensures orders == old(orders)[user.id := SingleOrderTable(o)]
    {
      users := users.Set(user.id, user);
      credentials := credentials[user.email := DemoPassword];
      configs := configs[user.id := DemoConfig(user.id)];
      SeedTables(user.id, ds, o);
    }

    /** The dish and order tables of one seeded user. */
    method SeedTables(u: UserId, ds: seq<Dish>, o: Order)
      modifies this
      ensures dishes == old(dishes)[u := FromSeq(ds, DishKey)]
      ensures orders == old(orders)[u := SingleOrderTable(o)]
      ensures users == old(users) && credentials == old(credentials) && configs == old(configs)
    {
      var userDishes := TableFromDishes(ds);
      dishes := dishes[u := userDishes];
      orders := orders[u := SingleOrderTable(o)];
    }

    /** `queryDishes`: the user's dishes in insertion order, none for an unknown user. */
    method QueryDishes(userId: UserId) returns (r: seq<Dish>)
      requires Valid()
      ensures userId !in dishes ==> r == []
      ensures userId in dishes ==>
        && |r| == |dishes[userId].keys|
        && (forall i :: 0 <= i < |r| ==> r[i] == dishes[userId].entries[dishes[userId].keys[i]])
    {
      r := if userId in dishes then dishes[userId].Values() else [];
    }

    /** `insertDish`: stores the dish under its owner and id, replacing one with that id. */
    method InsertDish(dish: Dish) returns (r: Dish)
      requires Valid()
      modifies this
      ensures Valid() && r == dish
      ensures dishes == WithDish(old(dishes), dish)
      ensures users == old(users) && credentials == old(credentials)
      ensures orders == old(orders) && configs == old(configs)
    {
      // The owner's table, created empty when the owner has none yet.
      var table := if dish.userId in dishes then dishes[dish.userId] else Empty();
      dishes := dishes[dish.userId := table.Set(dish.id, dish)];
      r := dish;
    }

    /** `updateDishStatus`: applies the update to the stored dish; nothing happens when the
        user or the dish is absent. */
    method UpdateDishStatus(userId: UserId, dishId: DishId, updates: DishUpdate)
      requires Valid()
      modifies this
      ensures Valid()
      ensures dishes == if userId in old(dishes)
        then old(dishes)[userId := WithDishUpdates(old(dishes)[userId], dishId, updates)]
        else old(dishes)
      ensures users == old(users) && credentials == old(credentials)
      ensures orders == old(orders) && configs == old(configs)
    {
      if userId in dishes && dishId in dishes[userId].entries {
        var dish := dishes[userId].entries[dishId];
        dishes := dishes[userId := dishes[userId].Set(dishId, ApplyUpdates(dish, updates))];
      }
    }

    /** `createUser`; `now` is `Date.now()`, which names the new user. */
    method CreateUser(email: string, name: string, pass: string, now: nat) returns (user: User)
      requires Valid()
      modifies this
      ensures Valid()
      ensures user == User("u_" + NatToDecimal(now), email, name, None, None)
      ensures users == old(users).Set(user.id, user)
      ensures credentials == old(credentials)[email := pass]
      ensures dishes == old(dishes) && orders == old(orders) && configs == old(configs)
    {
      user := User("u_" + NatToDecimal(now), email, name, None, None);
      users := users.Set(user.id, user);
      credentials := credentials[email := pass];
    }

    /** `validateUser`: the first stored user with this email, provided the password is the
        one stored for the email; `None` otherwise. */
    method ValidateUser(email: string, pass: string) returns (r: Option<User>)
      requires Valid()
      ensures email !in credentials ==> r == None
      ensures email in credentials && credentials[email] != pass ==> r == None
      ensures email in credentials && credentials[email] == pass ==>
        r == FindByEmail(users.Values(), email)
      ensures r.Some? ==> r.value.email == email && r.value in users.Values()
    {
      if email in credentials && credentials[email] == pass {
        r := FindByEmail(users.Values(), email);
      } else {
        r := None;
      }
    }

    /** `queryOrders`: the user's orders, newest first; none for an unknown user. */
    method QueryOrders(userId: UserId) returns (r: seq<Order>)
      requires Valid()
      ensures userId !in orders ==> r == []
      ensures NewestFirst(r)
      ensures userId in orders ==> multiset(r) == multiset(orders[userId].Values())
      ensures r == SortNewestFirst(TableOf(orders, userId).Values())
    {
      r := if userId in orders then SortNewestFirst(orders[userId].Values()) else [];
    }

    /** `insertOrder`: stores the order under its owner and id, replacing one with that id. */
    method InsertOrder(order: Order) returns (r: Order)
      requires Valid()
      modifies this
      ensures Valid() && r == order
      ensures orders == WithOrder(old(orders), order)
      ensures users == old(users) && credentials == old(credentials)
      ensures dishes == old(dishes) && configs == old(configs)
    {
      WithOrderKeepsTablesValid(orders, order);
      // The owner's table, created empty when the owner has none yet.
      var table := if order.userId in orders then orders[order.userId] else Empty();
      orders := orders[order.userId := table.Set(order.id, order)];
      r := order;
    }

    /** `updateOrderStatus`: overwrites the stored order's status, whatever it was; nothing
        happens when the user or the order is absent. */
    method UpdateOrderStatus(userId: UserId, orderId: OrderId, status: OrderStatus)
      requires Valid()
      modifies this
      ensures Valid()
      ensures orders == if userId in old(orders)
        then old(orders)[userId := WithStatus(old(orders)[userId], orderId, status)]
        else old(orders)
      ensures users == old(users) && credentials == old(credentials)
      ensures dishes == old(dishes) && configs == old(configs)
    {
      if userId in orders && orderId in orders[userId].entries {
        var order := orders[userId].entries[orderId];
        orders := orders[userId := orders[userId].Set(orderId, order.(status := status))];
      }
    }

    /** `saveConfig`: the configuration replaces the user's previous one. */
    method SaveConfig(config: RestaurantConfig) returns (r: RestaurantConfig)
      requires Valid()
      modifies this
      ensures Valid() && r == config
      ensures configs == old(configs)[config.userId := config]
      ensures users == old(users) && credentials == old(credentials)
      ensures dishes == old(dishes) && orders == old(orders)
    {
      configs := configs[config.userId := config];
      r := config;
    }

    /** `getConfig`: the user's configuration, `None` when there is none. */
    method GetConfig(userId: UserId) returns (r: Option<RestaurantConfig>)
      ensures userId in configs ==> r == Some(configs[userId])
      ensures userId !in configs ==> r == None
    {
      r := if userId in configs then Some(configs[userId]) else None;
    }
  }

  /** Seeding leaves every dish and order table well formed. */
  lemma {:induction false} SeededTablesValid(us: seq<User>, now: int)
    ensures DishTablesValid(SeedDishes(us))
    ensures OrderTablesValid(SeedOrders(us, now))
    decreases |us|
  {
    if us != [] {
      SeededTablesValid(us[..|us| - 1], now);
      assert DemoOrder(us[|us| - 1].id, now).userId == us[|us| - 1].id;
    }
  }

  /** The `forEach` that fills a user's dish table. */
  method TableFromDishes(ds: seq<Dish>) returns (t: OMap<DishId, Dish>)
    ensures t.Valid()
    ensures t == FromSeq(ds, DishKey)
  {
    t := Empty();
    for i := 0 to |ds|
      invariant t.Valid()
      invariant t == FromSeq(ds[..i], DishKey)
    {
      assert ds[..i + 1][..i] == ds[..i];
      t := t.Set(ds[i].id, ds[i]);
    }
    assert ds[..|ds|] == ds;
  }

  // ---- What the store's operations promise ----

  /** After `insertOrder(o)` the owner's listing holds `o` and no other order under its id,
      and every other user's table is unchanged. */
  lemma InsertedOrderListed(m: map<UserId, OMap<OrderId, Order>>, o: Order, other: UserId)
    requires TableOf(m, o.userId).Valid()
    ensures o in SortNewestFirst(TableOf(WithOrder(m, o), o.userId).Values())
    ensures TableOf(WithOrder(m, o), o.userId).entries[o.id] == o
    ensures other != o.userId ==> TableOf(WithOrder(m, o), other) == TableOf(m, other)
  {
    var t := TableOf(WithOrder(m, o), o.userId);
    ValueListed(t, o.id);
    assert multiset(SortNewestFirst(t.Values())) == multiset(t.Values());
    assert o in multiset(t.Values());
  }

  /** Inserting an order whose id is already present replaces it: the listing keeps its
      length. Inserting a new id appends to the table. */
  lemma InsertOrderReplacesById(m: map<UserId, OMap<OrderId, Order>>, o: Order)
    requires TableOf(m, o.userId).Valid()
    ensures var before := TableOf(m, o.userId);
      var after := TableOf(WithOrder(m, o), o.userId);
      && (o.id in before.entries ==> |after.Values()| == |before.Values()|)
      && (o.id !in before.entries ==> after.Values() == before.Values() + [o])
  {
    var before := TableOf(m, o.userId);
    if o.id in before.entries {
      SetPresentKeyReplaces(before, o.id, o);
    } else {
      SetNewKeyAppends(before, o.id, o);
    }
  }

  /** A user without a table has no dishes and no orders. */
  lemma UnknownUserHasNothing<V>(m: map<UserId, OMap<string, V>>, u: UserId)
    requires u !in m
    ensures TableOf(m, u).Values() == []
  {
  }

  /** A status update changes the `status` field of the named order and nothing else; it
      leaves the table as it was when the order is absent. */
  lemma StatusUpdateTouchesOnlyStatus(t: OMap<OrderId, Order>, id: OrderId, s: OrderStatus, k: OrderId)
    requires t.Valid()
    ensures WithStatus(t, id, s).keys == t.keys
    ensures id !in t.entries ==> WithStatus(t, id, s) == t
    ensures id in t.entries ==> WithStatus(t, id, s).entries[id] == t.entries[id].(status := s)
    ensures k != id ==> WithStatus(t, id, s).Get(k) == t.Get(k)
  {
  }

  /** Any status may replace any other: the table is not consulted. In particular a
      `served` order can be put back to `received`. */
  lemma StatusUpdateIgnoresTransitionTable(t: OMap<OrderId, Order>, id: OrderId, s: OrderStatus)
    requires t.Valid() && id in t.entries
    ensures WithStatus(t, id, s).entries[id].status == s
    ensures !CanTransition(Served, Received)
  {
  }

  /** A status update keeps the owner's table well formed. */
  lemma StatusUpdateKeepsTableValid(u: UserId, t: OMap<OrderId, Order>, id: OrderId, s: OrderStatus)
    requires OrderTableValid(u, t)
    ensures OrderTableValid(u, WithStatus(t, id, s))
  {
  }

  /** A dish update applies the partial record to the named dish only; it leaves the
      table as it was when the dish is absent. */
  lemma DishUpdateTouchesOnlyThatDish(t: OMap<DishId, Dish>, id: DishId, u: DishUpdate, k: DishId)
    requires t.Valid()
    ensures WithDishUpdates(t, id, u).keys == t.keys
    ensures id !in t.entries ==> WithDishUpdates(t, id, u) == t
    ensures id in t.entries ==> WithDishUpdates(t, id, u).entries[id] == ApplyUpdates(t.entries[id], u)
    ensures k != id ==> WithDishUpdates(t, id, u).Get(k) == t.Get(k)
  {
  }

  /** The seeded users are listed in seeding order. */
  lemma SeededUsers()
    ensures FromSeq(DemoUsers, UserKey).Values() == DemoUsers
  {
    FromDistinctSeqValues(DemoUsers, UserKey);
  }

  /** The demo order is `#ORD-7721`, owned by the user it is seeded for, in status `preparing`. */
  lemma DemoOrderIsPreparing(u: UserId, now: int)
    ensures DemoOrder(u, now).id == "#ORD-7721" && DemoOrder(u, now).userId == u
    ensures DemoOrder(u, now).status == Preparing
    ensures SingleOrderTable(DemoOrder(u, now)).entries == map["#ORD-7721" := DemoOrder(u, now)]
  {
  }

  /** Exactly the seeded users get an order table. */
  lemma {:induction false} SeededOrderOwners(us: seq<User>, now: int, u: UserId)
    ensures u in SeedOrders(us, now) <==> exists i :: 0 <= i < |us| && us[i].id == u
    decreases |us|
  {
    if us != [] {
      var init := us[..|us| - 1];
      SeededOrderOwners(init, now, u);
      assert forall i :: 0 <= i < |init| ==> init[i] == us[i];
    }
  }

  /** Each seeded user's table holds just that user's demo order. */
  lemma {:induction false} SeededOrderTables(us: seq<User>, now: int, u: UserId)
    requires u in SeedOrders(us, now)
    ensures SeedOrders(us, now)[u] == SingleOrderTable(DemoOrder(u, now))
    decreases |us|
  {
    var init := us[..|us| - 1];
    if u != us[|us| - 1].id {
      SeededOrderTables(init, now, u);
    }
  }

  /** The demo user's seeded table holds `#ORD-7721` in status `preparing`. */
  lemma SeededDemoOrder(now: int)
    ensures "u_demo" in SeedOrders(DemoUsers, now)
    ensures SeedOrders(DemoUsers, now)["u_demo"] == SingleOrderTable(DemoOrder("u_demo", now))
    ensures "#ORD-7721" in SeedOrders(DemoUsers, now)["u_demo"].entries
    ensures SeedOrders(DemoUsers, now)["u_demo"].entries["#ORD-7721"].status == Preparing
  {
    var u: UserId := "u_demo";
    SeededOrderOwners(DemoUsers, now, u);
    assert DemoUsers[0].id == u;
    SeededOrderTables(DemoUsers, now, u);
    DemoOrderIsPreparing(u, now);
  }
}
