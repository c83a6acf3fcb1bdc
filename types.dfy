/** The shared entity types of the restaurant platform and the order-status transition table. */
module Types {
  import opened Wrappers

  type UserId = string
  type DishId = string
  type OrderId = string

  datatype ModelGenerationStatus = ModelPending | ModelGenerating | ModelReady | ModelFailed

  datatype User = User(id: UserId, email: string, name: string, avatar: Option<string>, googleId: Option<string>)

  datatype Dish = Dish(
    id: DishId,
    userId: UserId,
    name: string,
    description: string,
    price: real,
    category: string,
    images: seq<string>,
    portionSize: string,
    isARReady: bool,
    arModelUrl: Option<string>,
    modelGenerationStatus: ModelGenerationStatus,
    generationProgress: int,
    geometricPrompt: Option<string>)

  datatype OrderItem = OrderItem(dish: Dish, quantity: int)

  datatype PaymentMethod = UPI | Card | Cash
  datatype PaymentStatus = Pending | Paid | Failed
  datatype OrderStatus = Received | Preparing | Ready | Served | Cancelled

  /** An order. `customerName` and `customerPhone` are `None` when the code that built the
      order never set them (the order constructor does not). */
  datatype Order = Order(
    id: OrderId,
    userId: UserId,
    tableNumber: int,
    items: seq<OrderItem>,
    status: OrderStatus,
    total: real,
    timestamp: int,
    paymentMethod: PaymentMethod,
    paymentStatus: PaymentStatus,
    customerName: Option<string>,
    customerPhone: Option<string>,
    stripePaymentIntentId: Option<string>)

  datatype RestaurantConfig = RestaurantConfig(userId: UserId, name: string, tables: int)

  datatype AuthTokenPayload = AuthTokenPayload(userId: UserId, email: string)

  /** The `ORDER_STATUS_TRANSITIONS` record: the successors each status lists. Nothing in the
      order controller or the store consults it. */
  function Transitions(s: OrderStatus): seq<OrderStatus> {
    match s
    case Received => [Preparing, Cancelled]
    case Preparing => [Ready, Cancelled]
    case Ready => [Served, Cancelled]
    case Served => []
    case Cancelled => []
  }

  predicate CanTransition(from: OrderStatus, to: OrderStatus) {
    to in Transitions(from)
  }

  predicate IsTerminal(s: OrderStatus) {
    Transitions(s) == []
  }

  /** How far along the fulfilment line a status is; every allowed step increases it. */
  function Stage(s: OrderStatus): nat {
    match s
    case Received => 0
    case Preparing => 1
    case Ready => 2
    case Served => 3
    case Cancelled => 3
  }

  lemma ReceivedSuccessors(t: OrderStatus)
    ensures CanTransition(Received, t) <==> t == Preparing || t == Cancelled
  {
  }

  lemma PreparingSuccessors(t: OrderStatus)
    ensures CanTransition(Preparing, t) <==> t == Ready || t == Cancelled
  {
  }

  lemma ReadySuccessors(t: OrderStatus)
    ensures CanTransition(Ready, t) <==> t == Served || t == Cancelled
  {
  }

  /** Exactly `served` and `cancelled` are terminal. */
  lemma TerminalStates(s: OrderStatus)
    ensures IsTerminal(s) <==> s == Served || s == Cancelled
    ensures IsTerminal(s) ==> forall t :: !CanTransition(s, t)
  {
  }

  /** Every status that is not terminal can be cancelled in one step. */
  lemma CancellableUntilTerminal(s: OrderStatus)
    ensures !IsTerminal(s) <==> CanTransition(s, Cancelled)
  {
  }

  /** No status lists itself or `received` as a successor, and each step moves forward. */
  lemma StepAdvances(s: OrderStatus, t: OrderStatus)
    requires CanTransition(s, t)
    ensures s != t && t != Received
    ensures Stage(s) < Stage(t)
  {
  }

  /** A walk through the table: every consecutive pair is an allowed transition. */
  ghost predicate IsPath(p: seq<OrderStatus>) {
    forall i :: 0 <= i < |p| - 1 ==> CanTransition(p[i], p[i + 1])
  }

  /** Along a path the stage grows by at least one per step. */
  lemma {:induction false} PathAdvances(p: seq<OrderStatus>)
    requires |p| >= 1 && IsPath(p)
    ensures Stage(p[|p| - 1]) >= Stage(p[0]) + |p| - 1
    decreases |p|
  {
    if |p| > 1 {
      var q := p[..|p| - 1];
      assert IsPath(q) by {
        forall i | 0 <= i < |q| - 1 ensures CanTransition(q[i], q[i + 1]) {
          assert q[i] == p[i] && q[i + 1] == p[i + 1];
        }
      }
      PathAdvances(q);
      StepAdvances(p[|p| - 2], p[|p| - 1]);
    }
  }

  /** The graph is acyclic and every path takes at most three steps. */
  lemma PathsAreShortAndAcyclic(p: seq<OrderStatus>)
    requires |p| >= 1 && IsPath(p)
    ensures |p| <= 4
    ensures |p| > 1 ==> p[0] != p[|p| - 1]
  {
    PathAdvances(p);
  }

  /** The longest path goes from `received` to `served`. */
  lemma LongestPath()
    ensures IsPath([Received, Preparing, Ready, Served])
  {
  }
}
