/** Checkout and the order store: an order is a snapshot of the user's cart,
    persisted, after which the cart is emptied and a confirmation e-mail is
    sent; the read paths return orders with the nested user and menu reviews
    removed. Amounts are integers in minor currency units. */
module Orders {
  import opened Common
  import opened JavaStrings
  import opened Carts
  import opened External

  datatype OrderStatus = INITIALIZED | CONFIRMED | ON_THE_WAY | DELIVERED | CANCELLED

  datatype PaymentStatus = PENDING | COMPLETED | FAILED

  /** An order item: the menu ordered, how many, and the subtotal copied from
      the cart line. */
  datatype OrderLine = OrderLine(menuId: nat, quantity: nat, subtotal: int)

  datatype Order = Order(
    id: nat,
    userId: nat,
    lines: seq<OrderLine>,
    totalAmount: int,
    orderStatus: OrderStatus,
    paymentStatus: PaymentStatus,
    orderDate: int)

  /** The logged-in user as checkout sees it; the address may be null. */
  datatype Customer = Customer(id: nat, name: string, email: string, address: Option<string>)

  /** The variables the order-confirmation template is rendered with. */
  datatype ConfirmationContext = ConfirmationContext(
    customerName: string,
    orderId: nat,
    totalAmount: int,
    lines: seq<OrderLine>,
    paymentLink: string)

  // ---------------------------------------------------------------------------
  // The snapshot of a cart

  /** One order line per cart line, with menu, quantity and subtotal copied. */
  function Snapshot(lines: seq<CartLine>): (r: seq<OrderLine>)
    ensures |r| == |lines|
  {
    seq(|lines|, i requires 0 <= i < |lines| => OrderLine(lines[i].menuId, lines[i].quantity, lines[i].subtotal))
  }

  /** The sum of the line subtotals. */
  function LinesTotal(lines: seq<OrderLine>): int {
    if lines == [] then 0 else lines[0].subtotal + LinesTotal(lines[1..])
  }

  /** The snapshot orders exactly what the cart held, line by line, and its
      total is the cart's total, hence price times quantity summed over the
      cart. */
  lemma {:induction false} SnapshotSpec(lines: seq<CartLine>, prices: map<nat, int>)
    requires Priced(lines, prices)
    ensures forall i :: 0 <= i < |lines| ==>
      Snapshot(lines)[i].menuId == lines[i].menuId && Snapshot(lines)[i].quantity == lines[i].quantity
    ensures LinesTotal(Snapshot(lines)) == Total(lines) == PriceTotal(lines, prices)
  {
    TotalIsPriceTotal(lines, prices);
    if lines != [] {
      assert Snapshot(lines)[1..] == Snapshot(lines[1..]);
      SnapshotSpec(lines[1..], prices);
    }
  }

  /** A cart that may be checked out (one line at least, positive prices)
      yields an order of positive total, so the zero-total guard of payment
      initialisation never rejects an order made at checkout. */
  lemma CheckoutTotalPositive(lines: seq<CartLine>, prices: map<nat, int>)
    requires Priced(lines, prices) && PositivePrices(prices) && lines != []
    ensures LinesTotal(Snapshot(lines)) >= |lines| > 0
  {
    SnapshotSpec(lines, prices);
    TotalAtLeastLines(lines, prices);
  }

  /** The order placeOrderFromCart builds: statuses INITIALIZED and PENDING. */
  function NewOrder(id: nat, userId: nat, lines: seq<CartLine>, now: int): Order {
    var snapshot := Snapshot(lines);
    Order(id, userId, snapshot, LinesTotal(snapshot), INITIALIZED, PENDING, now)
  }

  // ---------------------------------------------------------------------------
  // The confirmation e-mail

  /** The payment link: the configured base followed by the order id. */
  function PaymentLink(base: string, orderId: nat): string {
    base + NatToString(orderId)
  }

  lemma PaymentLinkSpec(base: string, orderId: nat)
    ensures StartsWith(PaymentLink(base, orderId), base)
    ensures Contains(PaymentLink(base, orderId), NatToString(orderId))
  {
    var link := PaymentLink(base, orderId);
    assert link[..|base|] == base;
    assert StartsWith(link[|base|..], NatToString(orderId)) by {
      assert link[|base|..] == NatToString(orderId);
    }
  }

  /** The subject of the confirmation e-mail. */
  function ConfirmationSubject(orderId: nat): string {
    "Your Order Confirmation - Order #" + NatToString(orderId)
  }

  /** The subject names the order as "Order #<id>". */
  lemma SubjectNamesOrder(orderId: nat)
    ensures Contains(ConfirmationSubject(orderId), "Order #" + NatToString(orderId))
  {
    var s := ConfirmationSubject(orderId);
    var prefix := "Your Order Confirmation - ";
    assert s == prefix + ("Order #" + NatToString(orderId));
    assert s[|prefix|..] == "Order #" + NatToString(orderId);
  }

  /** The e-mail sent for a placed order: to the customer's address, the body
      rendered from the order-confirmation template. */
  function Confirmation(customer: Customer, order: Order, base: string, render: ConfirmationContext -> string): Notification {
    var context := ConfirmationContext(customer.name, order.id, order.totalAmount, order.lines, PaymentLink(base, order.id));
    Notification(customer.email, ConfirmationSubject(order.id), render(context))
  }

  // ---------------------------------------------------------------------------
  // Read views

  /** A menu inside an order response; reviews are review ids, null once removed. */
  datatype MenuView = MenuView(id: nat, reviews: Option<seq<nat>>)

  /** An order item inside a response; its menu may be null. */
  datatype LineView = LineView(menu: Option<MenuView>, quantity: nat, subtotal: int)

  /** An order response; the owning user is null once removed. */
  datatype OrderView = OrderView(
    id: nat,
    user: Option<nat>,
    lines: seq<LineView>,
    totalAmount: int,
    orderStatus: OrderStatus,
    paymentStatus: PaymentStatus)

  /** The mapping of a stored order to its response, menus carrying their
      reviews (`reviews` maps a menu id to the ids of its reviews). */
  function ToView(o: Order, reviews: map<nat, seq<nat>>): OrderView {
    OrderView(
      o.id, Some(o.userId),
      seq(|o.lines|, i requires 0 <= i < |o.lines| =>
        var m := o.lines[i].menuId;
        LineView(Some(MenuView(m, Some(if m in reviews then reviews[m] else []))), o.lines[i].quantity, o.lines[i].subtotal)),
      o.totalAmount, o.orderStatus, o.paymentStatus)
  }

  predicate HasMenus(lines: seq<LineView>) {
    forall i :: 0 <= i < |lines| ==> lines[i].menu.Some?
  }

  /** A line with its menu's reviews removed. */
  function LineTrimmed(l: LineView): LineView
    requires l.menu.Some?
  {
    l.(menu := Some(l.menu.value.(reviews := None)))
  }

  /** An order response after the read path has nulled the menu reviews of
      every item and, when asked, the owning user. */
  function Trimmed(v: OrderView, dropUser: bool): OrderView
    requires HasMenus(v.lines)
  {
    v.(user := if dropUser then None else v.user,
       lines := seq(|v.lines|, i requires 0 <= i < |v.lines| => LineTrimmed(v.lines[i])))
  }

  /** No nested menu carries reviews. */
  predicate NoReviews(v: OrderView) {
    forall i :: 0 <= i < |v.lines| ==> v.lines[i].menu.Some? && v.lines[i].menu.value.reviews.None?
  }

  /** What trimming promises: no reviews are left, the user is gone exactly
      when asked, and the order, its items and their menus are otherwise the
      same; trimming twice is trimming once. */
  lemma TrimmedSpec(v: OrderView, dropUser: bool)
    requires HasMenus(v.lines)
    ensures NoReviews(Trimmed(v, dropUser))
    ensures Trimmed(v, dropUser).user == (if dropUser then None else v.user)
    ensures Trimmed(v, dropUser).(user := v.user, lines := v.lines) == v
    ensures |Trimmed(v, dropUser).lines| == |v.lines|
    ensures forall i :: 0 <= i < |v.lines| ==>
      var l, t := v.lines[i], Trimmed(v, dropUser).lines[i];
      t.quantity == l.quantity && t.subtotal == l.subtotal && t.menu.value.id == l.menu.value.id
    ensures Trimmed(Trimmed(v, dropUser), dropUser) == Trimmed(v, dropUser)
  {
  }

  /** The mapped view of a stored order has a menu on every item, so trimming
      it cannot fail. */
  lemma ToViewHasMenus(o: Order, reviews: map<nat, seq<nat>>)
    ensures HasMenus(ToView(o, reviews).lines)
  {
  }

  /** The forEach over an order's items that nulls each menu's reviews; an
      item without a menu ends it with a NullPointerException. */
  method TrimLines(lines: seq<LineView>) returns (r: Result<seq<LineView>>)
    ensures r.Ok? <==> HasMenus(lines)
    ensures r.Err? ==> r.error.Fault?
    ensures r.Ok? ==> |r.value| == |lines| && forall i :: 0 <= i < |lines| ==> r.value[i] == LineTrimmed(lines[i])
  {
    var out: seq<LineView> := [];
    var k := 0;
    while k < |lines|
      invariant 0 <= k <= |lines| && |out| == k
      invariant forall i :: 0 <= i < k ==> lines[i].menu.Some? && out[i] == LineTrimmed(lines[i])
    {
      if lines[k].menu.None? {
        return Err(Fault("NullPointerException"));
      }
      out := out + [LineTrimmed(lines[k])];
      k := k + 1;
    }
    r := Ok(out);
  }

  /** The loop of a read path over the mapped orders: each loses its menu
      reviews and, when `dropUser`, its user. */
  method TrimOrders(views: seq<OrderView>, dropUser: bool) returns (r: Result<seq<OrderView>>)
    ensures r.Ok? <==> forall i :: 0 <= i < |views| ==> HasMenus(views[i].lines)
    ensures r.Err? ==> r.error.Fault?
    ensures r.Ok? ==> |r.value| == |views| && forall i :: 0 <= i < |views| ==> r.value[i] == Trimmed(views[i], dropUser)
  {
    var out: seq<OrderView> := [];
    var k := 0;
    while k < |views|
      invariant 0 <= k <= |views| && |out| == k
      invariant forall i :: 0 <= i < k ==> HasMenus(views[i].lines) && out[i] == Trimmed(views[i], dropUser)
    {
      var v := views[k];
      var lines := TrimLines(v.lines);
      if lines.Err? {
        return Err(lines.error);
      }
      var t := v.(user := if dropUser then None else v.user, lines := lines.value);
      assert t == Trimmed(v, dropUser);
      out := out + [t];
      k := k + 1;
    }
    r := Ok(out);
  }

  // ---------------------------------------------------------------------------
  // The order store and the checkout service

  /** The order and order-item repositories. `items` holds the lines passed
      to saveAll for an order; every stored order's total is the sum of its
      lines, and an order with a higher id is dated no earlier, since ids and
      order dates are both issued as orders are placed. */
  class OrderRepository {
    var orders: map<nat, Order>
    var items: map<nat, seq<OrderLine>>
    var nextId: nat

    ghost predicate Valid()
      reads this
    {
      && (forall id :: id in orders ==> orders[id].id == id && id < nextId)
      && (forall id :: id in orders ==> orders[id].totalAmount == LinesTotal(orders[id].lines))
      && (forall id :: id in items ==> id in orders && items[id] == orders[id].lines)
      && (forall a, b :: a in orders && b in orders && a <= b ==> orders[a].orderDate <= orders[b].orderDate)
    }

    /** `now` is no earlier than the date of any stored order: the clock does
        not run backwards. */
    predicate NotBefore(now: int)
      reads this
    {
      forall id :: id in orders ==> orders[id].orderDate <= now
    }

    constructor ()
      ensures Valid() && orders == map[] && items == map[] && nextId == 0
    {
      orders := map[];
      items := map[];
      nextId := 0;
    }

    /** orderRepository.save of a new order, under the next id. */
    method SaveOrder(order: Order)
      requires Valid() && order.id == nextId && order.totalAmount == LinesTotal(order.lines)
      requires NotBefore(order.orderDate)
      modifies this
      ensures Valid()
      ensures orders == old(orders)[order.id := order] && items == old(items) && nextId == old(nextId) + 1
    {
      orders := orders[order.id := order];
      nextId := nextId + 1;
    }

    /** orderItemRepository.saveAll of a stored order's lines. */
    method SaveItems(id: nat)
      requires Valid() && id in orders
      modifies this
      ensures Valid()
      ensures orders == old(orders) && nextId == old(nextId) && items == old(items)[id := orders[id].lines]
    {
      items := items[id := orders[id].lines];
    }

    /** The ids of the orders of one user. */
    function OrdersOf(userId: nat): set<int>
      reads this
    {
      set id | id in orders && orders[id].userId == userId
    }

    /** The ids of the orders in a status, or of all orders. */
    function OrdersIn(status: Option<OrderStatus>): set<int>
      reads this
    {
      set id | id in orders && (status.None? || orders[id].orderStatus == status.value)
    }
  }

  /** The collaborator calls of placeOrderFromCart, in the order they happen. */
  datatype Step = SaveOrder | SaveItems | ClearCart | MapOrder | RenderTemplate | SendEmail

  function StepIndex(s: Step): nat {
    match s
    case SaveOrder => 0
    case SaveItems => 1
    case ClearCart => 2
    case MapOrder => 3
    case RenderTemplate => 4
    case SendEmail => 5
  }

  /** Whether step `s` completed when `fault` names the step that throws. */
  predicate Done(fault: Option<Step>, s: Step) {
    fault.None? || StepIndex(s) < StepIndex(fault.value)
  }

  /** The checks placeOrderFromCart makes before it changes anything, in order. */
  function CheckoutGuard(user: Option<Customer>, carts: map<nat, seq<CartLine>>): (e: Option<Error>)
    ensures e.None? <==> user.Some? && user.value.address.Some? && user.value.id in carts && carts[user.value.id] != []
    ensures user.None? ==> e == Some(NotFound("User not found"))
    ensures user.Some? && user.value.address.None? ==> e.Some? && e.value.NotFound?
    ensures user.Some? && user.value.address.Some? && user.value.id !in carts ==> e.Some? && e.value.NotFound?
    ensures user.Some? && user.value.address.Some? && user.value.id in carts && carts[user.value.id] == [] ==> e.Some? && e.value.BadRequest?
  {
    if user.None? then Some(NotFound("User not found"))
    else if user.value.address.None? then Some(NotFound("User address not found"))
    else if user.value.id !in carts then Some(NotFound("Cart not found"))
    else if carts[user.value.id] == [] then Some(BadRequest("Cart is empty"))
    else None
  }

  class OrderService {
    const repo: OrderRepository
    const cartService: CartService
    /** The configured prefix of payment links. */
    const basePaymentLink: string
    /** Every e-mail handed to the notification service, oldest first. */
    var outbox: seq<Notification>

    ghost predicate Valid()
      reads this, repo, cartService
    {
      repo.Valid() && cartService.Valid()
    }

    constructor (orders: OrderRepository, carts: CartService, base: string)
      requires orders.Valid() && carts.Valid()
      ensures repo == orders && cartService == carts && basePaymentLink == base && outbox == []
      ensures Valid()
    {
      repo := orders;
      cartService := carts;
      basePaymentLink := base;
      outbox := [];
    }

    /** placeOrderFromCart for the logged-in user (None when there is none).
        `now` is the order date, `render` the template engine, and `fault`
        the collaborator call that throws, if any: the calls before it have
        taken effect and none after it has. */
    method PlaceOrderFromCart(user: Option<Customer>, now: int, render: ConfirmationContext -> string, fault: Option<Step>)
      returns (r: Result<Order>)
      requires Valid() && repo.NotBefore(now)
      modifies this, repo, cartService`carts
      ensures Valid()
      ensures CheckoutGuard(user, old(cartService.carts)).Some? ==>
        && r == Err(CheckoutGuard(user, old(cartService.carts)).value)
        && repo.orders == old(repo.orders) && repo.items == old(repo.items) && repo.nextId == old(repo.nextId)
        && cartService.carts == old(cartService.carts) && outbox == old(outbox)
      ensures CheckoutGuard(user, old(cartService.carts)).None? ==>
        var u := user.value;
        var id := old(repo.nextId);
        var order := NewOrder(id, u.id, old(cartService.carts)[u.id], now);
        && (fault.None? ==> r == Ok(order))
        && (fault.Some? ==> r.Err? && r.error.Fault?)
        && repo.orders == (if Done(fault, SaveOrder) then old(repo.orders)[id := order] else old(repo.orders))
        && repo.nextId == (if Done(fault, SaveOrder) then id + 1 else id)
        && repo.items == (if Done(fault, SaveItems) then old(repo.items)[id := order.lines] else old(repo.items))
        && cartService.carts == (if Done(fault, ClearCart) then old(cartService.carts)[u.id := []] else old(cartService.carts))
        && outbox == (if fault.None? then old(outbox) + [Confirmation(u, order, basePaymentLink, render)] else old(outbox))
    {
      var guard := CheckoutGuard(user, cartService.carts);
      if guard.Some? {
        return Err(guard.value);
      }
      var u := user.value;
      var lines := cartService.carts[u.id];
      var id := repo.nextId;
      var order := NewOrder(id, u.id, lines, now);
      assert order == NewOrder(old(repo.nextId), u.id, old(cartService.carts)[u.id], now);

      if fault == Some(SaveOrder) {
        return Err(Fault("order save failed"));
      }
      repo.SaveOrder(order);

      if fault == Some(SaveItems) {
        return Err(Fault("order items save failed"));
      }
      repo.SaveItems(id);

      if fault == Some(ClearCart) {
        return Err(Fault("cart clear failed"));
      }
      var cleared := cartService.ClearShoppingCart(Some(u.id));

      if fault.Some? {
        // the order mapping, the template or the mail sender threw
        return Err(Fault("order confirmation failed"));
      }
      outbox := outbox + [Confirmation(u, order, basePaymentLink, render)];
      r := Ok(order);
    }

    /** getOrdersOfUser: the user's orders, newest order date first, each
        without its user and without the reviews of its menus. Orders of the
        same date come highest id first. */
    method GetOrdersOfUser(user: Option<Customer>, reviews: map<nat, seq<nat>>) returns (r: Result<seq<OrderView>>)
      requires repo.Valid()
      ensures r.Ok? <==> user.Some?
      ensures r.Err? ==> r.error == NotFound("User not found")
      ensures r.Ok? ==> |r.value| == |repo.OrdersOf(user.value.id)|
      ensures r.Ok? ==> forall i, j :: 0 <= i < j < |r.value| ==> r.value[i].id > r.value[j].id
      ensures r.Ok? ==> forall i, j :: 0 <= i < j < |r.value| ==>
        r.value[i].id in repo.orders && r.value[j].id in repo.orders &&
        repo.orders[r.value[i].id].orderDate >= repo.orders[r.value[j].id].orderDate
      ensures r.Ok? ==> forall id :: id in repo.OrdersOf(user.value.id) <==> exists i :: 0 <= i < |r.value| && r.value[i].id == id
      ensures r.Ok? ==> forall i :: 0 <= i < |r.value| ==>
        r.value[i].id in repo.orders && r.value[i] == Trimmed(ToView(repo.orders[r.value[i].id], reviews), true)
    {
      if user.None? {
        return Err(NotFound("User not found"));
      }
      var ids := KeysDescending(repo.OrdersOf(user.value.id));
      var views := MapOrders(ids, reviews);
      var trimmed := TrimOrders(views, true);
      assert trimmed.Ok?;
      r := trimmed;
      forall id | id in repo.OrdersOf(user.value.id) ensures exists i :: 0 <= i < |r.value| && r.value[i].id == id {
        var n :| 0 <= n < |ids| && ids[n] == id;
        assert r.value[n].id == id;
      }
    }

    /** getAllOrders: one page of the orders in the given status (all orders
        when it is null), newest first, each without the reviews of its menus;
        a negative page or a size below one is refused by PageRequest. */
    method GetAllOrders(status: Option<OrderStatus>, page: int, size: int, reviews: map<nat, seq<nat>>) returns (r: Result<seq<OrderView>>)
      requires repo.Valid()
      ensures r.Ok? <==> page >= 0 && size >= 1
      ensures r.Err? ==> r.error.Fault?
      ensures r.Ok? ==> |r.value| <= size
      ensures r.Ok? ==> forall i, j :: 0 <= i < j < |r.value| ==> r.value[i].id > r.value[j].id
      ensures r.Ok? ==> forall id ::
        (id in repo.OrdersIn(status) && page * size <= RankDesc(repo.OrdersIn(status), id) < page * size + size)
        <==> exists i :: 0 <= i < |r.value| && r.value[i].id == id
      ensures r.Ok? ==> forall i :: 0 <= i < |r.value| ==>
        r.value[i].id in repo.orders && r.value[i] == Trimmed(ToView(repo.orders[r.value[i].id], reviews), false)
    {
      if page < 0 || size < 1 {
        return Err(Fault("IllegalArgumentException"));
      }
      var ids := PageDescending(repo.OrdersIn(status), page, size);
      var views := MapOrders(ids, reviews);
      var trimmed := TrimOrders(views, false);
      assert trimmed.Ok?;
      r := trimmed;
      forall id ensures (id in repo.OrdersIn(status) && page * size <= RankDesc(repo.OrdersIn(status), id) < page * size + size)
        <==> exists i :: 0 <= i < |r.value| && r.value[i].id == id
      {
        if id in repo.OrdersIn(status) && page * size <= RankDesc(repo.OrdersIn(status), id) < page * size + size {
          var n :| 0 <= n < |ids| && ids[n] == id;
          assert r.value[n].id == id;
        }
        if exists i :: 0 <= i < |r.value| && r.value[i].id == id {
          var n :| 0 <= n < |r.value| && r.value[n].id == id;
          assert ids[n] in ids;
        }
      }
    }

    /** The mapped views of the stored orders with the given ids, in that order. */
    method MapOrders(ids: seq<int>, reviews: map<nat, seq<nat>>) returns (views: seq<OrderView>)
      requires repo.Valid()
      requires forall k :: k in ids ==> k >= 0 && k in repo.orders
      ensures |views| == |ids|
      ensures forall i :: 0 <= i < |ids| ==> ids[i] in repo.orders && views[i] == ToView(repo.orders[ids[i] as nat], reviews)
      ensures forall i :: 0 <= i < |ids| ==> views[i].id == ids[i] && HasMenus(views[i].lines)
    {
      views := [];
      var k := 0;
      while k < |ids|
        invariant 0 <= k <= |ids| && |views| == k
        invariant forall i :: 0 <= i < k ==> ids[i] in repo.orders && views[i] == ToView(repo.orders[ids[i] as nat], reviews)
        invariant forall i :: 0 <= i < k ==> views[i].id == ids[i] && HasMenus(views[i].lines)
      {
        assert ids[k] in ids;
        views := views + [ToView(repo.orders[ids[k] as nat], reviews)];
        k := k + 1;
      }
    }

    /** updateOrderStatus: the order must exist; its status is overwritten
        and it is saved. A failing save leaves the store as it was. */
    method UpdateOrderStatus(id: nat, status: OrderStatus, saveFails: bool) returns (r: Result<()>)
      requires repo.Valid()
      modifies repo`orders
      ensures repo.Valid()
      ensures id !in old(repo.orders) ==> r == Err(NotFound("Order not found")) && repo.orders == old(repo.orders)
      ensures id in old(repo.orders) && saveFails ==> r.Err? && r.error.Fault? && repo.orders == old(repo.orders)
      ensures id in old(repo.orders) && !saveFails ==>
        r.Ok? && repo.orders == old(repo.orders)[id := old(repo.orders)[id].(orderStatus := status)]
    {
      if id !in repo.orders {
        return Err(NotFound("Order not found"));
      }
      if saveFails {
        return Err(Fault("order save failed"));
      }
      repo.orders := repo.orders[id := repo.orders[id].(orderStatus := status)];
      r := Ok(());
    }
  }
}
