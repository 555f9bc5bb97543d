/** Payment of an order: the guard chain in front of the payment gateway, the
    settlement callback that moves the order to its final payment state and
    records the attempt, and the payment read paths. */
module Payments {
  import opened Common
  import opened Orders

  /** What the payment gateway answers when asked for a payment intent: its
      client secret, or an exception (a gateway error, a missing API key). */
  datatype GatewayReply = Secret(clientSecret: string) | GatewayFailed(message: string)

  // ---------------------------------------------------------------------------
  // initializePayment

  /** Whether every guard of initializePayment passes, so that the gateway is
      called: the order exists, is not already paid, a claimed amount is
      given, the order total is positive and the claim equals it. */
  predicate GatewayCalled(order: Option<Order>, amount: Option<int>) {
    && order.Some?
    && order.value.paymentStatus != COMPLETED
    && amount.Some?
    && order.value.totalAmount > 0
    && amount.value == order.value.totalAmount
  }

  /** initializePayment on the order found for the request's order id (None
      when there is none), the claimed amount, and the gateway's reply. */
  function InitializePayment(order: Option<Order>, amount: Option<int>, gateway: GatewayReply): (r: Result<string>)
    ensures order.None? ==> r == Err(NotFound("Order not found"))
    ensures order.Some? && order.value.paymentStatus == COMPLETED ==> r.Err? && r.error.BadRequest?
    ensures order.Some? && !GatewayCalled(order, amount) ==> r.Err? && r.error.BadRequest?
    ensures GatewayCalled(order, amount) ==> r == (match gateway
      case Secret(s) => Ok(s)
      case GatewayFailed(m) => Err(Fault(m)))
  {
    if order.None? then Err(NotFound("Order not found"))
    else if order.value.paymentStatus == COMPLETED then Err(BadRequest("Payment already completed for this order"))
    else if amount.None? then Err(BadRequest("Amount is required"))
    else if order.value.totalAmount <= 0 then Err(BadRequest("Order total must be greater than zero"))
    else if amount.value != order.value.totalAmount then Err(BadRequest("Payment amount does not tally. Please contact support"))
    else match gateway
      case Secret(s) => Ok(s)
      case GatewayFailed(m) => Err(Fault(m))
  }

  /** A secret is only ever handed out for the exact, positive total of an
      order that is not yet paid. */
  lemma InitializeOkSpec(order: Option<Order>, amount: Option<int>, gateway: GatewayReply)
    requires InitializePayment(order, amount, gateway).Ok?
    ensures order.Some? && order.value.paymentStatus != COMPLETED
    ensures amount == Some(order.value.totalAmount) && order.value.totalAmount > 0
    ensures gateway == Secret(InitializePayment(order, amount, gateway).value)
  {
  }

  // ---------------------------------------------------------------------------
  // Settlement

  /** The payment-gateway callback: the order, the outcome, and what the
      gateway reports, any of which but the order id may be null. */
  datatype Settlement = Settlement(
    orderId: nat,
    success: bool,
    amount: Option<int>,
    transactionId: Option<string>,
    failureReason: Option<string>)

  /** The order after settlement: (COMPLETED, CONFIRMED) on success and
      (FAILED, CANCELLED) otherwise, whatever its statuses were before. */
  function Settle(o: Order, success: bool): (s: Order)
    ensures s.(paymentStatus := o.paymentStatus, orderStatus := o.orderStatus) == o
  {
    if success then o.(paymentStatus := COMPLETED, orderStatus := CONFIRMED)
    else o.(paymentStatus := FAILED, orderStatus := CANCELLED)
  }

  /** An order settled successfully is never charged again: every later
      initializePayment is refused before the gateway is reached. */
  lemma PaidOrderIsNotChargedAgain(o: Order, amount: Option<int>, gateway: GatewayReply)
    ensures !GatewayCalled(Some(Settle(o, true)), amount)
    ensures InitializePayment(Some(Settle(o, true)), amount, gateway).Err?
    ensures InitializePayment(Some(Settle(o, true)), amount, gateway).error.BadRequest?
  {
  }

  /** A failed payment does not block another attempt: with the exact,
      positive total the gateway is reached again and its secret returned. */
  lemma FailedOrderMayBeRetried(o: Order, secret: string)
    requires o.totalAmount > 0
    ensures InitializePayment(Some(Settle(o, false)), Some(o.totalAmount), Secret(secret)) == Ok(secret)
  {
  }

  /** Settlement depends only on the outcome, not on the earlier statuses,
      and settling twice with the same outcome is settling once. */
  lemma SettleIgnoresHistory(o: Order, o': Order, success: bool)
    requires o.(paymentStatus := o'.paymentStatus, orderStatus := o'.orderStatus) == o'
    ensures Settle(o, success) == Settle(o', success)
    ensures Settle(Settle(o, success), success) == Settle(o, success)
  {
  }

  /** A recorded payment attempt; order, user, amount, transaction id and
      failure reason may be null. */
  datatype Payment = Payment(
    id: nat,
    orderId: Option<nat>,
    userId: Option<nat>,
    amount: Option<int>,
    transactionId: Option<string>,
    success: bool,
    failureReason: Option<string>,
    paymentDate: int)

  /** The attempt recorded for a settlement of order `o` at time `now`. */
  function Attempt(id: nat, o: Order, s: Settlement, now: int): Payment {
    Payment(id, Some(o.id), Some(o.userId), s.amount, s.transactionId, s.success, s.failureReason, now)
  }

  /** A payment e-mail: the template it is rendered from and the body. */
  datatype PaymentMail = PaymentMail(recipient: string, template: string, body: string)

  function TemplateFor(success: bool): string {
    if success then "payment-success" else "payment-failed"
  }

  /** The collaborator calls of updatePaymentForOrder, in order. */
  datatype SettleStep = SavePayment | SaveSettledOrder | RenderPaymentTemplate | SendPaymentEmail

  function SettleStepIndex(s: SettleStep): nat {
    match s
    case SavePayment => 0
    case SaveSettledOrder => 1
    case RenderPaymentTemplate => 2
    case SendPaymentEmail => 3
  }

  predicate SettleDone(fault: Option<SettleStep>, s: SettleStep) {
    fault.None? || SettleStepIndex(s) < SettleStepIndex(fault.value)
  }

  // ---------------------------------------------------------------------------
  // Read views

  /** A user inside a payment response; roles are null once removed. */
  datatype UserView = UserView(id: nat, roles: Option<seq<string>>)

  /** A payment response; the user and order may be null. */
  datatype PaymentView = PaymentView(
    id: nat,
    amount: Option<int>,
    transactionId: Option<string>,
    success: bool,
    failureReason: Option<string>,
    paymentDate: int,
    user: Option<UserView>,
    order: Option<OrderView>)

  /** A payment response after getPaymentById's trimming: the user's roles,
      the order's user and every menu's reviews nulled. */
  function DetailTrimmed(v: PaymentView): PaymentView
    requires v.user.Some? && v.order.Some? && HasMenus(v.order.value.lines)
  {
    v.(user := Some(v.user.value.(roles := None)), order := Some(Trimmed(v.order.value, true)))
  }

  /** What the trimming of one payment promises: no roles, no order user, no
      reviews, and everything else as mapped. */
  lemma DetailTrimmedSpec(v: PaymentView)
    requires v.user.Some? && v.order.Some? && HasMenus(v.order.value.lines)
    ensures DetailTrimmed(v).user == Some(UserView(v.user.value.id, None))
    ensures DetailTrimmed(v).order.Some? && DetailTrimmed(v).order.value.user.None?
    ensures NoReviews(DetailTrimmed(v).order.value)
    ensures DetailTrimmed(v).(user := v.user, order := v.order) == v
    ensures DetailTrimmed(v).order.value.(user := v.order.value.user, lines := v.order.value.lines) == v.order.value
  {
    TrimmedSpec(v.order.value, true);
  }

  /** The in-place trimming of getPaymentById on a mapped payment: a missing
      user, order or menu is dereferenced and ends the call with a
      NullPointerException. */
  method TrimPaymentDetail(v: PaymentView) returns (r: Result<PaymentView>)
    ensures r.Ok? <==> v.user.Some? && v.order.Some? && HasMenus(v.order.value.lines)
    ensures r.Err? ==> r.error.Fault?
    ensures r.Ok? ==> r.value == DetailTrimmed(v)
  {
    if v.user.None? || v.order.None? {
      return Err(Fault("NullPointerException"));
    }
    var lines := TrimLines(v.order.value.lines);
    if lines.Err? {
      return Err(lines.error);
    }
    var order := v.order.value.(user := None, lines := lines.value);
    assert order == Trimmed(v.order.value, true);
    r := Ok(v.(user := Some(v.user.value.(roles := None)), order := Some(order)));
  }

  /** A payment as getAllPayments lists it: order and user removed. */
  function Summary(p: Payment): (v: PaymentView)
    ensures v.user.None? && v.order.None?
    ensures v.id == p.id && v.amount == p.amount && v.transactionId == p.transactionId
    ensures v.success == p.success && v.failureReason == p.failureReason && v.paymentDate == p.paymentDate
  {
    PaymentView(p.id, p.amount, p.transactionId, p.success, p.failureReason, p.paymentDate, None, None)
  }

  class PaymentService {
    const repo: OrderRepository
    var payments: map<nat, Payment>
    var nextPaymentId: nat
    /** Every payment e-mail handed to the notification service, oldest first. */
    var outbox: seq<PaymentMail>

    ghost predicate Valid()
      reads this, repo
    {
      && repo.Valid()
      && (forall k :: k in payments ==> payments[k].id == k && k < nextPaymentId)
    }

    constructor (orders: OrderRepository)
      requires orders.Valid()
      ensures Valid() && repo == orders && payments == map[] && nextPaymentId == 0 && outbox == []
    {
      repo := orders;
      payments := map[];
      nextPaymentId := 0;
      outbox := [];
    }

    /** updatePaymentForOrder: the order must exist; a dated attempt is
        recorded whatever the outcome; the order is settled without looking
        at its current status and saved; the success or failure e-mail is
        rendered and sent to the e-mail address of the order's user, which
        `emailOf` gives for a user id. `fault` names the collaborator call
        that throws, if any: the calls before it have taken effect and none
        after it has. */
    method UpdatePaymentForOrder(s: Settlement, now: int, emailOf: nat -> string, render: (string, Order) -> string, fault: Option<SettleStep>)
      returns (r: Result<()>)
      requires Valid()
      modifies this, repo`orders
      ensures Valid()
      ensures s.orderId !in old(repo.orders) ==>
        && r == Err(NotFound("Order not found"))
        && repo.orders == old(repo.orders) && payments == old(payments)
        && nextPaymentId == old(nextPaymentId) && outbox == old(outbox)
      ensures s.orderId in old(repo.orders) ==>
        var o := old(repo.orders)[s.orderId];
        var pid := old(nextPaymentId);
        var settled := Settle(o, s.success);
        && (r.Ok? <==> fault.None?)
        && (r.Err? ==> r.error.Fault?)
        && payments == (if SettleDone(fault, SavePayment) then old(payments)[pid := Attempt(pid, o, s, now)] else old(payments))
        && nextPaymentId == (if SettleDone(fault, SavePayment) then pid + 1 else pid)
        && repo.orders == (if SettleDone(fault, SaveSettledOrder) then old(repo.orders)[s.orderId := settled] else old(repo.orders))
        && outbox == (if fault.None? then old(outbox) + [PaymentMail(emailOf(o.userId), TemplateFor(s.success), render(TemplateFor(s.success), settled))] else old(outbox))
    {
      if s.orderId !in repo.orders {
        return Err(NotFound("Order not found"));
      }
      var o := repo.orders[s.orderId];
      var pid := nextPaymentId;

      if fault == Some(SavePayment) {
        return Err(Fault("payment save failed"));
      }
      payments := payments[pid := Attempt(pid, o, s, now)];
      nextPaymentId := pid + 1;

      var settled := Settle(o, s.success);
      if fault == Some(SaveSettledOrder) {
        return Err(Fault("order save failed"));
      }
      repo.orders := repo.orders[s.orderId := settled];

      if fault.Some? {
        // the template engine or the mail sender threw
        return Err(Fault("payment notification failed"));
      }
      var template := TemplateFor(s.success);
      outbox := outbox + [PaymentMail(emailOf(o.userId), template, render(template, settled))];
      r := Ok(());
    }

    /** getAllPayments: every recorded payment, highest id first, each with
        its order and user removed; none recorded gives an empty list. */
    method GetAllPayments() returns (r: seq<PaymentView>)
      requires Valid()
      ensures |r| == |payments|
      ensures forall i, j :: 0 <= i < j < |r| ==> r[i].id > r[j].id
      ensures forall id :: id in payments <==> exists i :: 0 <= i < |r| && r[i].id == id
      ensures forall i :: 0 <= i < |r| ==> r[i].id in payments && r[i] == Summary(payments[r[i].id])
    {
      var ids := KeysDescending(payments.Keys);
      r := [];
      var k := 0;
      while k < |ids|
        invariant 0 <= k <= |ids| && |r| == k
        invariant forall i :: 0 <= i < k ==> ids[i] in payments && r[i] == Summary(payments[ids[i] as nat])
        invariant forall i :: 0 <= i < k ==> r[i].id == ids[i]
      {
        assert ids[k] in ids;
        r := r + [Summary(payments[ids[k] as nat])];
        k := k + 1;
      }
      assert |payments.Keys| == |payments|;
      forall id | id in payments ensures exists i :: 0 <= i < |r| && r[i].id == id {
        var n :| 0 <= n < |ids| && ids[n] == id;
        assert r[n].id == id;
      }
    }

    /** The response a stored payment is mapped to, before trimming: its
        user with that user's roles, and its order with the menus' reviews. */
    function DetailView(p: Payment, roles: map<nat, seq<string>>, reviews: map<nat, seq<nat>>): PaymentView
      reads repo
    {
      PaymentView(p.id, p.amount, p.transactionId, p.success, p.failureReason, p.paymentDate,
        if p.userId.Some? then Some(UserView(p.userId.value, Some(if p.userId.value in roles then roles[p.userId.value] else []))) else None,
        if p.orderId.Some? && p.orderId.value in repo.orders then Some(ToView(repo.orders[p.orderId.value], reviews)) else None)
    }

    /** getPaymentById: the payment must exist; its response loses the
        user's roles, the order's user and the menus' reviews; a payment
        without a user or an order ends in a NullPointerException. */
    method GetPaymentById(id: nat, roles: map<nat, seq<string>>, reviews: map<nat, seq<nat>>) returns (r: Result<PaymentView>)
      requires Valid()
      ensures id !in payments ==> r == Err(NotFound("Payment not found"))
      ensures id in payments ==>
        var p := payments[id];
        && (r.Ok? <==> p.userId.Some? && p.orderId.Some? && p.orderId.value in repo.orders)
        && (r.Err? ==> r.error.Fault?)
        && (r.Ok? ==> r.value == DetailTrimmed(DetailView(p, roles, reviews)))
    {
      if id !in payments {
        return Err(NotFound("Payment not found"));
      }
      var v := DetailView(payments[id], roles, reviews);
      if v.order.Some? {
        ToViewHasMenus(repo.orders[payments[id].orderId.value], reviews);
      }
      r := TrimPaymentDetail(v);
    }
  }
}
