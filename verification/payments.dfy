/** PaymentService: creating a gateway payment for an order, applying the gateway's
    webhook notifications, and looking a payment up by its order. Each public operation
    runs in one transaction, so a failing call leaves the store as it was: the model
    returns either the new store or the error. */
module Payments {
  import opened Common
  import opened JavaNum
  import Entities
  import opened PaymentEntity
  import opened Store
  import opened Currency
  import opened Gateway
  import opened Signature
  import Hex
  import Orders

  type Id = Entities.Id

  datatype PaymentRequest = PaymentRequest(
    orderId: Option<Id>,
    customerName: Option<string>,
    customerEmail: Option<string>,
    customerPhone: Option<string>)

  /** `amount` is in the order's currency, for display. */
  datatype PaymentResponse = PaymentResponse(
    paymentId: Id,
    orderId: Id,
    midtransOrderId: string,
    snapToken: Option<string>,
    snapRedirectUrl: Option<string>,
    amount: real,
    status: string,
    message: string)

  /** A successful `createPayment`: the committed store and the response. */
  datatype Created = Created(db: Db, response: PaymentResponse)

  const CreatedMessage := "Payment created successfully"

  // ---------------------------------------------------------------------------------------
  // Repository queries

  /** `existsByOrderId`. */
  predicate ExistsByOrderId(db: Db, orderId: Id) {
    exists k :: k in db.payments && db.payments[k].order == Some(orderId)
  }

  /** The rows a derived `findBy...` query matches. A null argument matches the rows whose
      column is null. */
  function RowsByOrder(db: Db, orderId: Id): set<Id> {
    set k | k in db.payments && db.payments[k].order == Some(orderId)
  }

  function RowsByMidtransOrderId(db: Db, midtransOrderId: Option<string>): set<Id> {
    set k | k in db.payments && db.payments[k].midtransOrderId == midtransOrderId
  }

  /** A single-result query returning `Optional`: no row is empty, several rows throw. */
  function SingleResult(ks: set<Id>): (r: Result<Id>)
    ensures r.Ok? <==> exists k :: ks == {k}
    ensures r.Ok? ==> ks == {r.value}
    ensures r == Err(PaymentNotFound) <==> ks == {}
    ensures r.Err? && ks != {} ==> r == Err(NonUniqueResult)
  {
    if ks == {} then Err(PaymentNotFound)
    else if exists k | k in ks :: ks == {k} then
      var k :| k in ks && ks == {k};
      Ok(k)
    else Err(NonUniqueResult)
  }

  /** `getPaymentByOrderId`: the payment of an order, or "Payment not found for order". */
  function GetPaymentByOrderId(db: Db, orderId: Id): (r: Result<Payment>)
    ensures r.Ok? <==> exists k :: k in db.payments && RowsByOrder(db, orderId) == {k}
    ensures r.Ok? ==> r.value.order == Some(orderId) && r.value in db.payments.Values
    ensures r == Err(PaymentNotFound) <==> !ExistsByOrderId(db, orderId)
  {
    assert !ExistsByOrderId(db, orderId) <==> RowsByOrder(db, orderId) == {} by {
      if ExistsByOrderId(db, orderId) {
        var k :| k in db.payments && db.payments[k].order == Some(orderId);
        assert k in RowsByOrder(db, orderId);
      } else {
        assert forall k :: k !in RowsByOrder(db, orderId);
        assert RowsByOrder(db, orderId) == {};
      }
    }
    match SingleResult(RowsByOrder(db, orderId))
    case Err(e) => Err(e)
    case Ok(k) =>
      assert k in RowsByOrder(db, orderId);
      Ok(db.payments[k])
  }

  // ---------------------------------------------------------------------------------------
  // The store invariant

  /** What every committed payment row looks like: it references an existing order, has an
      amount and a creation time, carries a gateway order id minted for its order, and uses
      that id as its transaction id. */
  ghost predicate WellFormedPayment(db: Db, p: Payment) {
    && p.order.Some? && p.order.value in db.orders
    && p.amount.Some? && p.createdAt.Some?
    && p.midtransOrderId.Some?
    && p.transactionId == p.midtransOrderId
    && exists millis :: p.midtransOrderId.value == MidtransOrderId(p.order.value, millis)
  }

  /** Every payment is well formed and no order has two payments. */
  ghost predicate Valid(db: Db) {
    && (forall k | k in db.payments :: WellFormedPayment(db, db.payments[k]))
    && (forall k1, k2 | k1 in db.payments && k2 in db.payments ::
          db.payments[k1].order == db.payments[k2].order ==> k1 == k2)
  }

  /** The unique columns hold: two payments never share a gateway order id, so
      `findByMidtransOrderId` finds at most one row. */
  lemma MidtransOrderIdsUnique(db: Db, k1: Id, k2: Id)
    requires Valid(db)
    requires k1 in db.payments && k2 in db.payments
    requires db.payments[k1].midtransOrderId == db.payments[k2].midtransOrderId
    ensures k1 == k2
  {
    var p1, p2 := db.payments[k1], db.payments[k2];
    assert WellFormedPayment(db, p1) && WellFormedPayment(db, p2);
    var m1 :| p1.midtransOrderId.value == MidtransOrderId(p1.order.value, m1);
    var m2 :| p2.midtransOrderId.value == MidtransOrderId(p2.order.value, m2);
    MidtransOrderIdInjective(p1.order.value, m1, p2.order.value, m2);
  }

  /** The unique transaction id column holds too: two payments never share a transaction id. */
  lemma TransactionIdsUnique(db: Db, k1: Id, k2: Id)
    requires Valid(db)
    requires k1 in db.payments && k2 in db.payments
    requires db.payments[k1].transactionId == db.payments[k2].transactionId
    ensures k1 == k2
  {
    assert WellFormedPayment(db, db.payments[k1]) && WellFormedPayment(db, db.payments[k2]);
    MidtransOrderIdsUnique(db, k1, k2);
  }

  /** In a valid store an order has at most one payment, so the lookup by order never throws
      NonUniqueResult and finds a payment exactly when `existsByOrderId` says so. */
  lemma GetPaymentByOrderIdInValidStore(db: Db, orderId: Id)
    requires Valid(db)
    ensures GetPaymentByOrderId(db, orderId).Ok? <==> ExistsByOrderId(db, orderId)
  {
    if ExistsByOrderId(db, orderId) {
      var k :| k in db.payments && db.payments[k].order == Some(orderId);
      forall k' | k' in RowsByOrder(db, orderId)
        ensures k' == k
      {
        assert db.payments[k'].order == db.payments[k].order;
      }
      assert RowsByOrder(db, orderId) == {k};
    }
  }

  // ---------------------------------------------------------------------------------------
  // createPayment

  /** The amount charged through the gateway: the order's `totalPrice`, converted to IDR
      unless the order's currency is null or exactly "IDR". */
  function ChargeAmount(order: Entities.Order): real {
    var currency := OrderCurrency(order);
    if currency == Base then order.totalPrice else ToIdr(order.totalPrice, Some(currency))
  }

  /** The amount shown to the customer: the charge converted back to the order's currency. */
  function DisplayAmount(order: Entities.Order, charged: real): real {
    var currency := OrderCurrency(order);
    if currency == Base then charged else FromIdr(charged, Some(currency))
  }

  /** The row `createPayment` inserts. */
  function NewGatewayPayment(orderId: Id, amount: real, midtransOrderId: string,
                             token: Option<string>, redirectUrl: Option<string>, created: DateTime, updated: DateTime): Payment {
    OnCreate(NewPayment().(
      order := Some(orderId),
      amount := Some(amount),
      currency := "IDR",
      midtransOrderId := Some(midtransOrderId),
      status := Pending,
      snapToken := token,
      snapRedirectUrl := redirectUrl,
      transactionId := Some(midtransOrderId)), created, updated)
  }

  /** An insert that would repeat a value of a unique column fails inside the try block. */
  predicate UniqueColumnTaken(db: Db, midtransOrderId: string) {
    exists k :: k in db.payments &&
      (db.payments[k].midtransOrderId == Some(midtransOrderId) || db.payments[k].transactionId == Some(midtransOrderId))
  }

  /** The request `createPayment` sends to the gateway for an existing order: `None` when
      an order line names a missing product. */
  function GatewayPayload(db: Db, request: PaymentRequest, orderId: Id, millis: int): Option<MidtransRequest>
    requires orderId in db.orders
  {
    BuildMidtransRequest(db.orders[orderId], db.products, MidtransOrderId(orderId, millis), request.customerName,
                         request.customerEmail, request.customerPhone, ChargeAmount(db.orders[orderId]))
  }

  /** `createPayment`. `newPaymentId` is the key the identity column issues, `millis` the clock
      reading in the minted id, `created` and `updated` the two clock readings of `@PrePersist`,
      and `gateway` stands for `callMidtransApi`. */
  function CreatePayment(db: Db, request: PaymentRequest, newPaymentId: Id, millis: int, created: DateTime, updated: DateTime,
                         gateway: MidtransRequest -> GatewayResponse): (r: Result<Created>)
    requires newPaymentId !in db.payments
    ensures request.orderId.None? ==> r == Err(NullId)
    ensures request.orderId.Some? && request.orderId.value !in db.orders ==> r == Err(OrderNotFound)
    ensures request.orderId.Some? && request.orderId.value in db.orders && ExistsByOrderId(db, request.orderId.value)
      ==> r == Err(DuplicatePayment)
    ensures request.orderId.Some? && request.orderId.value in db.orders && !ExistsByOrderId(db, request.orderId.value)
      && !AllProductsPresent(db.orders[request.orderId.value].items, db.products)
      ==> r == Err(DanglingProductReference)
    ensures (&& request.orderId.Some? && request.orderId.value in db.orders
             && !ExistsByOrderId(db, request.orderId.value)
             && GatewayPayload(db, request, request.orderId.value, millis).Some?) ==>
      var payload := GatewayPayload(db, request, request.orderId.value, millis).value;
      var mid := MidtransOrderId(request.orderId.value, millis);
      && (r.Ok? <==> gateway(payload).Accepted? && !UniqueColumnTaken(db, mid))
      && (r == Err(PaymentCreationFailed) <==> gateway(payload).Rejected? || UniqueColumnTaken(db, mid))
    ensures r == Err(PaymentCreationFailed) ==>
      var orderId := request.orderId.value;
      var payload := GatewayPayload(db, request, orderId, millis);
      payload.Some? && (gateway(payload.value).Rejected? || UniqueColumnTaken(db, MidtransOrderId(orderId, millis)))
    ensures r.Ok? ==> CreatedSpec(db, request, newPaymentId, millis, created, updated, gateway, r.value)
  {
    match request.orderId
    case None => Err(NullId)
    case Some(orderId) =>
      if orderId !in db.orders then Err(OrderNotFound)
      else if ExistsByOrderId(db, orderId) then Err(DuplicatePayment)
      else
        var order := db.orders[orderId];
        var amount := ChargeAmount(order);
        var mid := MidtransOrderId(orderId, millis);
        match BuildMidtransRequest(order, db.products, mid, request.customerName, request.customerEmail,
                                   request.customerPhone, amount)
        case None => Err(DanglingProductReference)
        case Some(payload) =>
          match gateway(payload)
          case Rejected => Err(PaymentCreationFailed)
          case Accepted(token, url) =>
            if UniqueColumnTaken(db, mid) then Err(PaymentCreationFailed)
            else
              var payment := NewGatewayPayment(orderId, amount, mid, token, url, created, updated);
              var db' := db.(
                payments := db.payments[newPaymentId := payment],
                orders := db.orders[orderId := order.(status := Entities.PendingPayment)]);
              Ok(Created(db', PaymentResponse(newPaymentId, orderId, mid, token, url,
                                              DisplayAmount(order, amount), StatusName(Pending), CreatedMessage)))
  }

  /** What a successful `createPayment` has done, stated field by field. */
  predicate CreatedSpec(db: Db, request: PaymentRequest, newPaymentId: Id, millis: int, created: DateTime, updated: DateTime,
                        gateway: MidtransRequest -> GatewayResponse, c: Created)
  {
    && request.orderId.Some?
    && var orderId := request.orderId.value;
    && orderId in db.orders
    && var order := db.orders[orderId];
    && var mid := MidtransOrderId(orderId, millis);
    && !ExistsByOrderId(db, orderId)
    && AllProductsPresent(order.items, db.products)
    // the gateway accepted the request built from the order
    && var payload := BuildMidtransRequest(order, db.products, mid, request.customerName,
                                           request.customerEmail, request.customerPhone, ChargeAmount(order));
    && payload.Some?
    && gateway(payload.value).Accepted?
    && payload.value.transactionDetails.grossAmount == LongValue(ChargeAmount(order))
    // exactly one payment row was added, PENDING, in IDR, keyed by the new id
    && c.db.payments.Keys == db.payments.Keys + {newPaymentId}
    && (forall k | k in db.payments :: c.db.payments[k] == db.payments[k])
    && var p := c.db.payments[newPaymentId];
    && p.order == Some(orderId) && p.amount == Some(ChargeAmount(order))
    && p.currency == "IDR" && p.status == Pending
    && p.midtransOrderId == Some(mid) && p.transactionId == Some(mid)
    && p.snapToken == gateway(payload.value).token && p.snapRedirectUrl == gateway(payload.value).redirectUrl
    && p.createdAt == Some(created) && p.updatedAt == Some(updated)
    // the order now awaits payment; nothing else changed
    && c.db.orders == db.orders[orderId := order.(status := Entities.PendingPayment)]
    && c.db.products == db.products
    // the response echoes the row, with the amount in the order's currency
    && c.response == PaymentResponse(newPaymentId, orderId, mid, p.snapToken, p.snapRedirectUrl,
                                     DisplayAmount(order, ChargeAmount(order)), "PENDING", CreatedMessage)
  }

  /** A minted gateway order id never collides with a stored one when the order has no
      payment yet, so in a valid store the insert cannot hit a unique constraint. */
  lemma MintedIdIsFresh(db: Db, orderId: Id, millis: int)
    requires Valid(db)
    requires !ExistsByOrderId(db, orderId)
    ensures !UniqueColumnTaken(db, MidtransOrderId(orderId, millis))
  {
    var mid := MidtransOrderId(orderId, millis);
    forall k | k in db.payments
      ensures db.payments[k].midtransOrderId != Some(mid)
      ensures db.payments[k].transactionId != Some(mid)
    {
      var p := db.payments[k];
      assert WellFormedPayment(db, p);
      var m :| p.midtransOrderId.value == MidtransOrderId(p.order.value, m);
      assert p.order.value != orderId;
      MidtransOrderIdDistinct(p.order.value, m, orderId, millis);
    }
  }

  /** In a valid store, `createPayment` fails with PaymentCreationFailed only when the
      gateway rejects the request. */
  lemma CreatePaymentFailsOnlyAtGateway(db: Db, request: PaymentRequest, newPaymentId: Id, millis: int, created: DateTime, updated: DateTime,
                                        gateway: MidtransRequest -> GatewayResponse)
    requires Valid(db)
    requires newPaymentId !in db.payments
    requires CreatePayment(db, request, newPaymentId, millis, created, updated, gateway) == Err(PaymentCreationFailed)
    ensures var orderId := request.orderId.value;
      var payload := BuildMidtransRequest(db.orders[orderId], db.products, MidtransOrderId(orderId, millis),
                                          request.customerName, request.customerEmail, request.customerPhone,
                                          ChargeAmount(db.orders[orderId]));
      payload.Some? && gateway(payload.value).Rejected?
  {
    MintedIdIsFresh(db, request.orderId.value, millis);
  }

  /** In a valid store, `createPayment` for an existing order without a payment, whose
      products all exist, succeeds exactly when the gateway accepts the request. */
  lemma CreatePaymentSucceedsInValidStore(db: Db, request: PaymentRequest, newPaymentId: Id, millis: int,
                                          created: DateTime, updated: DateTime,
                                          gateway: MidtransRequest -> GatewayResponse)
    requires Valid(db)
    requires newPaymentId !in db.payments
    requires request.orderId.Some? && request.orderId.value in db.orders
    requires !ExistsByOrderId(db, request.orderId.value)
    requires AllProductsPresent(db.orders[request.orderId.value].items, db.products)
    ensures GatewayPayload(db, request, request.orderId.value, millis).Some?
    ensures var r := CreatePayment(db, request, newPaymentId, millis, created, updated, gateway);
      var payload := GatewayPayload(db, request, request.orderId.value, millis).value;
      && (r.Ok? <==> gateway(payload).Accepted?)
      && (r == Err(PaymentCreationFailed) <==> gateway(payload).Rejected?)
  {
    MintedIdIsFresh(db, request.orderId.value, millis);
  }

  /** `createPayment` keeps the store valid. */
  lemma CreatePaymentPreservesValid(db: Db, request: PaymentRequest, newPaymentId: Id, millis: int, created: DateTime, updated: DateTime,
                                    gateway: MidtransRequest -> GatewayResponse)
    requires Valid(db)
    requires newPaymentId !in db.payments
    requires CreatePayment(db, request, newPaymentId, millis, created, updated, gateway).Ok?
    ensures Valid(CreatePayment(db, request, newPaymentId, millis, created, updated, gateway).value.db)
  {
    var db' := CreatePayment(db, request, newPaymentId, millis, created, updated, gateway).value.db;
    var orderId := request.orderId.value;
    forall k | k in db'.payments
      ensures WellFormedPayment(db', db'.payments[k])
    {
      if k == newPaymentId {
        assert db'.payments[k].midtransOrderId.value == MidtransOrderId(orderId, millis);
      } else {
        assert WellFormedPayment(db, db.payments[k]);
      }
    }
    assert forall k | k in db.payments :: db.payments[k].order != Some(orderId);
  }

  /** After `createPayment`, the order's payment is the row it inserted, and a second attempt
      for the same order is refused. */
  lemma CreateThenLookup(db: Db, request: PaymentRequest, newPaymentId: Id, millis: int, created: DateTime, updated: DateTime,
                         gateway: MidtransRequest -> GatewayResponse, newPaymentId': Id, millis': int, created': DateTime, updated': DateTime,
                         gateway': MidtransRequest -> GatewayResponse)
    requires Valid(db)
    requires newPaymentId !in db.payments
    requires CreatePayment(db, request, newPaymentId, millis, created, updated, gateway).Ok?
    requires newPaymentId' !in CreatePayment(db, request, newPaymentId, millis, created, updated, gateway).value.db.payments
    ensures var db' := CreatePayment(db, request, newPaymentId, millis, created, updated, gateway).value.db;
      && GetPaymentByOrderId(db', request.orderId.value) == Ok(db'.payments[newPaymentId])
      && CreatePayment(db', request, newPaymentId', millis', created', updated', gateway') == Err(DuplicatePayment)
  {
    var db' := CreatePayment(db, request, newPaymentId, millis, created, updated, gateway).value.db;
    var orderId := request.orderId.value;
    CreatePaymentPreservesValid(db, request, newPaymentId, millis, created, updated, gateway);
    assert db'.payments[newPaymentId].order == Some(orderId);
    forall k | k in RowsByOrder(db', orderId)
      ensures k == newPaymentId
    {
    }
    assert RowsByOrder(db', orderId) == {newPaymentId};
  }

  // ---------------------------------------------------------------------------------------
  // handleMidtransNotification

  /** `parseDateTime`: the instant the text denotes in the pattern "yyyy-MM-dd HH:mm:ss", or the
      current time when it does not parse. `parse` stands for `LocalDateTime.parse`. */
  function ParseDateTime(text: string, parse: string -> Option<DateTime>, now: DateTime): DateTime {
    match parse(text)
    case Some(t) => t
    case None => now
  }

  /** The effect of one "transaction_status" value: the new payment status, the new order
      status, and whether "status_message" is recorded as the failure reason. */
  datatype Transition = Transition(payment: PaymentStatus, order: Entities.OrderStatus, recordsReason: bool)

  /** The switch of `handleMidtransNotification`; None for a value it does not list. */
  function TransitionOf(status: string): Option<Transition> {
    if status == "capture" || status == "settlement" then Some(Transition(Success, Entities.Processing, false))
    else if status == "pending" then Some(Transition(Pending, Entities.PendingPayment, false))
    else if status == "deny" || status == "cancel" then Some(Transition(Failed, Entities.Cancelled, true))
    else if status == "expire" then Some(Transition(Expired, Entities.Cancelled, false))
    else None
  }

  /** The payment a notification addresses: `findByMidtransOrderId(order_id)`. */
  function NotifiedPayment(db: Db, n: MidtransNotification): Result<Id> {
    SingleResult(RowsByMidtransOrderId(db, n.orderId))
  }

  /** The setters applied to the loaded payment, in source order. */
  function EditPayment(stored: Payment, n: MidtransNotification, parse: string -> Option<DateTime>, now: DateTime,
                       transition: Option<Transition>): Payment {
    var p1 := stored.(paymentType := n.paymentType, fraudStatus := n.fraudStatus);
    var p2 := if n.transactionTime.Some? then p1.(transactionTime := Some(ParseDateTime(n.transactionTime.value, parse, now))) else p1;
    var p3 := if n.settlementTime.Some? then p2.(settlementTime := Some(ParseDateTime(n.settlementTime.value, parse, now))) else p2;
    match transition
    case None => p3
    case Some(t) =>
      if t.recordsReason then p3.(status := t.payment, failureReason := n.statusMessage)
      else p3.(status := t.payment)
  }

  /** An optional timestamp field after the notification: kept when the text is absent,
      otherwise the parsed instant or, failing that, the current time. */
  function NotifiedTime(previous: Option<DateTime>, text: Option<string>, parse: string -> Option<DateTime>, now: DateTime): Option<DateTime> {
    match text
    case None => previous
    case Some(t) => if parse(t).Some? then parse(t) else Some(now)
  }

  /** The status switch as seen from outside: the payment's new status and failure reason and
      the order's new status, for each listed "transaction_status"; any other value changes none
      of the three. */
  predicate SwitchApplied(status: string, stored: Payment, p: Payment, reason: Option<string>,
                          orders: map<Id, Entities.Order>, orders': map<Id, Entities.Order>, o: Id)
    requires o in orders
  {
    match status
    case "capture" | "settlement" =>
      p.status == Success && p.failureReason == stored.failureReason
      && orders' == orders[o := orders[o].(status := Entities.Processing)]
    case "pending" =>
      p.status == Pending && p.failureReason == stored.failureReason
      && orders' == orders[o := orders[o].(status := Entities.PendingPayment)]
    case "deny" | "cancel" =>
      p.status == Failed && p.failureReason == reason
      && orders' == orders[o := orders[o].(status := Entities.Cancelled)]
    case "expire" =>
      p.status == Expired && p.failureReason == stored.failureReason
      && orders' == orders[o := orders[o].(status := Entities.Cancelled)]
    case _ =>
      p.status == stored.status && p.failureReason == stored.failureReason && orders' == orders
  }

  /** The columns a notification copies or never touches. */
  predicate ColumnsApplied(stored: Payment, p: Payment, n: MidtransNotification,
                           parse: string -> Option<DateTime>, now: DateTime)
  {
    // the gateway's report is copied
    && p.paymentType == n.paymentType && p.fraudStatus == n.fraudStatus
    && p.transactionTime == NotifiedTime(stored.transactionTime, n.transactionTime, parse, now)
    && p.settlementTime == NotifiedTime(stored.settlementTime, n.settlementTime, parse, now)
    // identity, amount and creation time never change
    && p.order == stored.order && p.amount == stored.amount && p.currency == stored.currency
    && p.midtransOrderId == stored.midtransOrderId && p.transactionId == stored.transactionId
    && p.snapToken == stored.snapToken && p.snapRedirectUrl == stored.snapRedirectUrl
    && p.paymentMethod == stored.paymentMethod && p.createdAt == stored.createdAt
  }

  /** What a successful notification has done to payment `k`, stated field by field. */
  predicate NotificationApplied(db: Db, n: MidtransNotification, parse: string -> Option<DateTime>, now: DateTime,
                                k: Id, db': Db)
  {
    && k in db.payments
    && var stored := db.payments[k];
    && stored.order.Some? && stored.order.value in db.orders
    && n.transactionStatus.Some?
    && k in db'.payments
    && var p := db'.payments[k];
    // only payment k and its order change
    && db'.payments == db.payments[k := p]
    && db'.products == db.products
    && ColumnsApplied(stored, p, n, parse, now)
    && SwitchApplied(n.transactionStatus.value, stored, p, n.statusMessage, db.orders, db'.orders, stored.order.value)
    // updatedAt moves only when some column changed
    && (p.(updatedAt := stored.updatedAt) == stored ==> p == stored)
    && (p.(updatedAt := stored.updatedAt) != stored ==> p.updatedAt == Some(now))
  }

  /** The edited payment, column by column. */
  lemma EditPaymentEffect(stored: Payment, n: MidtransNotification, parse: string -> Option<DateTime>, now: DateTime)
    requires n.transactionStatus.Some?
    ensures var e := EditPayment(stored, n, parse, now, TransitionOf(n.transactionStatus.value));
      && ColumnsApplied(stored, e, n, parse, now)
      && e.updatedAt == stored.updatedAt
      && match TransitionOf(n.transactionStatus.value)
         case None => e.status == stored.status && e.failureReason == stored.failureReason
         case Some(t) => (e.status == t.payment
           && e.failureReason == (if t.recordsReason then n.statusMessage else stored.failureReason))
  {
  }

  /** The loaded payment `k` edited, flushed, and its order saved. */
  function ApplyNotification(db: Db, k: Id, n: MidtransNotification, parse: string -> Option<DateTime>, now: DateTime)
    : (r: Result<Db>)
    requires k in db.payments
    ensures db.payments[k].order.None? || db.payments[k].order.value !in db.orders ==> r == Err(OrderNotFound)
    ensures db.payments[k].order.Some? && db.payments[k].order.value in db.orders && n.transactionStatus.None?
      ==> r == Err(NullTransactionStatus)
    ensures db.payments[k].order.Some? && db.payments[k].order.value in db.orders && n.transactionStatus.Some?
      ==> r.Ok?
    ensures r.Ok? ==> NotificationApplied(db, n, parse, now, k, r.value)
  {
    var stored := db.payments[k];
    if stored.order.None? || stored.order.value !in db.orders then Err(OrderNotFound)
    else if n.transactionStatus.None? then Err(NullTransactionStatus)
    else
      var o := stored.order.value;
      var transition := TransitionOf(n.transactionStatus.value);
      EditPaymentEffect(stored, n, parse, now);
      var saved := SaveUpdate(stored, EditPayment(stored, n, parse, now, transition), now);
      var order := db.orders[o];
      var order' := if transition.Some? then order.(status := transition.value.order) else order;
      Ok(db.(payments := db.payments[k := saved], orders := db.orders[o := order']))
  }

  /** `handleMidtransNotification`. `serverKey` is the configured server key, `digest` SHA-512
      of the UTF-8 bytes, `parse` the date parser and `now` the clock. */
  function HandleNotification(db: Db, n: MidtransNotification, serverKey: string, digest: string -> seq<Hex.JByte>,
                              parse: string -> Option<DateTime>, now: DateTime): (r: Result<Db>)
    ensures !SignatureValid(n, serverKey, digest) ==> r == Err(InvalidSignature)
    ensures SignatureValid(n, serverKey, digest) && NotifiedPayment(db, n).Err? ==> r == Err(NotifiedPayment(db, n).error)
    ensures SignatureValid(n, serverKey, digest) && NotifiedPayment(db, n).Ok? && n.transactionStatus.None?
      && db.payments[NotifiedPayment(db, n).value].order.Some? && db.payments[NotifiedPayment(db, n).value].order.value in db.orders
      ==> r == Err(NullTransactionStatus)
    ensures SignatureValid(n, serverKey, digest) && NotifiedPayment(db, n).Ok? && n.transactionStatus.Some?
      && db.payments[NotifiedPayment(db, n).value].order.Some? && db.payments[NotifiedPayment(db, n).value].order.value in db.orders
      ==> r.Ok?
    ensures r.Ok? ==> (SignatureValid(n, serverKey, digest) && NotifiedPayment(db, n).Ok?
      && NotificationApplied(db, n, parse, now, NotifiedPayment(db, n).value, r.value))
  {
    if !SignatureValid(n, serverKey, digest) then Err(InvalidSignature)
    else match NotifiedPayment(db, n)
      case Err(e) => Err(e)
      case Ok(k) =>
        assert k in RowsByMidtransOrderId(db, n.orderId);
        ApplyNotification(db, k, n, parse, now)
  }

  /** Does some payment carry this gateway order id? */
  predicate HasMidtransOrderId(db: Db, midtransOrderId: Option<string>) {
    exists k :: k in db.payments && db.payments[k].midtransOrderId == midtransOrderId
  }

  /** In a valid store the lookup by gateway order id finds the one payment carrying it. */
  lemma NotifiedPaymentInValidStore(db: Db, n: MidtransNotification)
    requires Valid(db)
    ensures NotifiedPayment(db, n).Ok? <==> HasMidtransOrderId(db, n.orderId)
    ensures !HasMidtransOrderId(db, n.orderId) ==> NotifiedPayment(db, n) == Err(PaymentNotFound)
    ensures NotifiedPayment(db, n).Ok? ==> db.payments[NotifiedPayment(db, n).value].midtransOrderId == n.orderId
  {
    var rows := RowsByMidtransOrderId(db, n.orderId);
    if HasMidtransOrderId(db, n.orderId) {
      var k :| k in db.payments && db.payments[k].midtransOrderId == n.orderId;
      forall k' | k' in rows
        ensures k' == k
      {
        MidtransOrderIdsUnique(db, k, k');
      }
      assert rows == {k};
    } else {
      assert forall k :: k !in rows;
      assert rows == {};
    }
  }

  /** In a valid store an authentic notification that names a stored payment and carries a
      status always succeeds; one naming no payment fails with PaymentNotFound. */
  lemma HandleNotificationInValidStore(db: Db, n: MidtransNotification, serverKey: string,
                                       digest: string -> seq<Hex.JByte>, parse: string -> Option<DateTime>, now: DateTime)
    requires Valid(db)
    requires SignatureValid(n, serverKey, digest)
    ensures HasMidtransOrderId(db, n.orderId) && n.transactionStatus.Some?
      ==> HandleNotification(db, n, serverKey, digest, parse, now).Ok?
    ensures !HasMidtransOrderId(db, n.orderId)
      ==> HandleNotification(db, n, serverKey, digest, parse, now) == Err(PaymentNotFound)
  {
    NotifiedPaymentInValidStore(db, n);
    if NotifiedPayment(db, n).Ok? {
      assert WellFormedPayment(db, db.payments[NotifiedPayment(db, n).value]);
    }
  }

  /** Applying a notification keeps the store valid. */
  lemma HandleNotificationPreservesValid(db: Db, n: MidtransNotification, serverKey: string,
                                        digest: string -> seq<Hex.JByte>, parse: string -> Option<DateTime>, now: DateTime)
    requires Valid(db)
    requires HandleNotification(db, n, serverKey, digest, parse, now).Ok?
    ensures Valid(HandleNotification(db, n, serverKey, digest, parse, now).value)
  {
    var db' := HandleNotification(db, n, serverKey, digest, parse, now).value;
    var k := NotifiedPayment(db, n).value;
    assert db'.orders.Keys == db.orders.Keys;
    forall j | j in db'.payments
      ensures WellFormedPayment(db', db'.payments[j])
    {
      var p := db.payments[j];
      assert WellFormedPayment(db, p);
      var m :| p.midtransOrderId.value == MidtransOrderId(p.order.value, m);
      assert db'.payments[j].midtransOrderId.value == MidtransOrderId(db'.payments[j].order.value, m);
    }
  }

  /** A notification delivered twice has the effect of one delivery, provided the clock has not
      moved or every timestamp it carries parses: the second delivery issues no UPDATE. */
  lemma NotificationReplayIdempotent(db: Db, n: MidtransNotification, serverKey: string,
                                     digest: string -> seq<Hex.JByte>, parse: string -> Option<DateTime>,
                                     now: DateTime, now': DateTime)
    requires HandleNotification(db, n, serverKey, digest, parse, now).Ok?
    requires now' == now || (
      (n.transactionTime.Some? ==> parse(n.transactionTime.value).Some?) &&
      (n.settlementTime.Some? ==> parse(n.settlementTime.value).Some?))
    ensures var db1 := HandleNotification(db, n, serverKey, digest, parse, now).value;
      HandleNotification(db1, n, serverKey, digest, parse, now') == Ok(db1)
  {
    var db1 := HandleNotification(db, n, serverKey, digest, parse, now).value;
    var k := NotifiedPayment(db, n).value;
    var stored := db.payments[k];
    var saved := db1.payments[k];
    var o := stored.order.value;
    assert RowsByMidtransOrderId(db1, n.orderId) == RowsByMidtransOrderId(db, n.orderId);
    assert NotifiedPayment(db1, n) == Ok(k);
    var transition := TransitionOf(n.transactionStatus.value);
    EditPaymentEffect(saved, n, parse, now');
    var edited := EditPayment(saved, n, parse, now', transition);
    assert edited.transactionTime == saved.transactionTime;
    assert edited.settlementTime == saved.settlementTime;
    assert edited == saved;
    assert db1.payments[k := saved] == db1.payments;
    var order1 := db1.orders[o];
    var order1' := if transition.Some? then order1.(status := transition.value.order) else order1;
    assert order1' == order1;
    assert db1.orders[o := order1'] == db1.orders;
    assert ApplyNotification(db1, k, n, parse, now') == Ok(db1);
  }

  /** Nothing orders the notifications: a "pending" notification that arrives after a
      "settlement" puts a paid payment back to PENDING and its order back to PENDING_PAYMENT. */
  lemma LatePendingUndoesSettlement(db: Db, n: MidtransNotification, serverKey: string,
                                    digest: string -> seq<Hex.JByte>, parse: string -> Option<DateTime>,
                                    now: DateTime, now': DateTime)
    requires n.transactionStatus == Some("settlement")
    requires HandleNotification(db, n, serverKey, digest, parse, now).Ok?
    requires SignatureValid(n.(transactionStatus := Some("pending")), serverKey, digest)
    ensures var k := NotifiedPayment(db, n).value;
      var db1 := HandleNotification(db, n, serverKey, digest, parse, now).value;
      var r2 := HandleNotification(db1, n.(transactionStatus := Some("pending")), serverKey, digest, parse, now');
      && db1.payments[k].status == Success
      && r2.Ok?
      && r2.value.payments[k].status == Pending
      && r2.value.orders[db.payments[k].order.value].status == Entities.PendingPayment
  {
    var k := NotifiedPayment(db, n).value;
    var db1 := HandleNotification(db, n, serverKey, digest, parse, now).value;
    var n2 := n.(transactionStatus := Some("pending"));
    assert RowsByMidtransOrderId(db1, n2.orderId) == RowsByMidtransOrderId(db, n.orderId);
    assert NotifiedPayment(db1, n2) == Ok(k);
  }

  /** The order operations never touch payments and never remove an order, so they keep the
      store valid. */
  lemma OrderOperationsPreserveValid(db: Db, id: Id, order: Entities.Order,
                                     calculateSubtotal: Entities.OrderItem -> real, status: Entities.OrderStatus)
    requires Valid(db)
    ensures Valid(Orders.CreateOrder(db, id, order, calculateSubtotal))
    ensures Valid(Orders.CancelOrder(db, id))
    ensures Orders.UpdateOrderStatus(db, id, status).Ok? ==> Valid(Orders.UpdateOrderStatus(db, id, status).value)
  {
    var dbs := [Orders.CreateOrder(db, id, order, calculateSubtotal), Orders.CancelOrder(db, id)]
      + if Orders.UpdateOrderStatus(db, id, status).Ok? then [Orders.UpdateOrderStatus(db, id, status).value] else [];
    forall i | 0 <= i < |dbs|
      ensures Valid(dbs[i])
    {
      var db' := dbs[i];
      assert db'.payments == db.payments && db.orders.Keys <= db'.orders.Keys;
      forall k | k in db'.payments
        ensures WellFormedPayment(db', db'.payments[k])
      {
        assert WellFormedPayment(db, db.payments[k]);
      }
    }
    assert Valid(dbs[0]) && Valid(dbs[1]);
  }

  /** An order of 100 USD is charged 1,600,000 IDR: the row stores the IDR amount, the gateway
      is asked for 1,600,000, and the customer is shown 100 USD. */
  lemma CreatePaymentInUsd(gateway: MidtransRequest -> GatewayResponse, millis: int, created: DateTime, updated: DateTime)
    requires forall req :: gateway(req) == Accepted(Some("token"), None)
    ensures var item := Entities.OrderItem(10, 1, 100.0, 100.0, Some(1));
      var order := Entities.Order([item], 100.0, 100.0, Some("USD"), Entities.Created);
      var product := Entities.Product("Oversized Tee", 100.0, "", "", "Tops", 20, Some(true));
      var db := Db(map[1 := order], map[], map[10 := product]);
      var r := CreatePayment(db, PaymentRequest(Some(1), None, None, None), 5, millis, created, updated, gateway);
      && r.Ok?
      && 5 in r.value.db.payments
      && r.value.db.payments[5].amount == Some(1600000.0)
      && r.value.db.payments[5].currency == "IDR"
      && r.value.response.amount == 100.0
      && r.value.response.status == "PENDING"
  {
    ToIdrExample();
  }
}
