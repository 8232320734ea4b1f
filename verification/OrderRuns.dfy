/** Every history of the order tables, and the life of one order through it. */
module OrderRuns {
  import opened Outcomes
  import opened OrderBook

  datatype Op =
    | PlaceOrder(user: nat, shop: Shop, requests: seq<Request>, means: PaymentMethod, now: int, stamp: int)
    | Checkout(id: nat)
    | Settle(pid: nat, gatewayId: nat, now: int, stamp: int)
    | GatewayFailed(pid: nat)
    | PayFromWallet(id: nat, now: int, stamp: int)
    | TopUp(user: nat, amount: int, token: nat)
    | GiveBack(pid: nat, amount: int, toWallet: bool, key: nat, now: int)
    | Claim(tid: nat, now: int)
    | Renew(tid: nat, now: int)
    | Move(tid: nat, state: TaskState, now: int, choice: Option<nat>)
    | Block(tid: nat)
    | Sweep(now: int, lost: seq<nat>, choices: seq<Option<nat>>)
    | ConfirmPrinted(id: nat)
    | ExpireOld(now: int)

  /** The rows an operation names exist, a gateway's word is about a payment opened there, lookups
      are answered as the database may answer, and an order is paid in a transaction that begins no
      earlier than the one that placed it. */
  predicate Legal(book: Book, op: Op) {
    match op
    case PlaceOrder(_, _, _, _, _, _) => true
    case Checkout(id) => id < |book.orders|
    case Settle(pid, _, _, stamp) =>
      && pid < |book.payments| && book.payments[pid].source == Gateway && book.payments[pid].order < |book.orders|
      && stamp >= book.orders[book.payments[pid].order].createdAt
    case GatewayFailed(pid) => pid < |book.payments| && book.payments[pid].source == Gateway
    case PayFromWallet(id, _, stamp) => id < |book.orders| && stamp >= book.orders[id].createdAt
    case TopUp(_, _, _) => true
    case GiveBack(pid, _, _, _, _) => pid < |book.payments| && book.payments[pid].order < |book.orders|
    case Claim(tid, _) => tid < |book.tasks|
    case Renew(tid, _) => tid < |book.tasks|
    case Move(tid, state, _, choice) =>
      && tid < |book.tasks| && (state == Printing || state == Printed || state == Failed)
      && IsOwnerOfPrint(book.orders, book.tasks[tid].job.document, book.tasks[tid].job.kiosk, choice)
    case Block(tid) => tid < |book.tasks|
    case Sweep(now, lost, choices) =>
      && ListsTheLost(book.tasks, now, lost)
      && OwnersPicked(book.orders, FailExpired(book.tasks, now), lost, choices)
    case ConfirmPrinted(id) => id < |book.orders|
    case ExpireOld(_) => true
  }

  function OrElse(r: Result<Book, Refusal>, book: Book): Book {
    if r.Ok? then r.value else book
  }

  /** One request. A refused one is rolled back. */
  function Apply(book: Book, op: Op): Book
    requires Legal(book, op)
  {
    match op
    case PlaceOrder(user, shop, requests, means, now, stamp) =>
      OrElse(Place(book, user, shop, requests, means, now, stamp), book)
    case Checkout(id) => OrElse(OpenCheckout(book, id), book)
    case Settle(pid, gatewayId, now, stamp) => OrElse(Capture(book, pid, gatewayId, now, stamp), book)
    case GatewayFailed(pid) => OrElse(RecordFailure(book, pid), book)
    case PayFromWallet(id, now, stamp) => OrElse(PayWallet(book, id, now, stamp), book)
    case TopUp(user, amount, token) => OrElse(CreditWallet(book, user, amount, Foreign(token)), book)
    case GiveBack(pid, amount, toWallet, key, now) =>
      OrElse(RefundPayment(book, pid, amount, toWallet, key, now), book)
    case Claim(tid, now) => OrElse(ClaimTask(book, tid, now), book)
    case Renew(tid, now) => RenewLease(book, tid, now)
    case Move(tid, state, now, choice) => OrElse(Report(book, tid, state, now, choice), book)
    case Block(tid) => OrElse(ReportBlocked(book, tid), book)
    case Sweep(now, _, choices) => SettleLost(book, now, choices)
    case ConfirmPrinted(id) => OrElse(Confirm(book, id), book)
    case ExpireOld(now) => book.(orders := ExpireStale(book.orders, now))
  }

  predicate LegalRun(book: Book, ops: seq<Op>)
    decreases |ops|
  {
    ops == [] || (Legal(book, ops[0]) && LegalRun(Apply(book, ops[0]), ops[1..]))
  }

  function Run(book: Book, ops: seq<Op>): Book
    requires LegalRun(book, ops)
    decreases |ops|
  {
    if ops == [] then book else Run(Apply(book, ops[0]), ops[1..])
  }

  // ── what is true of every row ─────────────────────────────────────────────

  predicate WasPaid(order: Order) { order.paidAt.Some? }

  predicate AllDocuments(items: seq<Item>) {
    items != [] && forall i :: 0 <= i < |items| ==> items[i].document.Some?
  }

  /** An order that was paid is in flight, printed, partly failed or given back; any other still
      awaits payment or expired. Every order has lines, each over a document. */
  predicate OrderWellFormed(order: Order) {
    && AllDocuments(order.items)
    && order.state != Draft
    && (WasPaid(order) <==> order.state != AwaitingPayment && order.state != Expired)
    && (order.reference.Some? <==> WasPaid(order))
  }

  predicate IsSettled(payment: Payment) {
    payment.status == Captured || payment.status == PartiallyRefunded || payment.status == FullyRefunded
  }

  /** Money that arrived arrived for an order that was paid, and one that has money left to give
      back is not closed as refunded. */
  predicate PaymentAttached(orders: seq<Order>, payment: Payment) {
    && payment.order < |orders|
    && (IsSettled(payment) ==> WasPaid(orders[payment.order]))
    && (IsSettled(payment) && payment.status != FullyRefunded ==> orders[payment.order].state != Refunded)
  }

  predicate SettleApart(a: Payment, b: Payment) {
    IsSettled(a) && IsSettled(b) ==> a.order != b.order
  }

  predicate Consistent(book: Book) {
    && (forall i :: 0 <= i < |book.orders| ==> OrderWellFormed(book.orders[i]))
    && (forall p :: 0 <= p < |book.payments| ==> PaymentAttached(book.orders, book.payments[p]))
    && (forall p, q :: 0 <= p < q < |book.payments| ==> SettleApart(book.payments[p], book.payments[q]))
  }

  // ── one step in the life of an order ──────────────────────────────────────

  /** What was agreed when the order was placed never changes. */
  predicate SameTerms(a: Order, b: Order) {
    b == a.(state := b.state, paidAt := b.paidAt, reference := b.reference, refundedAt := b.refundedAt)
  }

  predicate SamePayment(a: Order, b: Order) { a.paidAt == b.paidAt && a.reference == b.reference }

  predicate MayFollow(a: OrderState, b: OrderState) {
    match a
    case Draft => b == Draft
    case AwaitingPayment => b == AwaitingPayment || b == Paid || b == Expired
    case Paid => b == Paid || b == Dispatched || b == Completed || b == PartiallyFailed || b == Refunded
    case Dispatched => b == Dispatched || b == Completed || b == PartiallyFailed || b == Refunded
    case Completed => b == Completed || b == Refunded
    case PartiallyFailed => b == PartiallyFailed || b == Dispatched || b == Completed || b == Refunded
    case Expired => b == Expired
    case Refunded => b == Refunded
  }

  predicate Moved(a: Order, b: Order) {
    && SameTerms(a, b) && MayFollow(a.state, b.state)
    && (WasPaid(a) ==> SamePayment(a, b))
    && (a.state != AwaitingPayment ==> SamePayment(a, b))
    && (a.state == Refunded ==> b == a)
    && (b.refundedAt != a.refundedAt ==> b.state == Refunded)
  }

  predicate AllMoved(before: seq<Order>, after: seq<Order>) {
    |before| <= |after| && forall i :: 0 <= i < |before| ==> Moved(before[i], after[i])
  }

  /** Following its prints, an order in flight may land; nothing else about any order changes. */
  predicate Followed(a: Order, b: Order) {
    && b == a.(state := b.state)
    && (if InFlight(a)
        then MayFollow(a.state, b.state) && b.state != Refunded
        else b.state == a.state)
  }

  predicate AllFollowed(before: seq<Order>, after: seq<Order>) {
    |before| == |after| && forall i :: 0 <= i < |before| ==> Followed(before[i], after[i])
  }

  lemma RefreshFollows(orders: seq<Order>, tasks: seq<Task>, document: nat, kiosk: nat, choice: Option<nat>)
    requires IsOwnerOfPrint(orders, document, kiosk, choice)
    ensures AllFollowed(orders, Refresh(orders, tasks, choice))
  {
  }

  lemma {:induction false} SweepFollows(orders: seq<Order>, tasks: seq<Task>, lost: seq<nat>, choices: seq<Option<nat>>)
    requires OwnersPicked(orders, tasks, lost, choices)
    ensures AllFollowed(orders, RefreshEach(orders, tasks, choices))
    decreases |choices|
  {
    if choices != [] {
      var n := |choices| - 1;
      OwnersPickedBefore(orders, tasks, lost, choices);
      SweepFollows(orders, tasks, lost[..n], choices[..n]);
      var job := tasks[lost[n]].job;
      RefreshFollows(RefreshEach(orders, tasks, choices[..n]), tasks, job.document, job.kiosk, choices[n]);
    }
  }

  lemma OwnersPickedBefore(orders: seq<Order>, tasks: seq<Task>, lost: seq<nat>, choices: seq<Option<nat>>)
    requires OwnersPicked(orders, tasks, lost, choices) && choices != []
    ensures OwnersPicked(orders, tasks, lost[..|lost| - 1], choices[..|choices| - 1])
  {
    var n := |choices| - 1;
    forall k | 0 <= k < n ensures choices[..n][..k] == choices[..k] {}
  }

  lemma CheckedItemsAreDocuments(requests: seq<Request>, user: nat, prices: K.Prices)
    ensures var items := CheckedItems(requests, user, prices);
            (items.Ok? ==> |items.value| == |requests|)
            && (forall i | items.Ok? && 0 <= i < |requests| :: items.value[i].document.Some?)
  {
  }

  lemma PlaceStep(book: Book, op: Op)
    requires Consistent(book) && op.PlaceOrder?
    ensures AllMoved(book.orders, Apply(book, op).orders) && Consistent(Apply(book, op))
  {
    CheckedItemsAreDocuments(op.requests, op.user, op.shop.prices);
  }

  /** Marking an order paid moves it alone, and only from AWAITING_PAYMENT. */
  lemma MarkPaidStep(book: Book, id: nat, reference: Reference, now: int, stamp: int)
    requires id < |book.orders|
    requires forall i :: 0 <= i < |book.orders| ==> OrderWellFormed(book.orders[i])
    ensures var r := MarkPaid(book, id, reference, now, stamp);
            r.Ok? ==>
              && AllMoved(book.orders, r.value.orders)
              && book.orders[id].state == AwaitingPayment && WasPaid(r.value.orders[id])
              && forall i :: 0 <= i < |book.orders| ==> OrderWellFormed(r.value.orders[i])
  {
  }

  lemma PayFromWalletStep(book: Book, op: Op)
    requires Consistent(book) && Legal(book, op) && op.PayFromWallet?
    ensures AllMoved(book.orders, Apply(book, op).orders) && Consistent(Apply(book, op))
  {
    var r := PayWallet(book, op.id, op.now, op.stamp);
    if r.Ok? {
      var order := book.orders[op.id];
      var recorded := Debit(book, order.user, order.total, OrderId(op.id)).value
        .(payments := book.payments + [WalletPayment(op.id, order.total)]);
      MarkPaidStep(recorded, op.id, OrderId(op.id), op.now, op.stamp);
      PaymentsStayAttached(book, r.value, |book.payments|, op.id);
    }
  }

  lemma SettleStep(book: Book, op: Op)
    requires Consistent(book) && Legal(book, op) && op.Settle?
    ensures AllMoved(book.orders, Apply(book, op).orders) && Consistent(Apply(book, op))
  {
    var r := Capture(book, op.pid, op.gatewayId, op.now, op.stamp);
    if r.Ok? {
      var payment := book.payments[op.pid];
      var captured := payment.(status := Captured, gatewayId := Some(op.gatewayId));
      var recorded := book.(payments := book.payments[op.pid := captured]);
      MarkPaidStep(recorded, payment.order, Foreign(op.gatewayId), op.now, op.stamp);
      PaymentsStayAttached(book, r.value, op.pid, payment.order);
    }
  }

  /** One more settled payment, for an order nothing had settled. */
  lemma PaymentsStayAttached(book: Book, after: Book, k: nat, id: nat)
    requires Consistent(book) && AllMoved(book.orders, after.orders)
    requires id < |book.orders| && !WasPaid(book.orders[id])
    requires WasPaid(after.orders[id]) && after.orders[id].state != Refunded
    requires forall i :: 0 <= i < |book.orders| && i != id ==> after.orders[i] == book.orders[i]
    requires |book.payments| <= |after.payments| <= |book.payments| + 1
    requires forall p :: 0 <= p < |book.payments| && p != k ==> after.payments[p] == book.payments[p]
    requires |after.payments| > |book.payments| ==> k == |book.payments|
    requires k < |after.payments| && after.payments[k].order == id
    ensures forall p :: 0 <= p < |after.payments| ==> PaymentAttached(after.orders, after.payments[p])
    ensures forall p, q :: 0 <= p < q < |after.payments| ==> SettleApart(after.payments[p], after.payments[q])
  {
  }

  lemma ApplyRefundMoves(order: Order, refunded: int, paid: int, now: int)
    requires OrderWellFormed(order) && WasPaid(order) && order.state != Refunded
    ensures var after := ApplyRefund(order, refunded, paid, now);
            Moved(order, after) && OrderWellFormed(after) && (refunded < paid ==> after == order)
  {
  }

  lemma RefundStep(book: Book, op: Op)
    requires Consistent(book) && Legal(book, op) && op.GiveBack?
    ensures AllMoved(book.orders, Apply(book, op).orders) && Consistent(Apply(book, op))
  {
    var r := RefundPayment(book, op.pid, op.amount, op.toWallet, op.key, op.now);
    if r.Ok? {
      var payment, after := book.payments[op.pid], r.value;
      var o := payment.order;
      assert PaymentAttached(book.orders, payment) && IsSettled(payment);
      ApplyRefundMoves(book.orders[o], payment.refunded + op.amount, payment.amount, op.now);
      assert after.orders
          == book.orders[o := ApplyRefund(book.orders[o], payment.refunded + op.amount, payment.amount, op.now)];
      forall i | 0 <= i < |book.orders|
        ensures Moved(book.orders[i], after.orders[i]) && OrderWellFormed(after.orders[i])
      {
        assert OrderWellFormed(book.orders[i]);
      }
      forall p | 0 <= p < |book.payments| ensures PaymentAttached(after.orders, after.payments[p]) {
        assert PaymentAttached(book.orders, book.payments[p]);
        assert p < op.pid ==> SettleApart(book.payments[p], payment);
        assert p > op.pid ==> SettleApart(payment, book.payments[p]);
      }
      forall p, q | 0 <= p < q < |book.payments| ensures SettleApart(after.payments[p], after.payments[q]) {
        assert SettleApart(book.payments[p], book.payments[q]);
      }
    }
  }

  /** Orders that only follow their prints keep everything the payments rely on. */
  lemma FollowingKeepsConsistent(book: Book, after: Book)
    requires Consistent(book) && AllFollowed(book.orders, after.orders) && after.payments == book.payments
    ensures AllMoved(book.orders, after.orders) && Consistent(after)
  {
  }

  lemma ReportStep(book: Book, op: Op)
    requires Consistent(book) && Legal(book, op) && op.Move?
    ensures AllMoved(book.orders, Apply(book, op).orders) && Consistent(Apply(book, op))
  {
    var job := book.tasks[op.tid].job;
    var tasks := book.tasks[op.tid := Reported(book.tasks[op.tid], op.state, op.now)];
    RefreshFollows(book.orders, tasks, job.document, job.kiosk, op.choice);
    FollowingKeepsConsistent(book, Apply(book, op));
  }

  lemma SweepStep(book: Book, op: Op)
    requires Consistent(book) && Legal(book, op) && op.Sweep?
    ensures AllMoved(book.orders, Apply(book, op).orders) && Consistent(Apply(book, op))
  {
    SweepFollows(book.orders, FailExpired(book.tasks, op.now), op.lost, op.choices);
    FollowingKeepsConsistent(book, Apply(book, op));
  }

  lemma ConfirmStep(book: Book, op: Op)
    requires Consistent(book) && Legal(book, op) && op.ConfirmPrinted?
    ensures AllMoved(book.orders, Apply(book, op).orders) && Consistent(Apply(book, op))
  {
    var r := Confirm(book, op.id);
    if r.Ok? {
      var after := r.value;
      forall i | 0 <= i < |book.orders|
        ensures Moved(book.orders[i], after.orders[i]) && OrderWellFormed(after.orders[i])
      {
        assert OrderWellFormed(book.orders[i]);
      }
      forall p | 0 <= p < |book.payments| ensures PaymentAttached(after.orders, after.payments[p]) {
        assert PaymentAttached(book.orders, book.payments[p]);
      }
    }
  }

  /** Operations on tasks alone, or on rows nothing was paid through. */
  lemma QuietStep(book: Book, op: Op)
    requires Consistent(book) && Legal(book, op)
    requires op.TopUp? || op.Claim? || op.Renew? || op.Block?
    ensures AllMoved(book.orders, Apply(book, op).orders) && Consistent(Apply(book, op))
  {
    assert Apply(book, op).orders == book.orders && Apply(book, op).payments == book.payments;
  }

  lemma UnpaidRowStep(book: Book, op: Op)
    requires Consistent(book) && Legal(book, op) && (op.Checkout? || op.GatewayFailed?)
    ensures AllMoved(book.orders, Apply(book, op).orders) && Consistent(Apply(book, op))
  {
    var after := Apply(book, op);
    assert after.orders == book.orders;
    forall p, q | 0 <= p < q < |after.payments| ensures SettleApart(after.payments[p], after.payments[q]) {
      assert q < |book.payments| ==> SettleApart(book.payments[p], book.payments[q]);
    }
  }

  lemma ExpireStep(book: Book, op: Op)
    requires Consistent(book) && Legal(book, op) && op.ExpireOld?
    ensures AllMoved(book.orders, Apply(book, op).orders) && Consistent(Apply(book, op))
  {
  }

  /** Every operation keeps the tables consistent and moves each order by at most one legal step. */
  lemma StepMoves(book: Book, op: Op)
    requires Consistent(book) && Legal(book, op)
    ensures AllMoved(book.orders, Apply(book, op).orders)
    ensures Consistent(Apply(book, op))
  {
    match op {
      case PlaceOrder(_, _, _, _, _, _) => PlaceStep(book, op);
      case PayFromWallet(_, _, _) => PayFromWalletStep(book, op);
      case Settle(_, _, _, _) => SettleStep(book, op);
      case GiveBack(_, _, _, _, _) => RefundStep(book, op);
      case Move(_, _, _, _) => ReportStep(book, op);
      case Sweep(_, _, _) => SweepStep(book, op);
      case ConfirmPrinted(_) => ConfirmStep(book, op);
      case ExpireOld(_) => ExpireStep(book, op);
      case Checkout(_) => UnpaidRowStep(book, op);
      case GatewayFailed(_) => UnpaidRowStep(book, op);
      case _ => QuietStep(book, op);
    }
  }

  // ── whole runs ────────────────────────────────────────────────────────────

  /** What can be said of one order at any two instants of one history. */
  predicate Reaches(a: Order, b: Order) {
    && SameTerms(a, b)
    && (WasPaid(a) ==> SamePayment(a, b))
    && (a.state != AwaitingPayment ==> b.state != AwaitingPayment)
    && (b.state == Paid ==> a.state == Paid || a.state == AwaitingPayment)
    && (b.state == Expired ==> a.state == Expired || a.state == AwaitingPayment)
    && (a.state == Expired ==> b.state == Expired)
    && (a.state == Completed ==> b.state == Completed || b.state == Refunded)
    && (a.state == Refunded ==> b == a)
  }

  /** EXPIRED comes only from AWAITING_PAYMENT and is final, PAID is never come back to,
      COMPLETED is left only for REFUNDED, and a refunded order is never touched again. */
  lemma {:induction false} NoOrderGoesBack(book: Book, ops: seq<Op>, i: nat)
    requires Consistent(book) && LegalRun(book, ops) && i < |book.orders|
    ensures var after := Run(book, ops);
            Consistent(after) && i < |after.orders| && Reaches(book.orders[i], after.orders[i])
    decreases |ops|
  {
    if ops != [] {
      StepMoves(book, ops[0]);
      var next := Apply(book, ops[0]);
      assert Moved(book.orders[i], next.orders[i]);
      NoOrderGoesBack(next, ops[1..], i);
    }
  }

  /** How many steps of a run turn the order PAID. */
  function TimesPaid(book: Book, ops: seq<Op>, i: nat): nat
    requires LegalRun(book, ops)
    decreases |ops|
  {
    if ops == [] then 0
    else
      var next := Apply(book, ops[0]);
      var here := if i < |next.orders| && next.orders[i].state == Paid
                     && !(i < |book.orders| && book.orders[i].state == Paid) then 1 else 0;
      here + TimesPaid(next, ops[1..], i)
  }

  lemma NewOrdersAwait(book: Book, op: Op, i: nat)
    requires Consistent(book) && Legal(book, op)
    ensures |book.orders| <= i < |Apply(book, op).orders| ==> Apply(book, op).orders[i].state == AwaitingPayment
  {
    if op.Sweep? {
      SweepFollows(book.orders, FailExpired(book.tasks, op.now), op.lost, op.choices);
    }
  }

  lemma {:induction false} PaidAtMostOnce(book: Book, ops: seq<Op>, i: nat)
    requires Consistent(book) && LegalRun(book, ops)
    ensures TimesPaid(book, ops, i) <= 1
    ensures i < |book.orders| && WasPaid(book.orders[i]) ==> TimesPaid(book, ops, i) == 0
    decreases |ops|
  {
    if ops != [] {
      StepMoves(book, ops[0]);
      var next := Apply(book, ops[0]);
      if i < |book.orders| {
        assert Moved(book.orders[i], next.orders[i]);
        assert OrderWellFormed(book.orders[i]) && OrderWellFormed(next.orders[i]);
      } else if i < |next.orders| {
        NewOrdersAwait(book, ops[0], i);
      }
      PaidAtMostOnce(next, ops[1..], i);
    }
  }

  /** At every instant an order awaiting payment can be paid or be expired, never both or neither;
      no other order can be either. */
  lemma AwaitingIsPayableOrExpirable(order: Order, now: int)
    ensures order.state == AwaitingPayment ==> (RequirePayable(order, now).None? <==> !Stale(order, now))
    ensures order.state != AwaitingPayment ==> RequirePayable(order, now).Some? && !Stale(order, now)
  {
  }
}
