/** Histories, each from an empty book, in which an order's state, or the money shown beside it, is
    not what happened: for every student, document, print option and price. */
module OrderCases {
  import opened Outcomes
  import opened OrderBook
  import opened OrderRuns
  import opened OrderTruth
  import opened OrderMoney
  import opened OrderSales

  // ── the same file, printed again ──────────────────────────────────────────

  /** A student with money, and an order of theirs paid from it. */
  function Funded(s: Sale, at: int, token: nat): Book {
    Book([Placed(s, Wallet, at)], [], [], [Entry(s.user, Credit, 2 * Due(s, Wallet), Foreign(token))],
         map[s.user := 2 * Due(s, Wallet)])
  }

  function FailedOnce(s: Sale, at: int, token: nat): Book {
    var paid := AfterPaying(Funded(s, at, token), s, 0, at);
    paid.(orders := [paid.orders[0].(state := PartiallyFailed)], tasks := [Bought(s, 0, at).(state := Failed)])
  }

  /** That print failed, and the same file was bought again: two orders, both telling the truth. */
  function Reprinting(s: Sale, at: int, again: int, token: nat): Book {
    var failed := FailedOnce(s, at, token);
    AfterPaying(failed.(orders := failed.orders + [Placed(s, Wallet, again)]), s, 1, again)
  }

  lemma FundingHappens(s: Sale, at: int, token: nat)
    requires Selling(s)
    ensures Reachable(Funded(s, at, token))
  {
    PlacingFirst(s, Wallet, at);
    LineIsQuoted(s, Wallet);
    var placed := Book([Placed(s, Wallet, at)], [], [], [], map[]);
    Then(placed, TopUp(s.user, 2 * Due(s, Wallet), token), Funded(s, at, token));
  }

  lemma FailingHappens(s: Sale, at: int, token: nat)
    requires Selling(s)
    ensures Reachable(FailedOnce(s, at, token))
  {
    FundingHappens(s, at, token);
    LineIsQuoted(s, Wallet);
    var funded := Funded(s, at, token);
    Paying(funded, s, 0, at);
    var paid := AfterPaying(funded, s, 0, at);
    assert paid.tasks == [Bought(s, 0, at)];
    assert paid.orders == [Settled(Placed(s, Wallet, at), OrderId(0), at)];
    Failing(paid, s, Wallet, OrderId(0), at);
  }

  /** Ordinary requests come to this from nothing. */
  lemma ReprintingHappens(s: Sale, at: int, again: int, token: nat)
    requires Selling(s)
    ensures Reachable(Reprinting(s, at, again, token))
  {
    FailingHappens(s, at, token);
    LineIsQuoted(s, Wallet);
    var failed := FailedOnce(s, at, token);
    Placing(failed, s, Wallet, again);
    var placed := failed.(orders := failed.orders + [Placed(s, Wallet, again)]);
    assert !Used(placed.entries, s.user, OrderId(1));
    Paying(placed, s, 1, again);
  }

  lemma WhatReprintingHolds(s: Sale, at: int, again: int, token: nat)
    ensures var book := Reprinting(s, at, again, token);
            && book.tasks == [Bought(s, 0, at).(state := Failed), Bought(s, 1, again)]
            && |book.orders| == 2 && |book.payments| == 2
            && book.orders[0] == Settled(Placed(s, Wallet, at), OrderId(0), at).(state := PartiallyFailed)
            && book.orders[1] == Settled(Placed(s, Wallet, again), OrderId(1), again)
            && book.payments == [WalletPayment(0, Due(s, Wallet)), WalletPayment(1, Due(s, Wallet))]
  {
  }

  lemma BothTellTheTruth(s: Sale, at: int, again: int, token: nat)
    ensures var book := Reprinting(s, at, again, token);
            AllTruthful(book.orders, book.tasks)
  {
    WhatReprintingHolds(s, at, again, token);
    var orders, tasks := Reprinting(s, at, again, token).orders, Reprinting(s, at, again, token).tasks;
    assert Owned(tasks[0], 0) && tasks[0].state == Failed && !Owned(tasks[1], 0);
    assert Truthful(orders[0], tasks, 0);
    assert Owned(tasks[1], 1) && tasks[1].state == Queued;
    assert Truthful(orders[1], tasks, 1);
  }

  lemma ItCanBeConfirmed(s: Sale, at: int, again: int, token: nat)
    ensures var book := Reprinting(s, at, again, token);
            && Confirm(book, 0).Ok?
            && (at <= again ==>
                  Confirm(book, 0).value.tasks == [Bought(s, 0, at).(state := Printed), Bought(s, 1, again)])
  {
    WhatReprintingHolds(s, at, again, token);
    var book := Reprinting(s, at, again, token);
    assert book.orders[0].items[0].document == Some(s.document);
    assert Confirmable(book.orders[0], book.tasks[0]);
    assert PaymentForOrder(book.payments, 0) == Some(0);
  }

  lemma StillWaiting(order: Order, tasks: seq<Task>, t: nat)
    requires t < |tasks| && Sees(order, tasks[t]) && !Terminal(tasks[t].state)
    ensures Derived(order, tasks) == Dispatched
  {
  }

  lemma SeesThisAlone(order: Order, tasks: seq<Task>)
    requires |tasks| == 2 && !Sees(order, tasks[0]) && Sees(order, tasks[1]) && tasks[1].state == Printed
    ensures Derived(order, tasks) == Completed
  {
  }

  lemma WhatConfirmingMakesOfIt(s: Sale, at: int, again: int, token: nat)
    requires at <= again
    ensures var book := Reprinting(s, at, again, token);
            && Confirm(book, 0).Ok?
            && var after := Confirm(book, 0).value;
               && after.tasks == [Bought(s, 0, at).(state := Printed), Bought(s, 1, again)]
               && |after.orders| == 2 && after.orders[0] == book.orders[0].(state := Dispatched)
  {
    ItCanBeConfirmed(s, at, again, token);
    WhatReprintingHolds(s, at, again, token);
    var book := Reprinting(s, at, again, token);
    var order, after := book.orders[0], Confirm(book, 0).value;
    assert order.items[0].document == Some(s.document);
    StillWaiting(order, after.tasks, 1);
    assert after.orders[0] == order.(state := Derived(order, after.tasks));
  }

  /** Confirming the first order reads the second's waiting print as its own: the order whose
      every page is in the student's hand goes back to DISPATCHED. */
  lemma ConfirmingAfterAReprintMisleads(s: Sale, at: int, again: int, token: nat)
    requires Selling(s) && at <= again
    ensures var book := Reprinting(s, at, again, token);
            && Reachable(book) && AllTruthful(book.orders, book.tasks) && Confirm(book, 0).Ok?
            && var after := Confirm(book, 0).value;
               && after.orders[0].state == Dispatched && AllPrinted(after.tasks, 0)
               && !Truthful(after.orders[0], after.tasks, 0)
  {
    ReprintingHappens(s, at, again, token);
    BothTellTheTruth(s, at, again, token);
    WhatReprintingHolds(s, at, again, token);
    WhatConfirmingMakesOfIt(s, at, again, token);
    var tasks := Confirm(Reprinting(s, at, again, token), 0).value.tasks;
    assert Owned(tasks[0], 0) && !Owned(tasks[1], 0);
  }

  /** That second print in the printer's hands, then out. */
  function ReprintSent(s: Sale, at: int, again: int, token: nat): Book {
    var book := Reprinting(s, at, again, token);
    book.(tasks := [book.tasks[0], Bought(s, 1, again).(state := SentToDevice, lease := Some(again + LEASE))])
  }

  lemma ReprintIsSent(s: Sale, at: int, again: int, token: nat)
    requires Selling(s)
    ensures Reachable(ReprintSent(s, at, again, token))
  {
    ReprintingHappens(s, at, again, token);
    WhatReprintingHolds(s, at, again, token);
    var book := Reprinting(s, at, again, token);
    assert book.tasks[1 := ReprintSent(s, at, again, token).tasks[1]] == ReprintSent(s, at, again, token).tasks;
    Then(book, Claim(1, again), ReprintSent(s, at, again, token));
  }

  /** The print of the order placed later comes out, and that order is COMPLETED: last week's failure
      was queued before it was placed and is none of its own. */
  lemma TheReprintCompletes(s: Sale, at: int, again: int, token: nat)
    requires Selling(s) && at < again
    ensures var book, op := ReprintSent(s, at, again, token), Move(1, Printed, again, Some(1));
            && Reachable(book) && Legal(book, op)
            && var after := Apply(book, op);
               && Reachable(after) && after.orders[1].state == Completed && after.orders[0].state == PartiallyFailed
  {
    ReprintIsSent(s, at, again, token);
    WhatReprintingHolds(s, at, again, token);
    var book, op := ReprintSent(s, at, again, token), Move(1, Printed, again, Some(1));
    var order := book.orders[1];
    assert order.items[0].document == Some(s.document);
    assert Candidate(order, s.document, s.shop.kiosk) && !InFlight(book.orders[0]);
    var tasks := book.tasks[1 := Reported(book.tasks[1], Printed, again)];
    SeesThisAlone(order, tasks);
    var after := book.(orders := book.orders[1 := order.(state := Completed)], tasks := tasks);
    assert Rederive(book.orders, tasks, 1) == after.orders;
    Then(book, op, after);
  }

  // ── the same file, bought twice at once ───────────────────────────────────

  /** Two orders over one file, both paid and neither printed, and the machine has taken up the first. */
  function Twice(s: Sale, at: int, again: int, token: nat): Book {
    var paid := AfterPaying(Funded(s, at, token), s, 0, at);
    var both := AfterPaying(paid.(orders := paid.orders + [Placed(s, Wallet, again)]), s, 1, again);
    both.(tasks := [InHandSince(s, again, at), Bought(s, 1, again)])
  }

  function InHandSince(s: Sale, now: int, at: int): Task {
    Bought(s, 0, at).(state := SentToDevice, lease := Some(now + LEASE))
  }

  lemma BuyingTwiceHappens(s: Sale, at: int, again: int, token: nat)
    requires Selling(s)
    ensures Reachable(Twice(s, at, again, token))
  {
    FundingHappens(s, at, token);
    LineIsQuoted(s, Wallet);
    var funded := Funded(s, at, token);
    Paying(funded, s, 0, at);
    var paid := AfterPaying(funded, s, 0, at);
    Placing(paid, s, Wallet, again);
    var placed := paid.(orders := paid.orders + [Placed(s, Wallet, again)]);
    assert !Used(placed.entries, s.user, OrderId(1));
    Paying(placed, s, 1, again);
    var both := AfterPaying(placed, s, 1, again);
    assert both.tasks[0 := InHandSince(s, again, at)] == Twice(s, at, again, token).tasks;
    Then(both, Claim(0, again), Twice(s, at, again, token));
  }

  lemma WhatTwiceHolds(s: Sale, at: int, again: int, token: nat)
    ensures var book := Twice(s, at, again, token);
            && |book.orders| == 2
            && book.orders[0] == Settled(Placed(s, Wallet, at), OrderId(0), at)
            && book.orders[1] == Settled(Placed(s, Wallet, again), OrderId(1), again)
  {
  }

  lemma BothWaitTruthfully(s: Sale, at: int, again: int, token: nat)
    ensures var book := Twice(s, at, again, token);
            AllTruthful(book.orders, book.tasks)
  {
    WhatTwiceHolds(s, at, again, token);
    var orders, tasks := Twice(s, at, again, token).orders, Twice(s, at, again, token).tasks;
    assert Owned(tasks[0], 0) && !Owned(tasks[1], 0) && Truthful(orders[0], tasks, 0);
    assert Owned(tasks[1], 1) && !Owned(tasks[0], 1) && Truthful(orders[1], tasks, 1);
  }

  /** The first print comes out, and the second order hears of it, having been paid last: the first
      stays PAID with its every page in the student's hand. */
  lemma TheOtherOrderHears(s: Sale, at: int, again: int, token: nat)
    requires Selling(s) && at <= again
    ensures var book, op := Twice(s, at, again, token), Move(0, Printed, again, Some(1));
            && Reachable(book) && AllTruthful(book.orders, book.tasks) && Legal(book, op)
            && var after := Apply(book, op);
               && Reachable(after) && after.orders[0].state == OrderState.Paid && AllPrinted(after.tasks, 0)
               && !Truthful(after.orders[0], after.tasks, 0)
  {
    BuyingTwiceHappens(s, at, again, token);
    BothWaitTruthfully(s, at, again, token);
    WhatTwiceHolds(s, at, again, token);
    var book, op := Twice(s, at, again, token), Move(0, Printed, again, Some(1));
    assert book.orders[1].items[0].document == Some(s.document);
    assert Candidate(book.orders[1], s.document, s.shop.kiosk);
    assert Report(book, 0, Printed, again, Some(1)).Ok?;
    Then(book, op, Apply(book, op));
  }

  // ── two checkouts for one order ───────────────────────────────────────────

  /** The first checkout was paid and part of it given back after the print failed; the second,
      opened meanwhile, never was paid. */
  function TwoCheckouts(s: Sale, at: int, gatewayId: nat, part: int): Book {
    var order := Settled(Placed(s, Gateway, at), Foreign(gatewayId), at).(state := PartiallyFailed);
    Book([order], [Bought(s, 0, at).(state := Failed)],
         [CapturedRow(s, gatewayId).(refunded := part, status := PartiallyRefunded), Opened(s)], [], map[])
  }

  lemma TwoCheckoutsHappen(s: Sale, at: int, gatewayId: nat, part: int)
    requires Selling(s) && 0 < part < Due(s, Gateway)
    ensures Reachable(TwoCheckouts(s, at, gatewayId, part))
  {
    PlacingFirst(s, Gateway, at);
    var placed := Book([Placed(s, Gateway, at)], [], [], [], map[]);
    OpeningCheckout(placed, s, at);
    assert [] + [Opened(s)] == [Opened(s)];
    OpeningCheckout(placed.(payments := [Opened(s)]), s, at);
    Capturing(s, at, gatewayId, [Opened(s)]);
    var paid := Book([Settled(Placed(s, Gateway, at), Foreign(gatewayId), at)], [Bought(s, 0, at)],
                     [CapturedRow(s, gatewayId)] + [Opened(s)], [], map[]);
    Failing(paid, s, Gateway, Foreign(gatewayId), at);
    var failed := paid.(orders := [paid.orders[0].(state := PartiallyFailed)],
                        tasks := [Bought(s, 0, at).(state := Failed)]);
    RefundingPart(failed, s, gatewayId, part, 0, at);
    assert failed.payments[0 := CapturedRow(s, gatewayId).(refunded := part, status := PartiallyRefunded)]
        == TwoCheckouts(s, at, gatewayId, part).payments;
  }

  /** Some of its money has gone back, and the order can still be confirmed as printed in full. */
  lemma ConfirmingAfterAPartialRefund(s: Sale, at: int, gatewayId: nat, part: int)
    requires Selling(s) && 0 < part < Due(s, Gateway)
    ensures var book := TwoCheckouts(s, at, gatewayId, part);
            && Reachable(book) && MoneyWentBack(book.payments, 0) && Confirm(book, 0).Ok?
  {
    TwoCheckoutsHappen(s, at, gatewayId, part);
    var book := TwoCheckouts(s, at, gatewayId, part);
    assert book.orders[0].items[0].document == Some(s.document);
    assert Confirmable(book.orders[0], book.tasks[0]);
    assert PaymentForOrder(book.payments, 0) == Some(1);
    assert book.payments[0].order == 0 && book.payments[0].refunded > 0;
  }

  // ── a failure reported late ───────────────────────────────────────────────

  function PartlyRefunded(s: Sale, at: int, gatewayId: nat, part: int): Book {
    Book([Settled(Placed(s, Gateway, at), Foreign(gatewayId), at)], [Bought(s, 0, at)],
         [CapturedRow(s, gatewayId).(refunded := part, status := PartiallyRefunded)], [], map[])
  }

  /** The gateway reports a failure after part of the money went back: the row stops counting as
      settled, although the rest of the money is still held and the order is still to be printed. */
  lemma ALateFailureUnsettles(s: Sale, at: int, gatewayId: nat, part: int)
    requires Selling(s) && 0 < part < Due(s, Gateway)
    ensures var before := PartlyRefunded(s, at, gatewayId, part);
            && Reachable(before) && Legal(before, GatewayFailed(0)) && IsSettled(before.payments[0])
            && var after := Apply(before, GatewayFailed(0));
               && Reachable(after) && !IsSettled(after.payments[0]) && Arrived(after.payments[0])
               && after.payments[0].refunded < after.payments[0].amount && after.orders[0].state == Paid
  {
    PlacingFirst(s, Gateway, at);
    var placed := Book([Placed(s, Gateway, at)], [], [], [], map[]);
    OpeningCheckout(placed, s, at);
    assert [] + [Opened(s)] == [Opened(s)] && [Opened(s)] + [] == [Opened(s)];
    Capturing(s, at, gatewayId, []);
    assert [CapturedRow(s, gatewayId)] + [] == [CapturedRow(s, gatewayId)];
    var paid := Book([Settled(Placed(s, Gateway, at), Foreign(gatewayId), at)], [Bought(s, 0, at)],
                     [CapturedRow(s, gatewayId)], [], map[]);
    RefundingPart(paid, s, gatewayId, part, 0, at);
    var before := PartlyRefunded(s, at, gatewayId, part);
    assert paid.payments[0 := before.payments[0]] == before.payments;
    Then(before, GatewayFailed(0), Apply(before, GatewayFailed(0)));
  }

  // ── money that comes for an expired order ─────────────────────────────────

  /** A capture is kept exactly when it is this row's first, the gateway's id is nobody else's, and
      the order still awaits payment and has not gone stale; kept, it pays the order. */
  lemma CaptureKeptExactlyWhen(book: Book, pid: nat, gatewayId: nat, now: int, stamp: int)
    requires pid < |book.payments| && book.payments[pid].order < |book.orders|
    ensures var payment, r := book.payments[pid], Capture(book, pid, gatewayId, now, stamp);
            var order := book.orders[payment.order];
            && (r.Ok? <==>
                  && payment.status != Captured
                  && (forall q :: 0 <= q < |book.payments| && q != pid ==>
                        book.payments[q].gatewayId != Some(gatewayId))
                  && order.state == AwaitingPayment && !Stale(order, now))
            && (r.Ok? ==>
                  && IsSettled(r.value.payments[pid])
                  && r.value.orders[payment.order].reference == Some(Foreign(gatewayId)))
  {
    var payment := book.payments[pid];
    AwaitingIsPayableOrExpirable(book.orders[payment.order], now);
    var others := book.payments[pid := payment.(gatewayId := None)];
    assert forall q :: 0 <= q < |others| && q != pid ==> others[q] == book.payments[q];
  }

  /** So in any state a run can reach the order alone decides, its row being new to the gateway. */
  lemma FreshCaptureKeptExactlyWhen(book: Book, pid: nat, gatewayId: nat, now: int, stamp: int)
    requires PaymentsFit(book) && pid < |book.payments|
    requires forall q :: 0 <= q < |book.payments| ==> book.payments[q].gatewayId != Some(gatewayId)
    requires book.payments[pid].order < |book.orders| && OrderWellFormed(book.orders[book.payments[pid].order])
    ensures var order := book.orders[book.payments[pid].order];
            Capture(book, pid, gatewayId, now, stamp).Ok? <==> order.state == AwaitingPayment && !Stale(order, now)
  {
    assert PaymentFits(book.orders, book.payments[pid]);
    CaptureKeptExactlyWhen(book, pid, gatewayId, now, stamp);
  }

  /** Over every run: money that comes for an order that has expired is never recorded. */
  lemma ExpiredOrdersAreNeverPaid(book: Book, ops: seq<Op>, id: nat)
    requires Consistent(book) && BooksBalance(book) && LegalRun(book, ops)
    requires id < |book.orders| && book.orders[id].state == Expired
    ensures var after := Run(book, ops);
            && id < |after.orders| && after.orders[id].state == Expired
            && forall p :: 0 <= p < |after.payments| && after.payments[p].order == id ==> !Arrived(after.payments[p])
  {
    NoOrderGoesBack(book, ops, id);
    RunsBalance(book, ops);
    var after := Run(book, ops);
    assert OrderWellFormed(after.orders[id]);
    forall p | 0 <= p < |after.payments| && after.payments[p].order == id ensures !Arrived(after.payments[p]) {
      assert PaymentFits(after.orders, after.payments[p]);
    }
  }

  /** An order nobody paid in time, its checkout still open. */
  function Late(s: Sale, at: int): Book {
    Book([Placed(s, Gateway, at).(state := Expired)], [], [Opened(s)], [], map[])
  }

  /** The order is placed, its checkout opened, its time runs out, and then the money comes: the row
      stays as it was opened, and nothing of the capture is kept. */
  lemma ALateCaptureIsRolledBack(s: Sale, at: int, later: int, gatewayId: nat, now: int, stamp: int)
    requires Selling(s) && at + ORDER_LIFETIME <= later && at <= stamp
    ensures Reachable(Late(s, at))
    ensures var op := Settle(0, gatewayId, now, stamp);
            && Legal(Late(s, at), op) && Apply(Late(s, at), op) == Late(s, at)
            && Capture(Late(s, at), 0, gatewayId, now, stamp) == Refused(OrderNotOpen)
            && Late(s, at).payments[0].status == Created && Late(s, at).payments[0].gatewayId == None
  {
    PlacingFirst(s, Gateway, at);
    var placed := Book([Placed(s, Gateway, at)], [], [], [], map[]);
    OpeningCheckout(placed, s, at);
    assert [] + [Opened(s)] == [Opened(s)];
    var waiting := placed.(payments := [Opened(s)]);
    assert ExpireStale(waiting.orders, later) == Late(s, at).orders;
    Then(waiting, ExpireOld(later), Late(s, at));
  }
}
