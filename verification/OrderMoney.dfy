/** Money over every history of the order tables: what wallets gave up for printing is what
    wallet orders cost, and each paid order has one payment to refund against. */
module OrderMoney {
  import opened Outcomes
  import opened OrderBook
  import opened OrderRuns
  import opened OrderPrints

  // ── sums and counts over the tables ───────────────────────────────────────

  function Spent(entry: Entry): int { if entry.kind == Spend then -entry.amount else 0 }

  /** What wallets have been debited for printing. */
  function SpentOnPrinting(entries: seq<Entry>): int {
    if entries == [] then 0 else SpentOnPrinting(entries[..|entries| - 1]) + Spent(entries[|entries| - 1])
  }

  function Taken(order: Order): int { if order.means == Wallet && WasPaid(order) then order.total else 0 }

  /** What the wallet orders that were paid cost. */
  function WalletTakings(orders: seq<Order>): int {
    if orders == [] then 0 else WalletTakings(orders[..|orders| - 1]) + Taken(orders[|orders| - 1])
  }

  /** The money arrived: the row says so, or some of it has been given back since. */
  predicate Arrived(payment: Payment) { IsSettled(payment) || payment.refunded > 0 }

  function Pays(payment: Payment, id: nat): nat { if payment.order == id && Arrived(payment) then 1 else 0 }

  /** How many payments have arrived for this order. */
  function PaidTimes(payments: seq<Payment>, id: nat): nat {
    if payments == [] then 0 else PaidTimes(payments[..|payments| - 1], id) + Pays(payments[|payments| - 1], id)
  }

  function DebitsFor(entry: Entry, id: nat): nat {
    if entry.kind == Spend && entry.reference == OrderId(id) then 1 else 0
  }

  /** How many times a wallet was debited for this order. */
  function DebitedTimes(entries: seq<Entry>, id: nat): nat {
    if entries == [] then 0 else DebitedTimes(entries[..|entries| - 1], id) + DebitsFor(entries[|entries| - 1], id)
  }

  function Share(entry: Entry, user: nat): int { if entry.user == user then entry.amount else 0 }

  /** The sum of one wallet's ledger. */
  function LedgerOf(entries: seq<Entry>, user: nat): int {
    if entries == [] then 0 else LedgerOf(entries[..|entries| - 1], user) + Share(entries[|entries| - 1], user)
  }

  lemma {:induction false} TakingsUpdate(orders: seq<Order>, id: nat, order: Order)
    requires id < |orders|
    ensures WalletTakings(orders[id := order]) == WalletTakings(orders) - Taken(orders[id]) + Taken(order)
  {
    var n, after := |orders| - 1, orders[id := order];
    if id < n {
      TakingsUpdate(orders[..n], id, order);
      assert after[..n] == orders[..n][id := order];
    } else {
      assert after[..n] == orders[..n];
    }
  }

  lemma {:induction false} PaidTimesUpdate(payments: seq<Payment>, k: nat, payment: Payment, id: nat)
    requires k < |payments|
    ensures PaidTimes(payments[k := payment], id)
         == PaidTimes(payments, id) - Pays(payments[k], id) + Pays(payment, id)
  {
    var n, after := |payments| - 1, payments[k := payment];
    if k < n {
      PaidTimesUpdate(payments[..n], k, payment, id);
      assert after[..n] == payments[..n][k := payment];
    } else {
      assert after[..n] == payments[..n];
    }
  }

  lemma {:induction false} SameAgreementsSameTakings(a: seq<Order>, b: seq<Order>)
    requires SameAgreements(a, b)
    ensures WalletTakings(a) == WalletTakings(b)
  {
    if a != [] {
      SameAgreementsSameTakings(a[..|a| - 1], b[..|b| - 1]);
    }
  }

  lemma {:induction false} NoDebitUnlessUsed(entries: seq<Entry>, id: nat)
    requires forall i :: 0 <= i < |entries| && entries[i].kind == Spend ==> entries[i].reference != OrderId(id)
    ensures DebitedTimes(entries, id) == 0
  {
    if entries != [] {
      NoDebitUnlessUsed(entries[..|entries| - 1], id);
    }
  }

  lemma {:induction false} NotPaidByOthers(payments: seq<Payment>, id: nat)
    requires forall p :: 0 <= p < |payments| && Arrived(payments[p]) ==> payments[p].order != id
    ensures PaidTimes(payments, id) == 0
  {
    if payments != [] {
      NotPaidByOthers(payments[..|payments| - 1], id);
    }
  }

  // ── what the books always show ────────────────────────────────────────────

  /** A payment asks for the order's frozen total by the order's own means, and gives back no
      more than it took. */
  predicate PaymentFits(orders: seq<Order>, payment: Payment) {
    && payment.order < |orders|
    && payment.source == orders[payment.order].means
    && payment.amount == orders[payment.order].total > 0
    && 0 <= payment.refunded <= payment.amount
    && (Arrived(payment) ==> WasPaid(orders[payment.order]))
    && (payment.source == Wallet ==> IsSettled(payment))
    && (IsSettled(payment) ==>
          && (payment.refunded == payment.amount <==> payment.status == FullyRefunded)
          && (0 < payment.refunded < payment.amount <==> payment.status == PartiallyRefunded))
  }

  predicate EntryFits(orders: seq<Order>, entry: Entry) {
    match entry.kind
    case Credit => entry.reference.Foreign? && entry.amount > 0
    case Spend =>
      && entry.reference.OrderId? && entry.reference.id < |orders|
      && var order := orders[entry.reference.id];
         && WasPaid(order) && order.means == Wallet
         && entry.user == order.user && entry.amount == -order.total
  }

  predicate PaymentsFit(book: Book) {
    forall p :: 0 <= p < |book.payments| ==> PaymentFits(book.orders, book.payments[p])
  }

  predicate EntriesFit(orders: seq<Order>, entries: seq<Entry>) {
    forall e :: 0 <= e < |entries| ==> EntryFits(orders, entries[e])
  }

  predicate PaidOnce(book: Book, id: nat)
    requires id < |book.orders|
  {
    var order := book.orders[id];
    && PaidTimes(book.payments, id) == (if WasPaid(order) then 1 else 0)
    && DebitedTimes(book.entries, id) == (if WasPaid(order) && order.means == Wallet then 1 else 0)
  }

  predicate AllPaidOnce(book: Book) {
    forall id :: 0 <= id < |book.orders| ==> PaidOnce(book, id)
  }

  predicate GivenBack(payments: seq<Payment>, id: nat) {
    exists p :: 0 <= p < |payments| && payments[p].order == id && payments[p].refunded == payments[p].amount
  }

  /** An order is REFUNDED exactly when everything paid for it has gone back. */
  predicate ClosedWhenGivenBack(book: Book) {
    forall id :: 0 <= id < |book.orders| ==> (book.orders[id].state == Refunded <==> GivenBack(book.payments, id))
  }

  function BalanceOf(balances: map<nat, int>, user: nat): int {
    if user in balances then balances[user] else 0
  }

  predicate BalanceFits(entries: seq<Entry>, balances: map<nat, int>, user: nat) {
    BalanceOf(balances, user) == LedgerOf(entries, user) >= 0
  }

  ghost predicate BalancesFit(entries: seq<Entry>, balances: map<nat, int>) {
    forall user: nat :: BalanceFits(entries, balances, user)
  }

  ghost predicate BooksBalance(book: Book) {
    && PaymentsFit(book) && EntriesFit(book.orders, book.entries)
    && AllPaidOnce(book) && ClosedWhenGivenBack(book)
    && SpentOnPrinting(book.entries) == WalletTakings(book.orders)
    && BalancesFit(book.entries, book.balances)
  }

  // ── rows that only follow ─────────────────────────────────────────────────

  /** The agreements and the refunded orders stand, and no money moved. */
  lemma NothingMoved(book: Book, after: Book)
    requires BooksBalance(book) && SameAgreements(book.orders, after.orders)
    requires after.payments == book.payments && after.entries == book.entries && after.balances == book.balances
    requires forall i :: 0 <= i < |book.orders| ==>
               (after.orders[i].state == Refunded <==> book.orders[i].state == Refunded)
    ensures BooksBalance(after)
  {
    SameAgreementsSameTakings(book.orders, after.orders);
    forall p | 0 <= p < |book.payments| ensures PaymentFits(after.orders, after.payments[p]) {
      assert PaymentFits(book.orders, book.payments[p]);
    }
    forall e | 0 <= e < |book.entries| ensures EntryFits(after.orders, after.entries[e]) {
      assert EntryFits(book.orders, book.entries[e]);
    }
    forall id | 0 <= id < |after.orders| ensures PaidOnce(after, id) {
      assert PaidOnce(book, id);
    }
  }

  predicate MovesNoMoney(op: Op) {
    op.Claim? || op.Renew? || op.Move? || op.Block? || op.Sweep? || op.ConfirmPrinted? || op.ExpireOld?
  }

  lemma PrintingRefundsNobody(book: Book, op: Op)
    requires Consistent(book) && Legal(book, op) && MovesNoMoney(op)
    ensures |Apply(book, op).orders| == |book.orders|
    ensures forall i :: 0 <= i < |book.orders| ==>
              (Apply(book, op).orders[i].state == Refunded <==> book.orders[i].state == Refunded)
  {
    var after := Apply(book, op);
    if op.Move? {
      var job := book.tasks[op.tid].job;
      RefreshFollows(book.orders, after.tasks, job.document, job.kiosk, op.choice);
    } else if op.Sweep? {
      SweepFollows(book.orders, FailExpired(book.tasks, op.now), op.lost, op.choices);
      assert forall i :: 0 <= i < |book.orders| ==> Followed(book.orders[i], after.orders[i]);
    }
  }

  lemma PrintingWritesNoMoney(book: Book, op: Op)
    requires Legal(book, op) && MovesNoMoney(op)
    ensures var after := Apply(book, op);
            after.payments == book.payments && after.entries == book.entries && after.balances == book.balances
  {
  }

  lemma PrintingMovesNoMoney(book: Book, op: Op)
    requires Consistent(book) && BooksBalance(book) && Legal(book, op) && MovesNoMoney(op)
    ensures BooksBalance(Apply(book, op))
  {
    PrintingRefundsNobody(book, op);
    PrintingWritesNoMoney(book, op);
    OthersKeepAgreements(book, op);
    NothingMoved(book, Apply(book, op));
  }

  // ── rows that arrive ──────────────────────────────────────────────────────

  lemma NewOrderPaidNothing(book: Book, order: Order)
    requires PaymentsFit(book) && EntriesFit(book.orders, book.entries) && AllPaidOnce(book) && !WasPaid(order)
    ensures AllPaidOnce(book.(orders := book.orders + [order]))
  {
    var n, after := |book.orders|, book.(orders := book.orders + [order]);
    forall p | 0 <= p < |book.payments| ensures book.payments[p].order != n {
      assert PaymentFits(book.orders, book.payments[p]);
    }
    forall e | 0 <= e < |book.entries| && book.entries[e].kind == Spend
      ensures book.entries[e].reference != OrderId(n)
    {
      assert EntryFits(book.orders, book.entries[e]);
    }
    NotPaidByOthers(book.payments, n);
    NoDebitUnlessUsed(book.entries, n);
    forall id | 0 <= id < |after.orders| ensures PaidOnce(after, id) {
      assert id < n ==> PaidOnce(book, id);
    }
  }

  lemma NewOrderFits(book: Book, order: Order)
    requires PaymentsFit(book) && EntriesFit(book.orders, book.entries) && !WasPaid(order)
    requires ClosedWhenGivenBack(book) && order.state != Refunded
    ensures var after := book.(orders := book.orders + [order]);
            && PaymentsFit(after) && EntriesFit(after.orders, book.entries) && ClosedWhenGivenBack(after)
            && WalletTakings(after.orders) == WalletTakings(book.orders)
  {
  }

  lemma PlacingBalances(book: Book, op: Op)
    requires Consistent(book) && BooksBalance(book) && Legal(book, op) && op.PlaceOrder?
    ensures BooksBalance(Apply(book, op))
  {
    var r := Place(book, op.user, op.shop, op.requests, op.means, op.now, op.stamp);
    if r.Ok? {
      var order := r.value.orders[|book.orders|];
      assert r.value == book.(orders := book.orders + [order]);
      NewOrderPaidNothing(book, order);
      NewOrderFits(book, order);
    }
  }

  lemma CheckoutBalances(book: Book, op: Op)
    requires Consistent(book) && BooksBalance(book) && Legal(book, op) && op.Checkout?
    ensures BooksBalance(Apply(book, op))
  {
    var r := OpenCheckout(book, op.id);
    if r.Ok? {
      var after := r.value;
      assert after.payments[..|book.payments|] == book.payments;
      forall p | 0 <= p < |after.payments| ensures PaymentFits(after.orders, after.payments[p]) {
        assert p < |book.payments| ==> PaymentFits(book.orders, book.payments[p]);
      }
      forall id | 0 <= id < |after.orders|
        ensures PaidOnce(after, id) && (after.orders[id].state == Refunded <==> GivenBack(after.payments, id))
      {
        assert PaidOnce(book, id);
        GivenBackAppend(book.payments, after.payments[|book.payments|], id);
      }
    }
  }

  lemma GivenBackAppend(payments: seq<Payment>, payment: Payment, id: nat)
    requires payment.refunded != payment.amount
    ensures GivenBack(payments + [payment], id) == GivenBack(payments, id)
  {
    var after := payments + [payment];
    if GivenBack(payments, id) {
      var p :| 0 <= p < |payments| && payments[p].order == id && payments[p].refunded == payments[p].amount;
      assert after[p] == payments[p];
    }
  }

  /** A row whose order and sums stay, or that gives everything back. */
  lemma GivenBackUpdate(payments: seq<Payment>, k: nat, payment: Payment, id: nat)
    requires k < |payments| && payment.order == payments[k].order && payment.amount == payments[k].amount
    requires payments[k].refunded == payments[k].amount ==> payment.refunded == payment.amount
    ensures GivenBack(payments[k := payment], id)
       <==> GivenBack(payments, id) || (payment.order == id && payment.refunded == payment.amount)
  {
    var after := payments[k := payment];
    if GivenBack(payments, id) {
      var p :| 0 <= p < |payments| && payments[p].order == id && payments[p].refunded == payments[p].amount;
      assert after[p].order == id && after[p].refunded == after[p].amount;
    }
    if payment.order == id && payment.refunded == payment.amount {
      assert after[k] == payment;
    }
  }

  lemma FailureBalances(book: Book, op: Op)
    requires Consistent(book) && BooksBalance(book) && Legal(book, op) && op.GatewayFailed?
    ensures BooksBalance(Apply(book, op))
  {
    var r := RecordFailure(book, op.pid);
    if r.Ok? {
      var after := r.value;
      assert PaymentFits(book.orders, book.payments[op.pid]);
      forall p | 0 <= p < |after.payments| ensures PaymentFits(after.orders, after.payments[p]) {
        assert PaymentFits(book.orders, book.payments[p]);
      }
      forall id | 0 <= id < |after.orders|
        ensures PaidOnce(after, id) && (after.orders[id].state == Refunded <==> GivenBack(after.payments, id))
      {
        assert PaidOnce(book, id);
        PaidTimesUpdate(book.payments, op.pid, after.payments[op.pid], id);
        GivenBackUpdate(book.payments, op.pid, after.payments[op.pid], id);
      }
    }
  }

  // ── money that moves ──────────────────────────────────────────────────────

  /** One more entry in one wallet, the balance moving with it. */
  lemma LedgerAppend(entries: seq<Entry>, balances: map<nat, int>, entry: Entry, after: map<nat, int>)
    requires BalancesFit(entries, balances)
    requires after == balances[entry.user := BalanceOf(balances, entry.user) + entry.amount]
    requires BalanceOf(balances, entry.user) + entry.amount >= 0
    ensures BalancesFit(entries + [entry], after)
    ensures SpentOnPrinting(entries + [entry]) == SpentOnPrinting(entries) + Spent(entry)
  {
    var all := entries + [entry];
    assert all[..|all| - 1] == entries;
    forall user: nat ensures BalanceFits(all, after, user) {
      assert BalanceFits(entries, balances, user);
    }
  }

  lemma OneMoreDebit(entries: seq<Entry>, entry: Entry, id: nat)
    ensures DebitedTimes(entries + [entry], id) == DebitedTimes(entries, id) + DebitsFor(entry, id)
  {
  }

  lemma TopUpBalances(book: Book, op: Op)
    requires Consistent(book) && BooksBalance(book) && Legal(book, op) && op.TopUp?
    ensures BooksBalance(Apply(book, op))
  {
    CreditBalances(book, op.user, op.amount, op.token);
  }

  lemma CreditBalances(book: Book, user: nat, amount: int, token: nat)
    requires BooksBalance(book)
    ensures BooksBalance(OrElse(CreditWallet(book, user, amount, Foreign(token)), book))
  {
    var r := CreditWallet(book, user, amount, Foreign(token));
    if r.Ok? {
      var after, entry := r.value, Entry(user, Credit, amount, Foreign(token));
      assert after.entries == book.entries + [entry];
      assert BalanceFits(book.entries, book.balances, user);
      LedgerAppend(book.entries, book.balances, entry, after.balances);
      forall id | 0 <= id < |after.orders| ensures PaidOnce(after, id) {
        assert PaidOnce(book, id);
        OneMoreDebit(book.entries, entry, id);
      }
    }
  }

  lemma StillFits(orders: seq<Order>, after: seq<Order>, payment: Payment)
    requires PaymentFits(orders, payment) && |orders| == |after|
    requires SameTerms(orders[payment.order], after[payment.order])
    requires WasPaid(orders[payment.order]) ==> WasPaid(after[payment.order])
    ensures PaymentFits(after, payment)
  {
  }

  /** An order turning paid leaves every row about the others in place. */
  lemma OthersStillFit(book: Book, id: nat, paid: Order)
    requires PaymentsFit(book) && EntriesFit(book.orders, book.entries) && id < |book.orders|
    requires SameTerms(book.orders[id], paid) && WasPaid(paid) && !WasPaid(book.orders[id])
    ensures PaymentsFit(book.(orders := book.orders[id := paid]))
    ensures EntriesFit(book.orders[id := paid], book.entries)
    ensures WalletTakings(book.orders[id := paid]) == WalletTakings(book.orders) + Taken(paid)
  {
    var after := book.orders[id := paid];
    TakingsUpdate(book.orders, id, paid);
    forall p | 0 <= p < |book.payments| ensures PaymentFits(after, book.payments[p]) {
      StillFits(book.orders, after, book.payments[p]);
    }
    forall e | 0 <= e < |book.entries| ensures EntryFits(after, book.entries[e]) {
      assert EntryFits(book.orders, book.entries[e]);
    }
  }

  lemma WalletPaysOnce(book: Book, after: Book, id: nat, entry: Entry)
    requires AllPaidOnce(book) && ClosedWhenGivenBack(book) && id < |book.orders| && |after.orders| == |book.orders|
    requires !WasPaid(book.orders[id]) && WasPaid(after.orders[id]) && after.orders[id].means == Wallet
    requires book.orders[id].state != Refunded && after.orders[id].state != Refunded
    requires forall k :: 0 <= k < |book.orders| && k != id ==> after.orders[k] == book.orders[k]
    requires entry.kind == Spend && entry.reference == OrderId(id) && after.orders[id].total > 0
    requires after.entries == book.entries + [entry]
    requires after.payments == book.payments + [WalletPayment(id, after.orders[id].total)]
    ensures AllPaidOnce(after) && ClosedWhenGivenBack(after)
  {
    assert after.payments[..|book.payments|] == book.payments;
    forall k | 0 <= k < |after.orders|
      ensures PaidOnce(after, k) && (after.orders[k].state == Refunded <==> GivenBack(after.payments, k))
    {
      assert PaidOnce(book, k);
      OneMoreDebit(book.entries, entry, k);
      GivenBackAppend(book.payments, WalletPayment(id, after.orders[id].total), k);
    }
  }

  function SpendEntry(order: Order, id: nat): Entry { Entry(order.user, Spend, -order.total, OrderId(id)) }

  /** What a payment from the wallet writes, besides the tasks. */
  lemma WhatPayingWrites(book: Book, id: nat, now: int, stamp: int)
    requires id < |book.orders|
    ensures var r, order := PayWallet(book, id, now, stamp), book.orders[id];
            r.Ok? ==>
              && order.state == AwaitingPayment && order.means == Wallet
              && 0 < order.total <= BalanceOf(book.balances, order.user)
              && r.value.orders == book.orders[id := Settled(order, OrderId(id), now)]
              && r.value.payments == book.payments + [WalletPayment(id, order.total)]
              && r.value.entries == book.entries + [SpendEntry(order, id)]
              && r.value.balances == book.balances[order.user := BalanceOf(book.balances, order.user) - order.total]
  {
  }

  lemma WalletBalances(book: Book, op: Op)
    requires Consistent(book) && BooksBalance(book) && Legal(book, op) && op.PayFromWallet?
    ensures BooksBalance(Apply(book, op))
  {
    var id, order := op.id, book.orders[op.id];
    WhatPayingWrites(book, id, op.now, op.stamp);
    assert OrderWellFormed(order);
    if PayWallet(book, id, op.now, op.stamp).Ok? {
      WalletPaymentBalances(book, Apply(book, op), id, Settled(order, OrderId(id), op.now));
    }
  }

  lemma WalletPaymentBalances(book: Book, after: Book, id: nat, paid: Order)
    requires BooksBalance(book) && id < |book.orders|
    requires SameTerms(book.orders[id], paid) && WasPaid(paid) && !WasPaid(book.orders[id])
    requires book.orders[id].state != Refunded && paid.state != Refunded
    requires paid.means == Wallet && 0 < paid.total <= BalanceOf(book.balances, paid.user)
    requires after.orders == book.orders[id := paid]
    requires after.payments == book.payments + [WalletPayment(id, paid.total)]
    requires after.entries == book.entries + [SpendEntry(paid, id)]
    requires after.balances == book.balances[paid.user := BalanceOf(book.balances, paid.user) - paid.total]
    ensures BooksBalance(after)
  {
    OthersStillFit(book, id, paid);
    LedgerAppend(book.entries, book.balances, SpendEntry(paid, id), after.balances);
    WalletPaysOnce(book, after, id, SpendEntry(paid, id));
    assert PaymentsFit(after) by {
      assert PaymentsFit(book.(orders := after.orders));
      assert PaymentFits(after.orders, WalletPayment(id, paid.total));
    }
    assert EntriesFit(after.orders, after.entries) by {
      assert EntryFits(after.orders, SpendEntry(paid, id));
    }
  }

  lemma CapturePaysOnce(book: Book, after: Book, pid: nat, captured: Payment)
    requires AllPaidOnce(book) && ClosedWhenGivenBack(book) && pid < |book.payments| && |after.orders| == |book.orders|
    requires captured.order < |book.orders| && !Arrived(book.payments[pid]) && captured.status == Captured
    requires captured.order == book.payments[pid].order && captured.amount == book.payments[pid].amount > 0
    requires captured.refunded == book.payments[pid].refunded
    requires var id := captured.order;
             && !WasPaid(book.orders[id]) && WasPaid(after.orders[id]) && after.orders[id].means == Gateway
             && book.orders[id].state != Refunded && after.orders[id].state != Refunded
             && forall k :: 0 <= k < |book.orders| && k != id ==> after.orders[k] == book.orders[k]
    requires after.entries == book.entries && after.payments == book.payments[pid := captured]
    requires 0 <= captured.refunded
    ensures AllPaidOnce(after) && ClosedWhenGivenBack(after)
  {
    forall k | 0 <= k < |after.orders|
      ensures PaidOnce(after, k) && (after.orders[k].state == Refunded <==> GivenBack(after.payments, k))
    {
      assert PaidOnce(book, k);
      PaidTimesUpdate(book.payments, pid, captured, k);
      GivenBackUpdate(book.payments, pid, captured, k);
    }
  }

  lemma CaptureBalances(book: Book, op: Op)
    requires Consistent(book) && BooksBalance(book) && Legal(book, op) && op.Settle?
    ensures BooksBalance(Apply(book, op))
  {
    var r := Capture(book, op.pid, op.gatewayId, op.now, op.stamp);
    if r.Ok? {
      var payment, after := book.payments[op.pid], r.value;
      var id := payment.order;
      var captured := payment.(status := Captured, gatewayId := Some(op.gatewayId));
      var paid := Settled(book.orders[id], Foreign(op.gatewayId), op.now);
      assert OrderWellFormed(book.orders[id]) && PaymentFits(book.orders, payment) && !Arrived(payment);
      assert after.orders == book.orders[id := paid] && after.payments == book.payments[op.pid := captured];
      OthersStillFit(book, id, paid);
      CapturePaysOnce(book, after, op.pid, captured);
      assert PaymentsFit(after) by {
        assert PaymentsFit(book.(orders := after.orders));
        assert PaymentFits(after.orders, captured);
      }
    }
  }

  /** The book once the refund is written down and before any wallet is credited. */
  function Refunding(book: Book, pid: nat, amount: int, now: int): Book
    requires pid < |book.payments| && book.payments[pid].order < |book.orders|
  {
    var payment := book.payments[pid];
    var refunded := payment.refunded + amount;
    var status := if refunded >= payment.amount then FullyRefunded else PartiallyRefunded;
    var order := ApplyRefund(book.orders[payment.order], refunded, payment.amount, now);
    book.(payments := book.payments[pid := payment.(refunded := refunded, status := status)],
          orders := book.orders[payment.order := order])
  }

  lemma RefundClosesExactly(book: Book, pid: nat, payment: Payment, after: Book)
    requires AllPaidOnce(book) && ClosedWhenGivenBack(book) && pid < |book.payments| && |after.orders| == |book.orders|
    requires payment.order == book.payments[pid].order < |book.orders| && payment.amount == book.payments[pid].amount
    requires Arrived(book.payments[pid]) && Arrived(payment) && book.payments[pid].refunded < payment.amount
    requires after.payments == book.payments[pid := payment] && after.entries == book.entries
    requires forall k :: 0 <= k < |book.orders| && k != payment.order ==> after.orders[k] == book.orders[k]
    requires var a, b := book.orders[payment.order], after.orders[payment.order];
             && a.means == b.means && WasPaid(a) && WasPaid(b) && a.state != Refunded
             && (b.state == Refunded <==> payment.refunded == payment.amount)
    ensures AllPaidOnce(after) && ClosedWhenGivenBack(after)
  {
    forall k | 0 <= k < |after.orders|
      ensures PaidOnce(after, k) && (after.orders[k].state == Refunded <==> GivenBack(after.payments, k))
    {
      assert PaidOnce(book, k);
      PaidTimesUpdate(book.payments, pid, payment, k);
      GivenBackUpdate(book.payments, pid, payment, k);
    }
  }

  lemma RefundIsWrittenDown(book: Book, pid: nat, amount: int, now: int)
    requires Consistent(book) && BooksBalance(book) && pid < |book.payments|
    requires book.payments[pid].order < |book.orders|
    requires book.payments[pid].status == Captured || book.payments[pid].status == PartiallyRefunded
    requires 0 < amount <= book.payments[pid].amount - book.payments[pid].refunded
    ensures BooksBalance(Refunding(book, pid, amount, now))
  {
    var payment, after := book.payments[pid], Refunding(book, pid, amount, now);
    var id := payment.order;
    assert PaymentFits(book.orders, payment) && PaymentAttached(book.orders, payment);
    RefundClosesExactly(book, pid, after.payments[pid], after);
    TakingsUpdate(book.orders, id, after.orders[id]);
    forall p | 0 <= p < |after.payments| ensures PaymentFits(after.orders, after.payments[p]) {
      if p != pid { StillFits(book.orders, after.orders, book.payments[p]); }
    }
    forall e | 0 <= e < |book.entries| ensures EntryFits(after.orders, book.entries[e]) {
      assert EntryFits(book.orders, book.entries[e]);
    }
  }

  lemma RefundBalances(book: Book, op: Op)
    requires Consistent(book) && BooksBalance(book) && Legal(book, op) && op.GiveBack?
    ensures BooksBalance(Apply(book, op))
  {
    var r := RefundPayment(book, op.pid, op.amount, op.toWallet, op.key, op.now);
    if r.Ok? {
      RefundIsWrittenDown(book, op.pid, op.amount, op.now);
      var written := Refunding(book, op.pid, op.amount, op.now);
      if op.toWallet {
        CreditBalances(written, book.orders[book.payments[op.pid].order].user, op.amount, op.key);
      }
    }
  }

  // ── whole runs ────────────────────────────────────────────────────────────

  lemma StepBalances(book: Book, op: Op)
    requires Consistent(book) && BooksBalance(book) && Legal(book, op)
    ensures BooksBalance(Apply(book, op))
  {
    match op {
      case PlaceOrder(_, _, _, _, _, _) => PlacingBalances(book, op);
      case Checkout(_) => CheckoutBalances(book, op);
      case Settle(_, _, _, _) => CaptureBalances(book, op);
      case GatewayFailed(_) => FailureBalances(book, op);
      case PayFromWallet(_, _, _) => WalletBalances(book, op);
      case TopUp(_, _, _) => TopUpBalances(book, op);
      case GiveBack(_, _, _, _, _) => RefundBalances(book, op);
      case _ => PrintingMovesNoMoney(book, op);
    }
  }

  /** Over every run: wallets have given up for printing exactly what the paid wallet orders cost;
      each paid order has had one payment of its frozen total by its own means, and one debit if
      that means was the wallet; an unpaid order has had none; and an order is REFUNDED exactly
      when all of its payment has gone back. */
  lemma {:induction false} RunsBalance(book: Book, ops: seq<Op>)
    requires Consistent(book) && BooksBalance(book) && LegalRun(book, ops)
    ensures BooksBalance(Run(book, ops))
    decreases |ops|
  {
    if ops != [] {
      StepMoves(book, ops[0]);
      StepBalances(book, ops[0]);
      RunsBalance(Apply(book, ops[0]), ops[1..]);
    }
  }

  lemma BooksAlwaysBalance(ops: seq<Op>)
    requires LegalRun(EMPTY, ops)
    ensures BooksBalance(Run(EMPTY, ops))
  {
    assert BooksBalance(EMPTY);
    RunsBalance(EMPTY, ops);
  }

  /** In any state a run can reach, paying from the wallet goes through exactly when the order is
      open, set up for the wallet, and covered: once the debit has been taken nothing refuses. */
  lemma WalletPaysExactlyWhen(book: Book, id: nat, now: int, stamp: int)
    requires Consistent(book) && BooksBalance(book) && id < |book.orders|
    ensures var order := book.orders[id];
            PayWallet(book, id, now, stamp).Ok?
            <==> && order.state == AwaitingPayment && !Stale(order, now) && order.means == Wallet
                 && 0 < order.total <= BalanceOf(book.balances, order.user)
  {
  }

  /** Money never un-arrives, except that a failure reported after some of it was given back takes
      the row out of the settled ones: the guard asks only whether the row is CAPTURED. */
  lemma LateFailureUnsettlesExactlyWhen(book: Book, pid: nat)
    requires PaymentsFit(book) && pid < |book.payments|
    ensures var payment, r := book.payments[pid], RecordFailure(book, pid);
            && (r.Ok? && IsSettled(payment) && !IsSettled(r.value.payments[pid])
                <==> payment.status == PartiallyRefunded || payment.status == FullyRefunded)
            && (r.Ok? ==> (Arrived(r.value.payments[pid]) <==> Arrived(payment)))
  {
  }

  /** A refund goes through exactly for part or all of what is left of money that arrived, and once for a
      key in a wallet. It adds to what went back, and where it goes to the wallet that student's balance
      goes up by it; no other balance and no other payment changes. */
  lemma RefundsExactly(book: Book, pid: nat, amount: int, toWallet: bool, key: nat, now: int)
    requires pid < |book.payments| && book.payments[pid].order < |book.orders|
    ensures var payment, r := book.payments[pid], RefundPayment(book, pid, amount, toWallet, key, now);
            var user := book.orders[payment.order].user;
            && (r.Ok? <==>
                  && payment.status in {Captured, PartiallyRefunded}
                  && 0 < amount <= payment.amount - payment.refunded
                  && (toWallet ==> forall e :: 0 <= e < |book.entries| && book.entries[e].user == user ==>
                        book.entries[e].reference != Foreign(key)))
            && (r.Ok? ==>
                  && BalanceOf(r.value.balances, user)
                     == BalanceOf(book.balances, user) + (if toWallet then amount else 0)
                  && (forall other: nat :: other != user ==>
                        BalanceOf(r.value.balances, other) == BalanceOf(book.balances, other))
                  && r.value.payments[pid].refunded == payment.refunded + amount
                  && |r.value.payments| == |book.payments|
                  && (forall p :: 0 <= p < |book.payments| && p != pid ==> r.value.payments[p] == book.payments[p]))
  {
  }

  /** A wallet gives up exactly what it holds enough of and has not given up under that reference. */
  lemma DebitsExactly(book: Book, user: nat, amount: int, reference: Reference)
    ensures var r := Debit(book, user, amount, reference);
            && (r.Ok? <==>
                  && 0 < amount <= BalanceOf(book.balances, user)
                  && forall e :: 0 <= e < |book.entries| && book.entries[e].user == user ==>
                       book.entries[e].reference != reference)
            && (r.Ok? ==>
                  && BalanceOf(r.value.balances, user) == BalanceOf(book.balances, user) - amount
                  && (forall other: nat :: other != user ==>
                        BalanceOf(r.value.balances, other) == BalanceOf(book.balances, other))
                  && r.value == book.(balances := r.value.balances, entries := r.value.entries)
                  && r.value.entries == book.entries + [Entry(user, Spend, -amount, reference)])
  {
  }

  /** A checkout opens exactly for an order to be paid through the gateway, still awaiting it, and asks for
      its whole total; nothing is paid yet. */
  lemma CheckoutsOpenExactlyWhen(book: Book, id: nat)
    requires id < |book.orders|
    ensures var order, r := book.orders[id], OpenCheckout(book, id);
            && (r.Ok? <==> order.means == Gateway && order.state == AwaitingPayment && order.total > 0)
            && (r.Ok? ==>
                  && r.value == book.(payments := r.value.payments)
                  && |r.value.payments| == |book.payments| + 1 && r.value.payments[..|book.payments|] == book.payments
                  && var opened' := r.value.payments[|book.payments|];
                     && opened'.order == id && opened'.source == Gateway && opened'.amount == order.total
                     && opened'.status == Created && opened'.refunded == 0 && opened'.gatewayId == None)
  {
  }

  /** Money put in goes in whole, and to that student alone. */
  lemma TopUpsExactly(book: Book, user: nat, amount: int, token: nat)
    ensures var r := CreditWallet(book, user, amount, Foreign(token));
            && (r.Ok? <==>
                  && amount > 0
                  && forall e :: 0 <= e < |book.entries| && book.entries[e].user == user ==>
                       book.entries[e].reference != Foreign(token))
            && (r.Ok? ==>
                  && BalanceOf(r.value.balances, user) == BalanceOf(book.balances, user) + amount
                  && (forall other: nat :: other != user ==>
                        BalanceOf(r.value.balances, other) == BalanceOf(book.balances, other))
                  && r.value == book.(balances := r.value.balances, entries := r.value.entries)
                  && r.value.entries == book.entries + [Entry(user, Credit, amount, Foreign(token))])
  {
  }

  // ── the guard on confirming ───────────────────────────────────────────────

  predicate MoneyWentBack(payments: seq<Payment>, id: nat) {
    exists p :: 0 <= p < |payments| && payments[p].order == id && payments[p].refunded > 0
  }

  /** What `confirm_order_printed` asks: has the newest payment row given anything back? */
  predicate GuardSeesIt(payments: seq<Payment>, id: nat) {
    var newest := PaymentForOrder(payments, id);
    newest.Some? && payments[newest.value].refunded > 0
  }

  /** This print failed, and it is over one of the order's documents, at its kiosk, since it was placed. */
  predicate FailedSince(order: Order, task: Task) {
    && task.state == Failed && task.job.kiosk == order.kiosk && order.createdAt <= task.createdAt
    && exists i :: 0 <= i < |order.items| && order.items[i].document == Some(task.job.document)
  }

  /** An operator may say an order came out exactly when it partly failed, its newest payment has given
      nothing back, and something of it failed; then those prints, and no others, read PRINTED. */
  lemma ConfirmedExactlyWhen(book: Book, id: nat)
    requires id < |book.orders|
    ensures var order, r := book.orders[id], Confirm(book, id);
            && (r.Ok? <==>
                  && order.state == PartiallyFailed
                  && (forall p :: 0 <= p < |book.payments| && book.payments[p].order == id
                                  && (forall q :: p < q < |book.payments| ==> book.payments[q].order != id) ==>
                        book.payments[p].refunded <= 0)
                  && exists t :: 0 <= t < |book.tasks| && FailedSince(order, book.tasks[t]))
            && (r.Ok? ==>
                  && |r.value.tasks| == |book.tasks|
                  && (forall t :: 0 <= t < |book.tasks| ==>
                        r.value.tasks[t] == if FailedSince(order, book.tasks[t])
                                            then book.tasks[t].(state := Printed, lease := None) else book.tasks[t])
                  && |r.value.orders| == |book.orders|
                  && (forall k :: 0 <= k < |book.orders| && k != id ==> r.value.orders[k] == book.orders[k])
                  && r.value.payments == book.payments && r.value.entries == book.entries)
  {
    var order, newest := book.orders[id], PaymentForOrder(book.payments, id);
    forall t | 0 <= t < |book.tasks| ensures FailedSince(order, book.tasks[t]) == Confirmable(order, book.tasks[t]) {
    }
    if newest.Some? && book.payments[newest.value].refunded > 0 {
      assert book.payments[newest.value].order == id;
    }
  }

  lemma {:induction false} ArrivedCounts(payments: seq<Payment>, p: nat, id: nat)
    requires p < |payments| && payments[p].order == id && Arrived(payments[p])
    ensures PaidTimes(payments, id) >= 1
    ensures forall q :: p < q < |payments| && payments[q].order == id && Arrived(payments[q]) ==>
              PaidTimes(payments, id) >= 2
  {
    var n := |payments| - 1;
    if p < n {
      ArrivedCounts(payments[..n], p, id);
      forall q | p < q < |payments| && payments[q].order == id && Arrived(payments[q])
        ensures PaidTimes(payments, id) >= 2
      {
        assert q < n ==> payments[..n][q] == payments[q];
      }
    }
  }

  /** An order some of whose money went back is confirmed all the same exactly when its newest
      payment row is a checkout opened after the one that was paid. */
  lemma GuardMissesExactlyWhen(book: Book, id: nat)
    requires BooksBalance(book) && id < |book.orders| && MoneyWentBack(book.payments, id)
    ensures !GuardSeesIt(book.payments, id) <==> !Arrived(book.payments[PaymentForOrder(book.payments, id).value])
  {
    assert PaidOnce(book, id);
    var p :| 0 <= p < |book.payments| && book.payments[p].order == id && book.payments[p].refunded > 0;
    ArrivedCounts(book.payments, p, id);
    var k := PaymentForOrder(book.payments, id).value;
    assert p <= k;
    assert k != p && Arrived(book.payments[k]) ==> PaidTimes(book.payments, id) >= 2;
  }
}
