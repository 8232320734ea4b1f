/** One document sold to one student at one shop, from an empty book: the steps the histories of
    `OrderCases` are made of, for every student, document, print option and price. */
module OrderSales {
  import opened Outcomes
  import opened Money
  import opened PrintQuotes
  import opened OrderBook
  import opened OrderRuns
  import K = KioskPricing

  datatype Sale = Sale(user: nat, document: nat, options: PrintOptions, selected: nat, shop: Shop)

  function Price(s: Sale): int { LineAmount(s.options, s.selected, s.shop.prices) }

  /** A shop that takes the order, for a sum that is not nothing. */
  predicate Selling(s: Sale) {
    && s.shop.open && s.shop.takesWallet && (s.options.colour ==> s.shop.colour)
    && K.Sane(s.shop.prices) && Price(s) > 0
    && WorkloadOf(s.options, s.selected).Sheets() <= s.shop.sheetsLeft
  }

  function Asked(s: Sale): seq<Request> { [Request(s.document, s.user, true, s.options, Some(s.selected))] }

  function Line(s: Sale): Item { Item(Some(s.document), s.options, s.selected, Price(s)) }

  function Fee(s: Sale, means: PaymentMethod): int { if means == Wallet then 0 else GatewayFee(Price(s)) }

  function Due(s: Sale, means: PaymentMethod): int { Price(s) + Fee(s, means) }

  function Placed(s: Sale, means: PaymentMethod, at: int): Order {
    Order(s.user, s.shop.kiosk, AwaitingPayment, [Line(s)], Price(s), Fee(s, means), Due(s, means), means,
          Some(at + ORDER_LIFETIME), None, None, None, at)
  }

  function Bought(s: Sale, id: nat, at: int): Task {
    Task(Job(id, 0, s.document, s.shop.kiosk, s.options, s.selected), Queued, at, None)
  }

  lemma LineIsChecked(s: Sale)
    ensures CheckedItems(Asked(s), s.user, s.shop.prices) == Ok([Line(s)])
    ensures SheetsNeeded([Line(s)]) == WorkloadOf(s.options, s.selected).Sheets()
  {
    assert Asked(s)[..0] == [] && [Line(s)][..0] == [];
    assert CheckedItem(Asked(s)[0], s.user, s.shop.prices) == Ok(Line(s));
    assert [] + [Line(s)] == [Line(s)];
  }

  lemma LineIsQuoted(s: Sale, means: PaymentMethod)
    requires Price(s) > 0
    ensures Build(Amounts([Line(s)]), means == Wallet) == Ok(OrderQuote(Price(s), Fee(s, means), Due(s, means)))
    ensures Due(s, means) > 0
  {
    var lines := Amounts([Line(s)]);
    assert lines == [Price(s)];
    TotalsAreExact(lines, means == Wallet);
    assert SumPaise(lines) == Price(s) by { assert lines[..0] == []; }
    FeeIsCapped(Price(s));
  }

  lemma SaleIsAccepted(book: Book, s: Sale, means: PaymentMethod, at: int)
    requires Selling(s)
    ensures Place(book, s.user, s.shop, Asked(s), means, at, at)
         == Ok(book.(orders := book.orders + [Placed(s, means, at)]))
  {
    LineIsChecked(s);
    LineIsQuoted(s, means);
  }

  // ── one request after another ─────────────────────────────────────────────

  ghost predicate Reachable(book: Book) {
    exists ops :: LegalRun(EMPTY, ops) && Run(EMPTY, ops) == book
  }

  lemma {:induction false} RunOneMore(book: Book, ops: seq<Op>, op: Op)
    requires LegalRun(book, ops) && Legal(Run(book, ops), op)
    ensures LegalRun(book, ops + [op]) && Run(book, ops + [op]) == Apply(Run(book, ops), op)
    decreases |ops|
  {
    if ops == [] {
      assert ops + [op] == [op];
      assert LegalRun(Apply(book, op), []);
    } else {
      assert (ops + [op])[1..] == ops[1..] + [op];
      RunOneMore(Apply(book, ops[0]), ops[1..], op);
    }
  }

  lemma Then(book: Book, op: Op, after: Book)
    requires Reachable(book) && Legal(book, op) && Apply(book, op) == after
    ensures Reachable(after)
  {
    var ops :| LegalRun(EMPTY, ops) && Run(EMPTY, ops) == book;
    RunOneMore(EMPTY, ops, op);
  }

  lemma Placing(book: Book, s: Sale, means: PaymentMethod, at: int)
    requires Reachable(book) && Selling(s)
    ensures Reachable(book.(orders := book.orders + [Placed(s, means, at)]))
  {
    SaleIsAccepted(book, s, means, at);
    var after := book.(orders := book.orders + [Placed(s, means, at)]);
    Then(book, PlaceOrder(s.user, s.shop, Asked(s), means, at, at), after);
  }

  lemma PlacingFirst(s: Sale, means: PaymentMethod, at: int)
    requires Selling(s)
    ensures Reachable(Book([Placed(s, means, at)], [], [], [], map[]))
  {
    assert LegalRun(EMPTY, []) && Run(EMPTY, []) == EMPTY;
    Placing(EMPTY, s, means, at);
    assert [] + [Placed(s, means, at)] == [Placed(s, means, at)];
  }

  lemma OneLineQueuesOneTask(s: Sale, means: PaymentMethod, at: int, id: nat, stamp: int)
    ensures Enqueued(id, Placed(s, means, at), 1, stamp) == [Bought(s, id, stamp)]
  {
    assert Enqueued(id, Placed(s, means, at), 0, stamp) == [];
  }

  /** What paying from the wallet makes of a book, at the instant the order is placed. */
  function AfterPaying(book: Book, s: Sale, id: nat, at: int): Book
    requires id < |book.orders| && s.user in book.balances
  {
    Book(book.orders[id := Settled(book.orders[id], OrderId(id), at)],
         book.tasks + [Bought(s, id, at)],
         book.payments + [WalletPayment(id, Due(s, Wallet))],
         book.entries + [Entry(s.user, Spend, -Due(s, Wallet), OrderId(id))],
         book.balances[s.user := book.balances[s.user] - Due(s, Wallet)])
  }

  lemma Paying(book: Book, s: Sale, id: nat, at: int)
    requires Reachable(book) && Selling(s) && id < |book.orders| && book.orders[id] == Placed(s, Wallet, at)
    requires s.user in book.balances && book.balances[s.user] >= Due(s, Wallet)
    requires !Used(book.entries, s.user, OrderId(id))
    ensures Reachable(AfterPaying(book, s, id, at))
  {
    OneLineQueuesOneTask(s, Wallet, at, id, at);
    LineIsQuoted(s, Wallet);
    assert PayWallet(book, id, at, at) == Ok(AfterPaying(book, s, id, at));
    Then(book, PayFromWallet(id, at, at), AfterPaying(book, s, id, at));
  }

  /** The device takes the only print there is, and it fails. */
  lemma Failing(book: Book, s: Sale, means: PaymentMethod, reference: Reference, at: int)
    requires Reachable(book) && book.tasks == [Bought(s, 0, at)]
    requires book.orders == [Settled(Placed(s, means, at), reference, at)]
    ensures Reachable(book.(orders := [book.orders[0].(state := PartiallyFailed)],
                            tasks := [Bought(s, 0, at).(state := Failed)]))
  {
    var order := book.orders[0];
    var held := book.(tasks := [Bought(s, 0, at).(state := SentToDevice, lease := Some(at + LEASE))]);
    var failed := [Bought(s, 0, at).(state := Failed)];
    Then(book, Claim(0, at), held);
    assert order.items[0].document == Some(s.document);
    assert Sees(order, failed[0]);
    assert IsOwnerOfPrint(held.orders, s.document, s.shop.kiosk, Some(0));
    FailureIsDerived(order, failed);
    assert held.tasks[0 := Reported(held.tasks[0], Failed, at)] == failed;
    var after := held.(orders := [order.(state := PartiallyFailed)], tasks := failed);
    assert Rederive(held.orders, failed, 0) == after.orders;
    Then(held, Move(0, Failed, at, Some(0)), after);
  }

  lemma FailureIsDerived(order: Order, tasks: seq<Task>)
    requires |tasks| == 1 && Sees(order, tasks[0]) && tasks[0].state == Failed
    ensures Derived(order, tasks) == PartiallyFailed
  {
  }

  // ── through the gateway ───────────────────────────────────────────────────

  function Opened(s: Sale): Payment { Payment(0, Gateway, Due(s, Gateway), Created, 0, None) }

  lemma OpeningCheckout(book: Book, s: Sale, at: int)
    requires Reachable(book) && Selling(s) && book.orders == [Placed(s, Gateway, at)]
    ensures Reachable(book.(payments := book.payments + [Opened(s)]))
  {
    LineIsQuoted(s, Gateway);
    Then(book, Checkout(0), book.(payments := book.payments + [Opened(s)]));
  }

  function CapturedRow(s: Sale, gatewayId: nat): Payment {
    Opened(s).(status := Captured, gatewayId := Some(gatewayId))
  }

  /** The first of the checkouts opened is paid, as the order is placed. */
  lemma Capturing(s: Sale, at: int, gatewayId: nat, rest: seq<Payment>)
    requires Selling(s) && Reachable(Book([Placed(s, Gateway, at)], [], [Opened(s)] + rest, [], map[]))
    requires forall i :: 0 <= i < |rest| ==> rest[i] == Opened(s)
    ensures Reachable(Book([Settled(Placed(s, Gateway, at), Foreign(gatewayId), at)], [Bought(s, 0, at)],
                           [CapturedRow(s, gatewayId)] + rest, [], map[]))
  {
    var book := Book([Placed(s, Gateway, at)], [], [Opened(s)] + rest, [], map[]);
    OneLineQueuesOneTask(s, Gateway, at, 0, at);
    assert book.payments[0 := CapturedRow(s, gatewayId)] == [CapturedRow(s, gatewayId)] + rest;
    assert !Claimed(book.payments[0 := book.payments[0].(gatewayId := None)], gatewayId);
    var after := Book([Settled(Placed(s, Gateway, at), Foreign(gatewayId), at)], [Bought(s, 0, at)],
                      [CapturedRow(s, gatewayId)] + rest, [], map[]);
    assert book.orders[0 := after.orders[0]] == after.orders && book.tasks + [Bought(s, 0, at)] == after.tasks;
    assert Capture(book, 0, gatewayId, at, at) == Ok(after);
    Then(book, Settle(0, gatewayId, at, at), after);
  }

  /** Some of it, and not all, goes back to where it came from. */
  lemma RefundingPart(book: Book, s: Sale, gatewayId: nat, part: int, key: nat, at: int)
    requires Reachable(book) && |book.orders| == 1 && book.payments != []
    requires book.payments[0] == CapturedRow(s, gatewayId) && 0 < part < Due(s, Gateway)
    ensures Reachable(book.(payments := book.payments[0 :=
                        CapturedRow(s, gatewayId).(refunded := part, status := PartiallyRefunded)]))
  {
    var given := CapturedRow(s, gatewayId).(refunded := part, status := PartiallyRefunded);
    assert book.orders[0 := book.orders[0]] == book.orders;
    Then(book, GiveBack(0, part, false, key, at), book.(payments := book.payments[0 := given]));
  }
}
