/** Over which histories every order tells the truth, and how an operator's confirmation can
    end one that did. */
module OrderBelief {
  import opened Outcomes
  import opened OrderBook
  import opened OrderRuns
  import opened OrderPrints
  import opened OrderTruth

  /** Nothing queued before looks like this order's prints, and no order in flight shares its files. */
  ghost predicate StandsApart(book: Book, id: nat) {
    && id < |book.orders|
    && (forall i :: 0 <= i < |book.tasks| ==> !Sees(book.orders[id], book.tasks[i]))
    && (forall a :: 0 <= a < |book.orders| && InFlight(book.orders[a]) ==> !Share(book.orders[a], book.orders[id]))
  }

  /** An order is paid while it stands apart from those in flight, and confirmed while it sees
      only its own prints. Reprinting a file whose last order has landed is no exception. */
  ghost predicate Calm(book: Book, op: Op)
    requires Legal(book, op)
  {
    && (op.PayFromWallet? || op.Settle? ==> Apply(book, op) == book || StandsApart(book, PaidOrder(book, op)))
    && (op.ConfirmPrinted? && Confirm(book, op.id).Ok? ==> SeesOwnOnly(book.orders[op.id], book.tasks, op.id))
  }

  // ── paying ────────────────────────────────────────────────────────────────

  lemma PayingKeepsIsolation(book: Book, id: nat, reference: Reference, now: int, stamp: int)
    requires PrintsMatchOrders(book.orders, book.tasks) && Isolated(book.orders, book.tasks)
    requires StandsApart(book, id) && AllDocuments(book.orders[id].items)
    requires MarkPaid(book, id, reference, now, stamp).Ok?
    ensures var after := MarkPaid(book, id, reference, now, stamp).value;
            Isolated(after.orders, after.tasks)
  {
    var order, after := book.orders[id], MarkPaid(book, id, reference, now, stamp).value;
    var queued := Enqueued(id, order, |order.items|, stamp);
    EnqueuedJobs(id, order, |order.items|, stamp);
    forall a | 0 <= a < |after.orders| && InFlight(after.orders[a])
      ensures SeesOwnOnly(after.orders[a], after.tasks, a)
    {
      assert a != id ==> SeesOwnOnly(book.orders[a], book.tasks, a);
      forall i | 0 <= i < |after.tasks| && Sees(after.orders[a], after.tasks[i]) ensures Owned(after.tasks[i], a) {
        SameSight(book.orders[a], after.orders[a], after.tasks[i], after.tasks[i]);
        if i >= |book.tasks| {
          assert after.tasks[i] == queued[i - |book.tasks|];
          var d := after.tasks[i].job.document;
          assert Prints(book.orders[a], d) && Prints(order, d);
          assert Share(book.orders[a], order);
        }
      }
    }
    forall a, b | 0 <= a < |after.orders| && 0 <= b < |after.orders| && a != b
                  && InFlight(after.orders[a]) && InFlight(after.orders[b])
      ensures !Share(after.orders[a], after.orders[b])
    {
      SameDocuments(book.orders[a], after.orders[a]);
      SameDocuments(book.orders[b], after.orders[b]);
      assert Share(book.orders[a], book.orders[b]) == Share(book.orders[b], book.orders[a]);
    }
  }

  lemma QueueingForAnother(tasks: seq<Task>, queued: seq<Task>, i: nat)
    requires forall t :: 0 <= t < |queued| ==> !Owned(queued[t], i)
    ensures AllPrinted(tasks + queued, i) == AllPrinted(tasks, i)
    ensures AllFinished(tasks + queued, i) == AllFinished(tasks, i)
  {
    var all := tasks + queued;
    assert forall t :: 0 <= t < |tasks| ==> all[t] == tasks[t];
    assert forall t :: |tasks| <= t < |all| ==> all[t] == queued[t - |tasks|];
  }

  lemma QueuedIsUnfinished(order: Order, tasks: seq<Task>, id: nat, stamp: int)
    requires AllDocuments(order.items)
    ensures !AllFinished(tasks + Enqueued(id, order, |order.items|, stamp), id)
  {
    var n := |order.items|;
    var queued := Enqueued(id, order, n, stamp);
    assert order.items[n - 1].document.Some?;
    assert queued == Enqueued(id, order, n - 1, stamp) + [Task(JobFor(id, order, n - 1), Queued, stamp, None)];
    assert (tasks + queued)[|tasks + queued| - 1] == Task(JobFor(id, order, n - 1), Queued, stamp, None);
  }

  lemma PayingTellsTheTruth(book: Book, id: nat, reference: Reference, now: int, stamp: int)
    requires AllTruthful(book.orders, book.tasks)
    requires id < |book.orders| && OrderWellFormed(book.orders[id])
    requires MarkPaid(book, id, reference, now, stamp).Ok?
    ensures var after := MarkPaid(book, id, reference, now, stamp).value;
            AllTruthful(after.orders, after.tasks)
  {
    var order, after := book.orders[id], MarkPaid(book, id, reference, now, stamp).value;
    var queued := Enqueued(id, order, |order.items|, stamp);
    EnqueuedJobs(id, order, |order.items|, stamp);
    QueuedIsUnfinished(order, book.tasks, id, stamp);
    forall i | 0 <= i < |after.orders| ensures Truthful(after.orders[i], after.tasks, i) {
      if i != id {
        assert Truthful(book.orders[i], book.tasks, i);
        QueueingForAnother(book.tasks, queued, i);
      }
    }
  }

  // ── confirming ────────────────────────────────────────────────────────────

  /** Confirming flips only this order's own failures. */
  lemma ConfirmTouchesOwnOnly(order: Order, tasks: seq<Task>, id: nat)
    requires SeesOwnOnly(order, tasks, id) && AllFinished(tasks, id)
    ensures var after := ConfirmFailed(order, tasks);
            && SameJobs(tasks, after) && SeesOwnOnly(order, after, id) && AllFinished(after, id)
            && forall i: nat :: i != id ==> SameOutcome(tasks, after, i)
  {
  }

  lemma ConfirmIsTruthful(book: Book, op: Op)
    requires Believable(book) && Legal(book, op) && op.ConfirmPrinted? && Calm(book, op)
    ensures AllTruthful(Apply(book, op).orders, Apply(book, op).tasks)
    ensures Isolated(Apply(book, op).orders, Apply(book, op).tasks)
  {
    var id, r := op.id, Confirm(book, op.id);
    if r.Ok? {
      var order, after := book.orders[id], r.value;
      assert Truthful(order, book.tasks, id) && OrderWellFormed(order);
      ConfirmTouchesOwnOnly(order, book.tasks, id);
      MatchIsStable(book.orders, book.tasks, book.orders, after.tasks);
      DerivedIsTruthful(book.orders, after.tasks, id);
      forall i | 0 <= i < |after.orders| ensures Truthful(after.orders[i], after.tasks, i) {
        assert Truthful(book.orders[i], book.tasks, i);
        if i != id {
          SameOutcomeSameTruth(book.orders[i], book.tasks, after.tasks, i);
        }
      }
      assert !InFlight(after.orders[id]);
      IsolationIsStable(book.orders, book.tasks, after.orders, after.tasks);
    }
  }

  /** Another order's print that would spoil the confirmed order's story. */
  predicate Spoils(order: Order, tasks: seq<Task>, id: nat, task: Task) {
    && Sees(order, task) && !Owned(task, id)
    && (!Terminal(task.state) || (task.state == Cancelled && !HasCancelled(tasks, id)))
  }

  lemma ConfirmDerivesExactlyWhen(order: Order, tasks: seq<Task>, id: nat)
    requires forall i :: 0 <= i < |tasks| && Owned(tasks[i], id) ==> Sees(order, tasks[i])
    requires AllFinished(tasks, id) && !NothingFailed(order, tasks) && WasPaid(order)
    ensures var after := ConfirmFailed(order, tasks);
            Truthful(order.(state := Derived(order, after)), after, id)
            <==> forall i :: 0 <= i < |tasks| ==> !Spoils(order, tasks, id, tasks[i])
  {
    var after := ConfirmFailed(order, tasks);
    forall i | 0 <= i < |tasks| ensures Sees(order, after[i]) == Sees(order, tasks[i]) {
      SameSight(order, order, tasks[i], after[i]);
    }
    assert AllFinished(after, id);
    assert AllPrinted(after, id) <==> !HasCancelled(tasks, id);
    var i :| 0 <= i < |tasks| && Confirmable(order, tasks[i]);
    assert Sees(order, after[i]);
  }

  /** Once another order's prints are in sight the confirmed order tells the truth exactly when
      each of those has finished, and none was cancelled unless one of its own was. */
  lemma ConfirmTellsTheTruthExactlyWhen(book: Book, id: nat)
    requires Consistent(book) && PrintsMatchOrders(book.orders, book.tasks)
    requires id < |book.orders| && Truthful(book.orders[id], book.tasks, id) && Confirm(book, id).Ok?
    ensures var after := Confirm(book, id).value;
            Truthful(after.orders[id], after.tasks, id)
            <==> forall i :: 0 <= i < |book.tasks| ==> !Spoils(book.orders[id], book.tasks, id, book.tasks[i])
  {
    var order := book.orders[id];
    assert OrderWellFormed(order);
    forall i | 0 <= i < |book.tasks| && Owned(book.tasks[i], id) ensures Sees(order, book.tasks[i]) {
      assert Attached(book.orders, book.tasks[i]);
    }
    ConfirmDerivesExactlyWhen(order, book.tasks, id);
  }

  predicate HasCancelled(tasks: seq<Task>, id: nat) {
    exists i :: 0 <= i < |tasks| && Owned(tasks[i], id) && tasks[i].state == Cancelled
  }

  // ── every other operation ─────────────────────────────────────────────────

  predicate Aside(op: Op) {
    !op.PayFromWallet? && !op.Settle? && !op.ConfirmPrinted? && !op.Move? && !op.Sweep? && !op.PlaceOrder?
  }

  lemma AsideKeepsOutcomes(book: Book, op: Op, i: nat)
    requires Legal(book, op) && Aside(op)
    ensures SameOutcome(book.tasks, Apply(book, op).tasks, i)
  {
  }

  lemma AsideKeepsStates(book: Book, op: Op, i: nat)
    requires Consistent(book) && Legal(book, op) && Aside(op) && i < |book.orders|
    ensures var after := Apply(book, op);
            && |after.orders| == |book.orders|
            && (WasPaid(after.orders[i]) ==> WasPaid(book.orders[i]))
            && (WasPaid(book.orders[i]) ==>
                  after.orders[i].state == Refunded || after.orders[i].state == book.orders[i].state)
  {
  }

  lemma OtherStepsAreTruthful(book: Book, op: Op)
    requires Believable(book) && Legal(book, op) && Aside(op)
    ensures AllTruthful(Apply(book, op).orders, Apply(book, op).tasks)
  {
    var after := Apply(book, op);
    if book.orders != [] {
      AsideKeepsStates(book, op, 0);
    }
    forall i | 0 <= i < |after.orders| ensures Truthful(after.orders[i], after.tasks, i) {
      AsideKeepsStates(book, op, i);
      AsideKeepsOutcomes(book, op, i);
      assert Truthful(book.orders[i], book.tasks, i);
      SameOutcomeSameTruth(book.orders[i], book.tasks, after.tasks, i);
    }
  }

  lemma PlacingIsTruthful(book: Book, op: Op)
    requires Believable(book) && Legal(book, op) && op.PlaceOrder?
    ensures AllTruthful(Apply(book, op).orders, Apply(book, op).tasks)
    ensures Isolated(Apply(book, op).orders, Apply(book, op).tasks)
  {
    var after := Apply(book, op);
    forall i | 0 <= i < |book.orders| ensures Truthful(after.orders[i], after.tasks, i) {
      assert Truthful(book.orders[i], book.tasks, i);
    }
    IsolationIsStable(book.orders, book.tasks, after.orders, after.tasks);
  }

  /** Nothing but a payment puts an order in flight, and nothing but a confirmation puts one back. */
  lemma OtherStepsKeepIsolation(book: Book, op: Op)
    requires Believable(book) && Legal(book, op)
    requires !op.PayFromWallet? && !op.Settle? && !op.ConfirmPrinted? && !op.PlaceOrder?
    ensures Isolated(Apply(book, op).orders, Apply(book, op).tasks)
  {
    var after := Apply(book, op);
    StepMoves(book, op);
    OthersKeepJobs(book, op);
    OthersKeepAgreements(book, op);
    forall i | 0 <= i < |after.orders| && InFlight(after.orders[i])
      ensures InFlight(book.orders[i]) && SameTerms(book.orders[i], after.orders[i])
    {
      assert OrderWellFormed(book.orders[i]) && Moved(book.orders[i], after.orders[i]);
      TakesOffOnlyWhenPaid(book, op, i);
    }
    IsolationIsStable(book.orders, book.tasks, after.orders, after.tasks);
  }

  lemma TakesOffOnlyWhenPaid(book: Book, op: Op, i: nat)
    requires Consistent(book) && Legal(book, op) && i < |book.orders|
    requires !op.PayFromWallet? && !op.Settle? && !op.ConfirmPrinted? && !op.PlaceOrder?
    ensures i < |Apply(book, op).orders| && (InFlight(Apply(book, op).orders[i]) ==> InFlight(book.orders[i]))
  {
    if op.Move? {
      var job := book.tasks[op.tid].job;
      RefreshFollows(book.orders, Apply(book, op).tasks, job.document, job.kiosk, op.choice);
    } else if op.Sweep? {
      SweepFollows(book.orders, FailExpired(book.tasks, op.now), op.lost, op.choices);
      assert Followed(book.orders[i], Apply(book, op).orders[i]);
    }
  }

  // ── whole runs ────────────────────────────────────────────────────────────

  lemma PayStepIsBelievable(book: Book, op: Op)
    requires Believable(book) && Legal(book, op) && Calm(book, op) && (op.PayFromWallet? || op.Settle?)
    ensures Isolated(Apply(book, op).orders, Apply(book, op).tasks)
    ensures AllTruthful(Apply(book, op).orders, Apply(book, op).tasks)
  {
    if Apply(book, op) != book {
      PaymentIsMarkPaid(book, op);
      var id, recorded := PaidOrder(book, op), Recorded(book, op);
      assert OrderWellFormed(book.orders[id]);
      PayingKeepsIsolation(recorded, id, PaidReference(op), op.now, op.stamp);
      PayingTellsTheTruth(recorded, id, PaidReference(op), op.now, op.stamp);
    }
  }

  lemma StepIsBelievable(book: Book, op: Op)
    requires Believable(book) && Legal(book, op) && Calm(book, op)
    ensures Believable(Apply(book, op))
  {
    StepMoves(book, op);
    StepKeepsMatch(book, op);
    match op {
      case PlaceOrder(_, _, _, _, _, _) => PlacingIsTruthful(book, op);
      case PayFromWallet(_, _, _) => PayStepIsBelievable(book, op);
      case Settle(_, _, _, _) => PayStepIsBelievable(book, op);
      case Move(_, _, _, _) => ReportIsTruthful(book, op); OtherStepsKeepIsolation(book, op);
      case Sweep(_, _, _) => SweepIsTruthful(book, op); OtherStepsKeepIsolation(book, op);
      case ConfirmPrinted(_) => ConfirmIsTruthful(book, op);
      case _ => OtherStepsAreTruthful(book, op); OtherStepsKeepIsolation(book, op);
    }
  }

  ghost predicate CalmRun(book: Book, ops: seq<Op>)
    requires LegalRun(book, ops)
    decreases |ops|
  {
    ops == [] || (Calm(book, ops[0]) && CalmRun(Apply(book, ops[0]), ops[1..]))
  }

  /** After every device report, sweep, confirmation or refund of a calm run, each paid and
      unrefunded order is COMPLETED exactly when all its prints came out, PARTIALLY_FAILED exactly
      when all ended and some did not, and PAID or DISPATCHED otherwise. */
  lemma {:induction false} CalmRunsTellTheTruth(book: Book, ops: seq<Op>)
    requires Believable(book) && LegalRun(book, ops) && CalmRun(book, ops)
    ensures Believable(Run(book, ops))
    decreases |ops|
  {
    if ops != [] {
      StepIsBelievable(book, ops[0]);
      CalmRunsTellTheTruth(Apply(book, ops[0]), ops[1..]);
    }
  }

  // ── the same, read off the rows ───────────────────────────────────────────

  /** If this task is over one of the order's documents at its kiosk, it was queued before the order
      was placed. */
  predicate QueuedBefore(order: Order, task: Task) {
    forall i :: 0 <= i < |order.items| && order.items[i].document == Some(task.job.document)
                && task.job.kiosk == order.kiosk ==>
      task.createdAt < order.createdAt
  }

  predicate NoCommonFile(a: Order, b: Order) {
    forall i, j :: 0 <= i < |a.items| && 0 <= j < |b.items| && a.kiosk == b.kiosk ==>
      a.items[i].document.None? || a.items[i].document != b.items[j].document
  }

  /** Everything ever sent of this order's files was sent before it was placed, and no order in flight
      at its kiosk has one of them. */
  predicate BoughtAfresh(book: Book, id: nat) {
    && id < |book.orders|
    && (forall t :: 0 <= t < |book.tasks| ==> QueuedBefore(book.orders[id], book.tasks[t]))
    && (forall a :: 0 <= a < |book.orders| && InFlight(book.orders[a]) ==>
          NoCommonFile(book.orders[a], book.orders[id]))
  }

  /** And nothing of them was sent for another order since. */
  predicate AloneSince(book: Book, id: nat) {
    && id < |book.orders|
    && forall t :: 0 <= t < |book.tasks| && book.tasks[t].job.order != id ==>
         QueuedBefore(book.orders[id], book.tasks[t])
  }

  predicate Plain(book: Book, op: Op)
    requires Legal(book, op)
  {
    && (op.PayFromWallet? || op.Settle? ==> Apply(book, op) == book || BoughtAfresh(book, PaidOrder(book, op)))
    && (op.ConfirmPrinted? && Confirm(book, op.id).Ok? ==> AloneSince(book, op.id))
  }

  lemma PlainIsCalm(book: Book, op: Op)
    requires Legal(book, op) && Plain(book, op)
    ensures Calm(book, op)
  {
    if op.ConfirmPrinted? && Confirm(book, op.id).Ok? {
      var order := book.orders[op.id];
      forall t | 0 <= t < |book.tasks| && Sees(order, book.tasks[t]) ensures Owned(book.tasks[t], op.id) {
        var i :| 0 <= i < |order.items| && order.items[i].document == Some(book.tasks[t].job.document);
      }
    } else if (op.PayFromWallet? || op.Settle?) && Apply(book, op) != book {
      AfreshStandsApart(book, PaidOrder(book, op));
    }
  }

  lemma AfreshStandsApart(book: Book, id: nat)
    requires BoughtAfresh(book, id)
    ensures StandsApart(book, id)
  {
    var order := book.orders[id];
    forall t | 0 <= t < |book.tasks| ensures !Sees(order, book.tasks[t]) {
      assert QueuedBefore(order, book.tasks[t]);
    }
    forall a | 0 <= a < |book.orders| && InFlight(book.orders[a]) ensures !Share(book.orders[a], order) {
      assert NoCommonFile(book.orders[a], order);
    }
  }

  predicate PlainRun(book: Book, ops: seq<Op>)
    requires LegalRun(book, ops)
    decreases |ops|
  {
    ops == [] || (Plain(book, ops[0]) && PlainRun(Apply(book, ops[0]), ops[1..]))
  }

  /** Over every run in which each order is bought afresh and confirmed alone, whatever was printed of
      its files before: each paid and unrefunded order's state is the truth. A reprint is one. */
  lemma {:induction false} PlainRunsTellTheTruth(book: Book, ops: seq<Op>)
    requires Believable(book) && LegalRun(book, ops) && PlainRun(book, ops)
    ensures Believable(Run(book, ops))
    decreases |ops|
  {
    if ops != [] {
      PlainIsCalm(book, ops[0]);
      StepIsBelievable(book, ops[0]);
      PlainRunsTellTheTruth(Apply(book, ops[0]), ops[1..]);
    }
  }

  // ── when no file is bought twice ──────────────────────────────────────────

  /** No document is in two paid orders at one kiosk. */
  ghost predicate NoFileBoughtTwice(orders: seq<Order>) {
    forall a, b :: 0 <= a < |orders| && 0 <= b < |orders| && a != b && WasPaid(orders[a]) && WasPaid(orders[b]) ==>
      !Share(orders[a], orders[b])
  }

  lemma TasksSeenShareAFile(orders: seq<Order>, tasks: seq<Task>, id: nat)
    requires AllAttached(orders, tasks) && id < |orders|
    requires forall a :: 0 <= a < |orders| && a != id && WasPaid(orders[a]) ==> !Share(orders[a], orders[id])
    ensures SeesOwnOnly(orders[id], tasks, id)
  {
  }

  /** What was paid stays paid, over the same files. */
  lemma BoughtOnceBefore(orders: seq<Order>, after: seq<Order>)
    requires AllMoved(orders, after) && NoFileBoughtTwice(after)
    requires forall i :: 0 <= i < |orders| ==> (WasPaid(orders[i]) ==> WasPaid(after[i]))
    ensures NoFileBoughtTwice(orders)
  {
    forall a, b | 0 <= a < |orders| && 0 <= b < |orders| && a != b && WasPaid(orders[a]) && WasPaid(orders[b])
      ensures !Share(orders[a], orders[b])
    {
      assert Moved(orders[a], after[a]) && Moved(orders[b], after[b]);
      assert !Share(after[a], after[b]);
      SameDocuments(orders[a], after[a]);
      SameDocuments(orders[b], after[b]);
    }
  }

  /** An order about to be paid shares no file with one already paid, so it stands apart. */
  lemma BuyingOnceStandsApart(book: Book, after: seq<Order>, id: nat)
    requires Consistent(book) && PrintsMatchOrders(book.orders, book.tasks) && AllMoved(book.orders, after)
    requires forall i :: 0 <= i < |book.orders| ==> (WasPaid(book.orders[i]) ==> WasPaid(after[i]))
    requires NoFileBoughtTwice(after) && id < |book.orders| && !WasPaid(book.orders[id]) && WasPaid(after[id])
    ensures StandsApart(book, id)
  {
    forall a | 0 <= a < |book.orders| && WasPaid(book.orders[a])
      ensures !Share(book.orders[a], book.orders[id])
    {
      assert Moved(book.orders[a], after[a]) && Moved(book.orders[id], after[id]);
      assert !Share(after[a], after[id]);
      SameDocuments(book.orders[a], after[a]);
      SameDocuments(book.orders[id], after[id]);
    }
    TasksSeenShareAFile(book.orders, book.tasks, id);
    forall i | 0 <= i < |book.tasks| ensures !Sees(book.orders[id], book.tasks[i]) {
      assert Attached(book.orders, book.tasks[i]);
    }
    forall a | 0 <= a < |book.orders| && InFlight(book.orders[a]) ensures !Share(book.orders[a], book.orders[id]) {
      assert OrderWellFormed(book.orders[a]);
    }
  }

  lemma BuyingOnceIsCalm(book: Book, op: Op)
    requires Consistent(book) && PrintsMatchOrders(book.orders, book.tasks) && Legal(book, op)
    requires NoFileBoughtTwice(Apply(book, op).orders)
    ensures NoFileBoughtTwice(book.orders) && Calm(book, op)
  {
    var after := Apply(book, op);
    StepMoves(book, op);
    forall i | 0 <= i < |book.orders| ensures WasPaid(book.orders[i]) ==> WasPaid(after.orders[i]) {
      assert Moved(book.orders[i], after.orders[i]);
    }
    BoughtOnceBefore(book.orders, after.orders);
    if op.ConfirmPrinted? && Confirm(book, op.id).Ok? {
      assert OrderWellFormed(book.orders[op.id]);
      TasksSeenShareAFile(book.orders, book.tasks, op.id);
    } else if (op.PayFromWallet? || op.Settle?) && after != book {
      PaymentIsMarkPaid(book, op);
      assert OrderWellFormed(book.orders[PaidOrder(book, op)]);
      BuyingOnceStandsApart(book, after.orders, PaidOrder(book, op));
    }
  }

  /** A run that ends with no file bought twice at one kiosk was calm throughout, so every paid
      and unrefunded order is telling the truth. */
  lemma {:induction false} BuyingOnceRunsAreCalm(book: Book, ops: seq<Op>)
    requires Consistent(book) && PrintsMatchOrders(book.orders, book.tasks) && LegalRun(book, ops)
    requires NoFileBoughtTwice(Run(book, ops).orders)
    ensures NoFileBoughtTwice(book.orders) && CalmRun(book, ops)
    decreases |ops|
  {
    if ops != [] {
      StepMoves(book, ops[0]);
      StepKeepsMatch(book, ops[0]);
      BuyingOnceRunsAreCalm(Apply(book, ops[0]), ops[1..]);
      BuyingOnceIsCalm(book, ops[0]);
    }
  }

  lemma NothingYetIsBelievable()
    ensures Believable(EMPTY)
  {
  }

  lemma OrdersTellTheTruth(ops: seq<Op>)
    requires LegalRun(EMPTY, ops) && NoFileBoughtTwice(Run(EMPTY, ops).orders)
    ensures AllTruthful(Run(EMPTY, ops).orders, Run(EMPTY, ops).tasks)
  {
    NothingYetIsBelievable();
    BuyingOnceRunsAreCalm(EMPTY, ops);
    CalmRunsTellTheTruth(EMPTY, ops);
  }
}
