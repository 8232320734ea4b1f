/** Orders and their prints over every history: each paid order has one task per line, and its
    state is the truth about those tasks for as long as it sees no other order's. */
module OrderPrints {
  import opened Outcomes
  import opened OrderBook
  import opened OrderRuns

  // ── one task per line ─────────────────────────────────────────────────────

  /** The jobs bought by one order, in the order they were queued. */
  function JobsOf(tasks: seq<Task>, id: nat): seq<Job> {
    if tasks == [] then []
    else
      var init, last := JobsOf(tasks[..|tasks| - 1], id), tasks[|tasks| - 1].job;
      if last.order == id then init + [last] else init
  }

  /** The lines of an order as jobs: each line's own document and settings, at the order's kiosk. */
  function LinesAsJobs(id: nat, order: Order): seq<Job>
    requires AllDocuments(order.items)
  {
    seq(|order.items|, i requires 0 <= i < |order.items| =>
      Job(id, i, order.items[i].document.value, order.kiosk, order.items[i].options, order.items[i].selected))
  }

  /** This job prints this line of this order, with the settings paid for. */
  predicate PrintsLine(job: Job, id: nat, order: Order, i: nat) {
    && i < |order.items| && job.order == id && job.position == i
    && Some(job.document) == order.items[i].document && job.kiosk == order.kiosk
    && job.options == order.items[i].options && job.selected == order.items[i].selected
  }

  predicate Attached(orders: seq<Order>, task: Task) {
    && task.job.order < |orders|
    && WasPaid(orders[task.job.order])
    && Sees(orders[task.job.order], task)
  }

  predicate AllAttached(orders: seq<Order>, tasks: seq<Task>) {
    forall i :: 0 <= i < |tasks| ==> Attached(orders, tasks[i])
  }

  predicate OneTaskPerLine(orders: seq<Order>, tasks: seq<Task>, id: nat) {
    && id < |orders| && AllDocuments(orders[id].items)
    && var jobs := JobsOf(tasks, id);
       && |jobs| == (if WasPaid(orders[id]) then |orders[id].items| else 0)
       && forall i :: 0 <= i < |jobs| ==> PrintsLine(jobs[i], id, orders[id], i)
  }

  /** Every task belongs to a paid order that sees it; every paid order has exactly one task for
      each of its lines, with the settings paid for, and an unpaid order has none. */
  predicate PrintsMatchOrders(orders: seq<Order>, tasks: seq<Task>) {
    && AllAttached(orders, tasks)
    && forall id :: 0 <= id < |orders| ==> OneTaskPerLine(orders, tasks, id)
  }

  predicate SameJobs(a: seq<Task>, b: seq<Task>) {
    |a| == |b| && forall i :: 0 <= i < |a| ==> a[i].job == b[i].job && a[i].createdAt == b[i].createdAt
  }

  predicate SameAgreements(a: seq<Order>, b: seq<Order>) {
    |a| == |b| && forall i :: 0 <= i < |a| ==> SameTerms(a[i], b[i]) && (WasPaid(a[i]) <==> WasPaid(b[i]))
  }

  lemma {:induction false} SameJobsOf(a: seq<Task>, b: seq<Task>, id: nat)
    requires SameJobs(a, b)
    ensures JobsOf(a, id) == JobsOf(b, id)
  {
    if a != [] {
      SameJobsOf(a[..|a| - 1], b[..|b| - 1], id);
    }
  }

  lemma {:induction false} JobsOfConcat(a: seq<Task>, b: seq<Task>, id: nat)
    ensures JobsOf(a + b, id) == JobsOf(a, id) + JobsOf(b, id)
  {
    if b == [] {
      assert a + b == a;
    } else {
      var n := |b| - 1;
      assert (a + b)[..|a + b| - 1] == a + b[..n];
      JobsOfConcat(a, b[..n], id);
    }
  }

  lemma {:induction false} NoJobsOf(tasks: seq<Task>, id: nat)
    requires forall i :: 0 <= i < |tasks| ==> tasks[i].job.order != id
    ensures JobsOf(tasks, id) == []
  {
    if tasks != [] {
      NoJobsOf(tasks[..|tasks| - 1], id);
    }
  }

  /** A job in the list is the job of some task. */
  lemma {:induction false} JobHasTask(tasks: seq<Task>, id: nat, job: Job)
    requires job in JobsOf(tasks, id)
    ensures exists i :: 0 <= i < |tasks| && tasks[i].job == job && job.order == id
  {
    var n := |tasks| - 1;
    if job in JobsOf(tasks[..n], id) {
      JobHasTask(tasks[..n], id, job);
      var i :| 0 <= i < n && tasks[..n][i].job == job && job.order == id;
      assert tasks[i].job == job;
    } else {
      assert tasks[n].job == job;
    }
  }

  lemma {:induction false} EnqueuedJobs(id: nat, order: Order, n: nat, stamp: int)
    requires AllDocuments(order.items) && n <= |order.items|
    ensures JobsOf(Enqueued(id, order, n, stamp), id) == LinesAsJobs(id, order)[..n]
    ensures forall i :: 0 <= i < |Enqueued(id, order, n, stamp)| ==>
              var t := Enqueued(id, order, n, stamp)[i];
              && t.job.order == id && t.job.kiosk == order.kiosk && Prints(order, t.job.document)
              && t.createdAt == stamp && t.state == Queued
  {
    if n != 0 {
      EnqueuedJobs(id, order, n - 1, stamp);
      var init := Enqueued(id, order, n - 1, stamp);
      assert Enqueued(id, order, n, stamp)[..|init|] == init;
      assert Prints(order, order.items[n - 1].document.value);
    }
  }

  /** States may move, and orders follow: what was bought stays what is queued. */
  lemma MatchIsStable(orders: seq<Order>, tasks: seq<Task>, orders': seq<Order>, tasks': seq<Task>)
    requires PrintsMatchOrders(orders, tasks)
    requires SameAgreements(orders, orders') && SameJobs(tasks, tasks')
    ensures PrintsMatchOrders(orders', tasks')
  {
    forall i | 0 <= i < |tasks'| ensures Attached(orders', tasks'[i]) {
      assert Attached(orders, tasks[i]);
      SameSight(orders[tasks[i].job.order], orders'[tasks[i].job.order], tasks[i], tasks'[i]);
    }
    forall id | 0 <= id < |orders'| ensures OneTaskPerLine(orders', tasks', id) {
      assert OneTaskPerLine(orders, tasks, id);
      SameJobsOf(tasks, tasks', id);
    }
  }

  lemma SameSight(a: Order, b: Order, s: Task, t: Task)
    requires SameTerms(a, b) && s.job == t.job && s.createdAt == t.createdAt
    ensures Sees(a, s) == Sees(b, t)
  {
  }

  lemma MatchAfterPlacing(orders: seq<Order>, tasks: seq<Task>, order: Order)
    requires PrintsMatchOrders(orders, tasks) && AllDocuments(order.items) && !WasPaid(order)
    ensures PrintsMatchOrders(orders + [order], tasks)
  {
    var after := orders + [order];
    forall i | 0 <= i < |tasks| ensures Attached(after, tasks[i]) && tasks[i].job.order < |orders| {
      assert Attached(orders, tasks[i]);
    }
    NoJobsOf(tasks, |orders|);
    forall id | 0 <= id < |after| ensures OneTaskPerLine(after, tasks, id) {
      assert id < |orders| ==> OneTaskPerLine(orders, tasks, id);
    }
  }

  lemma AttachedAfterPaying(book: Book, id: nat, reference: Reference, now: int, stamp: int)
    requires AllAttached(book.orders, book.tasks) && id < |book.orders|
    requires OrderWellFormed(book.orders[id]) && stamp >= book.orders[id].createdAt
    requires MarkPaid(book, id, reference, now, stamp).Ok?
    ensures var after := MarkPaid(book, id, reference, now, stamp).value;
            AllAttached(after.orders, after.tasks)
  {
    var order := book.orders[id];
    var after := MarkPaid(book, id, reference, now, stamp).value;
    var queued := Enqueued(id, order, |order.items|, stamp);
    EnqueuedJobs(id, order, |order.items|, stamp);
    forall i | 0 <= i < |after.tasks| ensures Attached(after.orders, after.tasks[i]) {
      if i < |book.tasks| {
        assert Attached(book.orders, book.tasks[i]);
        var o := book.tasks[i].job.order;
        SameSight(book.orders[o], after.orders[o], book.tasks[i], book.tasks[i]);
      } else {
        assert after.tasks[i] == queued[i - |book.tasks|];
        SameSight(order, after.orders[id], after.tasks[i], after.tasks[i]);
      }
    }
  }

  /** Paying is what queues the work: each line once, nobody else's touched. */
  lemma MatchAfterPaying(book: Book, id: nat, reference: Reference, now: int, stamp: int)
    requires PrintsMatchOrders(book.orders, book.tasks) && id < |book.orders|
    requires OrderWellFormed(book.orders[id]) && stamp >= book.orders[id].createdAt
    requires MarkPaid(book, id, reference, now, stamp).Ok?
    ensures var after := MarkPaid(book, id, reference, now, stamp).value;
            PrintsMatchOrders(after.orders, after.tasks)
  {
    var order := book.orders[id];
    var after := MarkPaid(book, id, reference, now, stamp).value;
    var queued := Enqueued(id, order, |order.items|, stamp);
    AttachedAfterPaying(book, id, reference, now, stamp);
    EnqueuedJobs(id, order, |order.items|, stamp);
    forall k | 0 <= k < |after.orders| ensures OneTaskPerLine(after.orders, after.tasks, k) {
      assert OneTaskPerLine(book.orders, book.tasks, k);
      JobsOfConcat(book.tasks, queued, k);
      if k == id {
        assert LinesAsJobs(id, order)[..|order.items|] == LinesAsJobs(id, after.orders[id]);
      } else {
        NoJobsOf(queued, k);
      }
    }
  }

  /** Being paid is written on the order, at that instant and under that reference, and on nothing else:
      what was agreed stands, and every task before it. What it queues waits for a machine. */
  lemma MarkPaidWrites(book: Book, id: nat, reference: Reference, now: int, stamp: int)
    requires id < |book.orders| && AllDocuments(book.orders[id].items)
    requires MarkPaid(book, id, reference, now, stamp).Ok?
    ensures var after := MarkPaid(book, id, reference, now, stamp).value;
            && |after.orders| == |book.orders|
            && (forall k :: 0 <= k < |book.orders| && k != id ==> after.orders[k] == book.orders[k])
            && SameTerms(book.orders[id], after.orders[id]) && after.orders[id].state == OrderState.Paid
            && after.orders[id].paidAt == Some(now) && after.orders[id].reference == Some(reference)
            && after.orders[id].refundedAt == book.orders[id].refundedAt
            && after == book.(orders := after.orders, tasks := after.tasks)
            && |book.tasks| <= |after.tasks| && after.tasks[..|book.tasks|] == book.tasks
            && forall t :: |book.tasks| <= t < |after.tasks| ==>
                 after.tasks[t].state == Queued && after.tasks[t].createdAt == stamp && after.tasks[t].job.order == id
  {
    EnqueuedJobs(id, book.orders[id], |book.orders[id].items|, stamp);
  }

  lemma AgreementsStand(orders: seq<Order>, after: seq<Order>)
    requires AllFollowed(orders, after)
    ensures SameAgreements(orders, after)
  {
  }

  lemma OthersKeepJobs(book: Book, op: Op)
    requires Legal(book, op) && !op.PlaceOrder? && !op.PayFromWallet? && !op.Settle?
    ensures SameJobs(book.tasks, Apply(book, op).tasks)
  {
  }

  lemma OthersKeepAgreements(book: Book, op: Op)
    requires Consistent(book) && Legal(book, op) && !op.PlaceOrder? && !op.PayFromWallet? && !op.Settle?
    ensures SameAgreements(book.orders, Apply(book, op).orders)
  {
    var after := Apply(book, op);
    if op.Move? {
      var job := book.tasks[op.tid].job;
      RefreshFollows(book.orders, after.tasks, job.document, job.kiosk, op.choice);
    } else if op.Sweep? {
      SweepFollows(book.orders, FailExpired(book.tasks, op.now), op.lost, op.choices);
      AgreementsStand(book.orders, after.orders);
    } else {
      StepMoves(book, op);
      assert |after.orders| == |book.orders|;
      forall i | 0 <= i < |book.orders| ensures WasPaid(book.orders[i]) <==> WasPaid(after.orders[i]) {
        assert OrderWellFormed(book.orders[i]) && Moved(book.orders[i], after.orders[i]);
      }
    }
  }

  /** The book as `mark_paid` finds it when a payment goes through. */
  function Recorded(book: Book, op: Op): Book
    requires Legal(book, op) && (op.PayFromWallet? || op.Settle?)
    requires Apply(book, op) != book
  {
    match op
    case PayFromWallet(id, _, _) =>
      Debit(book, book.orders[id].user, book.orders[id].total, OrderId(id)).value
        .(payments := book.payments + [WalletPayment(id, book.orders[id].total)])
    case Settle(pid, gatewayId, _, _) =>
      book.(payments := book.payments[pid := book.payments[pid].(status := Captured, gatewayId := Some(gatewayId))])
  }

  function PaidOrder(book: Book, op: Op): nat
    requires Legal(book, op) && (op.PayFromWallet? || op.Settle?)
  {
    match op
    case PayFromWallet(id, _, _) => id
    case Settle(pid, _, _, _) => book.payments[pid].order
  }

  function PaidReference(op: Op): Reference
    requires op.PayFromWallet? || op.Settle?
  {
    if op.PayFromWallet? then OrderId(op.id) else Foreign(op.gatewayId)
  }

  /** Both doors lead through the one commit. */
  lemma PaymentIsMarkPaid(book: Book, op: Op)
    requires Legal(book, op) && (op.PayFromWallet? || op.Settle?) && Apply(book, op) != book
    ensures var recorded := Recorded(book, op);
            && recorded.orders == book.orders && recorded.tasks == book.tasks
            && MarkPaid(recorded, PaidOrder(book, op), PaidReference(op), op.now, op.stamp) == Ok(Apply(book, op))
  {
  }

  lemma StepKeepsMatch(book: Book, op: Op)
    requires Consistent(book) && PrintsMatchOrders(book.orders, book.tasks) && Legal(book, op)
    ensures PrintsMatchOrders(Apply(book, op).orders, Apply(book, op).tasks)
  {
    if op.PlaceOrder? {
      StepMoves(book, op);
      var after := Apply(book, op);
      if after != book {
        var order := after.orders[|book.orders|];
        assert OrderWellFormed(order);
        MatchAfterPlacing(book.orders, book.tasks, order);
      }
    } else if op.PayFromWallet? || op.Settle? {
      if Apply(book, op) != book {
        PaymentIsMarkPaid(book, op);
        var id := PaidOrder(book, op);
        assert OrderWellFormed(book.orders[id]);
        MatchAfterPaying(Recorded(book, op), id, PaidReference(op), op.now, op.stamp);
      }
    } else {
      OthersKeepJobs(book, op);
      OthersKeepAgreements(book, op);
      MatchIsStable(book.orders, book.tasks, Apply(book, op).orders, Apply(book, op).tasks);
    }
  }

  /** Over every run: an order that was paid has exactly one task for each line it was paid for,
      and no other task exists. */
  lemma {:induction false} RunKeepsMatch(book: Book, ops: seq<Op>)
    requires Consistent(book) && PrintsMatchOrders(book.orders, book.tasks) && LegalRun(book, ops)
    ensures var after := Run(book, ops);
            Consistent(after) && PrintsMatchOrders(after.orders, after.tasks)
    decreases |ops|
  {
    if ops != [] {
      StepMoves(book, ops[0]);
      StepKeepsMatch(book, ops[0]);
      RunKeepsMatch(Apply(book, ops[0]), ops[1..]);
    }
  }

  /** So a paid order always has something to print. */
  lemma PaidOrdersOwnTasks(orders: seq<Order>, tasks: seq<Task>, id: nat)
    requires PrintsMatchOrders(orders, tasks) && id < |orders| && WasPaid(orders[id])
    requires AllDocuments(orders[id].items)
    ensures forall i :: 0 <= i < |orders[id].items| ==>
              exists t :: 0 <= t < |tasks| && tasks[t].job == LinesAsJobs(id, orders[id])[i]
    ensures exists t :: 0 <= t < |tasks| && tasks[t].job.order == id
  {
    assert OneTaskPerLine(orders, tasks, id);
    assert forall i :: 0 <= i < |orders[id].items| ==> PrintsLine(JobsOf(tasks, id)[i], id, orders[id], i);
    assert JobsOf(tasks, id) == LinesAsJobs(id, orders[id]);
    forall i | 0 <= i < |orders[id].items|
      ensures exists t :: 0 <= t < |tasks| && tasks[t].job == LinesAsJobs(id, orders[id])[i]
    {
      JobHasTask(tasks, id, LinesAsJobs(id, orders[id])[i]);
    }
    JobHasTask(tasks, id, LinesAsJobs(id, orders[id])[0]);
  }
}
