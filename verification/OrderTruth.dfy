/** When an order's state can be believed. A task names a document and never an order, so this
    is a matter of which other tasks an order takes for its own. */
module OrderTruth {
  import opened Outcomes
  import opened OrderBook
  import opened OrderRuns
  import opened OrderPrints

  predicate Owned(task: Task, id: nat) { task.job.order == id }

  predicate AllPrinted(tasks: seq<Task>, id: nat) {
    forall i :: 0 <= i < |tasks| && Owned(tasks[i], id) ==> tasks[i].state == Printed
  }

  predicate AllFinished(tasks: seq<Task>, id: nat) {
    forall i :: 0 <= i < |tasks| && Owned(tasks[i], id) ==> tasks[i].state in {Printed, Failed, Cancelled}
  }

  /** What a paid order's state says, unless its money went back, about the tasks it bought. */
  predicate Truthful(order: Order, tasks: seq<Task>, id: nat) {
    WasPaid(order) && order.state != Refunded ==>
      && (order.state == Completed <==> AllPrinted(tasks, id))
      && (order.state == PartiallyFailed <==> AllFinished(tasks, id) && !AllPrinted(tasks, id))
      && (InFlight(order) <==> !AllFinished(tasks, id))
  }

  predicate AllTruthful(orders: seq<Order>, tasks: seq<Task>) {
    forall i :: 0 <= i < |orders| ==> Truthful(orders[i], tasks, i)
  }

  /** Nothing this order takes for its own print belongs to another. */
  predicate SeesOwnOnly(order: Order, tasks: seq<Task>, id: nat) {
    forall i :: 0 <= i < |tasks| && Sees(order, tasks[i]) ==> Owned(tasks[i], id)
  }

  ghost predicate Share(a: Order, b: Order) {
    a.kiosk == b.kiosk && exists d: nat :: Prints(a, d) && Prints(b, d)
  }

  ghost predicate Apart(orders: seq<Order>) {
    forall a, b :: 0 <= a < |orders| && 0 <= b < |orders| && a != b && InFlight(orders[a]) && InFlight(orders[b]) ==>
      !Share(orders[a], orders[b])
  }

  predicate FlightsSeeOwnOnly(orders: seq<Order>, tasks: seq<Task>) {
    forall a :: 0 <= a < |orders| && InFlight(orders[a]) ==> SeesOwnOnly(orders[a], tasks, a)
  }

  /** No two orders in flight at a kiosk share a document, and each sees only its own prints. */
  ghost predicate Isolated(orders: seq<Order>, tasks: seq<Task>) {
    Apart(orders) && FlightsSeeOwnOnly(orders, tasks)
  }

  ghost predicate Believable(book: Book) {
    && Consistent(book) && PrintsMatchOrders(book.orders, book.tasks)
    && Isolated(book.orders, book.tasks) && AllTruthful(book.orders, book.tasks)
  }

  // ── deriving ──────────────────────────────────────────────────────────────

  /** Some print this order takes for its own is in this state. */
  predicate Shows(order: Order, tasks: seq<Task>, state: TaskState) {
    exists i :: 0 <= i < |tasks| && Sees(order, tasks[i]) && tasks[i].state == state
  }

  /** What an order makes of the prints in sight: still under way while one is queued, in a machine's
      hands or blocked; else PARTIALLY_FAILED if one failed or was cancelled; else COMPLETED if there
      is one at all. */
  lemma WhatPrintsSay(order: Order, tasks: seq<Task>)
    ensures Derived(order, tasks) ==
              if Shows(order, tasks, Queued) || Shows(order, tasks, SentToDevice) || Shows(order, tasks, Printing)
                 || Shows(order, tasks, Blocked) then Dispatched
              else if Shows(order, tasks, Failed) || Shows(order, tasks, Cancelled) then PartiallyFailed
              else if Shows(order, tasks, Printed) then Completed else order.state
  {
    if !SeesNone(order, tasks) {
      var i :| 0 <= i < |tasks| && Sees(order, tasks[i]);
      assert Shows(order, tasks, tasks[i].state);
    }
    if SeesUnfinished(order, tasks) {
      var i :| 0 <= i < |tasks| && Sees(order, tasks[i]) && !Terminal(tasks[i].state);
      assert Shows(order, tasks, tasks[i].state);
    } else if !SeesAllPrinted(order, tasks) {
      var i :| 0 <= i < |tasks| && Sees(order, tasks[i]) && tasks[i].state != Printed;
      assert Shows(order, tasks, tasks[i].state);
    }
  }

  /** An order that sees exactly its own tasks derives the truth. */
  lemma DerivedIsTruthful(orders: seq<Order>, tasks: seq<Task>, id: nat)
    requires PrintsMatchOrders(orders, tasks) && id < |orders| && WasPaid(orders[id])
    requires AllDocuments(orders[id].items) && SeesOwnOnly(orders[id], tasks, id)
    ensures Derived(orders[id], tasks) != Refunded
    ensures Truthful(orders[id].(state := Derived(orders[id], tasks)), tasks, id)
    ensures Derived(orders[id], tasks) in {Dispatched, Completed, PartiallyFailed}
  {
    var order := orders[id];
    PaidOrdersOwnTasks(orders, tasks, id);
    forall i | 0 <= i < |tasks| ensures Owned(tasks[i], id) <==> Sees(order, tasks[i]) {
      assert Attached(orders, tasks[i]);
    }
    var t :| 0 <= t < |tasks| && tasks[t].job.order == id;
    assert Sees(order, tasks[t]);
  }

  /** The only order in flight a task's move can reach is the one that bought it. */
  lemma OwnerIsTheOnlyCandidate(orders: seq<Order>, task: Task, choice: Option<nat>)
    requires Attached(orders, task) && Apart(orders) && InFlight(orders[task.job.order])
    requires IsOwnerOfPrint(orders, task.job.document, task.job.kiosk, choice)
    ensures choice == Some(task.job.order)
  {
  }

  // ── steps that leave orders in flight alone ───────────────────────────────

  /** Isolation survives as long as nothing new takes off. */
  lemma IsolationIsStable(orders: seq<Order>, tasks: seq<Task>, orders': seq<Order>, tasks': seq<Task>)
    requires Isolated(orders, tasks) && SameJobs(tasks, tasks') && |orders| <= |orders'|
    requires forall i :: 0 <= i < |orders'| && InFlight(orders'[i]) ==>
               i < |orders| && InFlight(orders[i]) && SameTerms(orders[i], orders'[i])
    ensures Isolated(orders', tasks')
  {
    forall a | 0 <= a < |orders'| && InFlight(orders'[a]) ensures SeesOwnOnly(orders'[a], tasks', a) {
      assert SeesOwnOnly(orders[a], tasks, a);
      forall i | 0 <= i < |tasks| ensures Sees(orders[a], tasks[i]) == Sees(orders'[a], tasks'[i]) {
        SameSight(orders[a], orders'[a], tasks[i], tasks'[i]);
      }
    }
    forall a, b | 0 <= a < |orders'| && 0 <= b < |orders'| && a != b && InFlight(orders'[a]) && InFlight(orders'[b])
      ensures !Share(orders'[a], orders'[b])
    {
      assert !Share(orders[a], orders[b]);
      SameDocuments(orders[a], orders'[a]);
      SameDocuments(orders[b], orders'[b]);
    }
  }

  lemma SameDocuments(a: Order, b: Order)
    requires SameTerms(a, b)
    ensures a.kiosk == b.kiosk && forall d: nat :: Prints(a, d) == Prints(b, d)
  {
  }

  /** The order's own tasks finished or printed exactly as they were. */
  predicate SameOutcome(tasks: seq<Task>, after: seq<Task>, id: nat) {
    |tasks| == |after| && forall i :: 0 <= i < |tasks| ==>
      && tasks[i].job == after[i].job
      && (Owned(tasks[i], id) ==>
            (tasks[i].state == Printed <==> after[i].state == Printed)
            && (Terminal(tasks[i].state) <==> Terminal(after[i].state)))
  }

  lemma SameOutcomeSameTruth(order: Order, tasks: seq<Task>, after: seq<Task>, id: nat)
    requires SameOutcome(tasks, after, id)
    ensures Truthful(order, tasks, id) == Truthful(order, after, id)
  {
  }

  // ── a device reports ──────────────────────────────────────────────────────

  /** After a refresh: the order picked is truthful, and so is any order that already was. */
  lemma RefreshTellsTheTruth(orders: seq<Order>, tasks: seq<Task>, document: nat, kiosk: nat, choice: Option<nat>,
                             i: nat)
    requires PrintsMatchOrders(orders, tasks) && FlightsSeeOwnOnly(orders, tasks)
    requires forall k :: 0 <= k < |orders| ==> OrderWellFormed(orders[k])
    requires IsOwnerOfPrint(orders, document, kiosk, choice)
    requires i < |orders| && (choice == Some(i) || Truthful(orders[i], tasks, i))
    ensures Truthful(Refresh(orders, tasks, choice)[i], tasks, i)
  {
    if choice == Some(i) {
      assert OrderWellFormed(orders[i]);
      DerivedIsTruthful(orders, tasks, i);
    }
  }

  lemma ReportIsTruthful(book: Book, op: Op)
    requires Believable(book) && Legal(book, op) && op.Move?
    ensures AllTruthful(Apply(book, op).orders, Apply(book, op).tasks)
  {
    var after := Apply(book, op);
    if after != book {
      var task := book.tasks[op.tid];
      var o := task.job.order;
      var tasks := book.tasks[op.tid := Reported(task, op.state, op.now)];
      MatchIsStable(book.orders, book.tasks, book.orders, tasks);
      IsolationIsStable(book.orders, book.tasks, book.orders, tasks);
      assert Attached(book.orders, task) && Truthful(book.orders[o], book.tasks, o);
      assert !AllFinished(book.tasks, o);
      if InFlight(book.orders[o]) {
        OwnerIsTheOnlyCandidate(book.orders, task, op.choice);
      }
      forall i | 0 <= i < |after.orders| ensures Truthful(after.orders[i], after.tasks, i) {
        if i != o {
          SameOutcomeSameTruth(book.orders[i], book.tasks, tasks, i);
        }
        RefreshTellsTheTruth(book.orders, tasks, task.job.document, task.job.kiosk, op.choice, i);
      }
    }
  }

  // ── the sweep ─────────────────────────────────────────────────────────────

  /** A lost task of this order is still to be reported. */
  predicate Awaited(tasks: seq<Task>, lost: seq<nat>, from: nat, id: nat) {
    exists j :: from <= j < |lost| && lost[j] < |tasks| && Owned(tasks[lost[j]], id)
  }

  predicate TruthfulOrAwaited(orders: seq<Order>, tasks: seq<Task>, lost: seq<nat>, from: nat) {
    forall i :: 0 <= i < |orders| ==>
      Truthful(orders[i], tasks, i) || (InFlight(orders[i]) && Awaited(tasks, lost, from, i))
  }

  lemma FailingLeavesOnlyTheLost(book: Book, now: int, lost: seq<nat>)
    requires Believable(book) && ListsTheLost(book.tasks, now, lost)
    ensures TruthfulOrAwaited(book.orders, FailExpired(book.tasks, now), lost, 0)
  {
    var tasks := FailExpired(book.tasks, now);
    forall i | 0 <= i < |book.orders|
      ensures Truthful(book.orders[i], tasks, i) || (InFlight(book.orders[i]) && Awaited(tasks, lost, 0, i))
    {
      assert Truthful(book.orders[i], book.tasks, i) && OrderWellFormed(book.orders[i]);
      if t :| 0 <= t < |tasks| && Owned(book.tasks[t], i) && Lost(book.tasks[t], now) {
        assert !AllFinished(book.tasks, i) && Attached(book.orders, book.tasks[t]);
        var j :| 0 <= j < |lost| && lost[j] == t;
        assert Awaited(tasks, lost, 0, i);
      } else {
        SameOutcomeSameTruth(book.orders[i], book.tasks, tasks, i);
      }
    }
  }

  /** One refresh of the sweep settles the order whose task it was for. */
  lemma SweepOneMore(orders: seq<Order>, tasks: seq<Task>, lost: seq<nat>, k: nat, choice: Option<nat>)
    requires PrintsMatchOrders(orders, tasks) && Isolated(orders, tasks)
    requires forall i :: 0 <= i < |orders| ==> OrderWellFormed(orders[i])
    requires k < |lost| && lost[k] < |tasks|
    requires IsOwnerOfPrint(orders, tasks[lost[k]].job.document, tasks[lost[k]].job.kiosk, choice)
    requires TruthfulOrAwaited(orders, tasks, lost, k)
    ensures TruthfulOrAwaited(Refresh(orders, tasks, choice), tasks, lost, k + 1)
  {
  }

  /** Orders that only followed their prints are still isolated, matched and well formed. */
  lemma FollowedStaysSound(orders: seq<Order>, tasks: seq<Task>, after: seq<Order>)
    requires PrintsMatchOrders(orders, tasks) && Isolated(orders, tasks) && AllFollowed(orders, after)
    requires forall i :: 0 <= i < |orders| ==> OrderWellFormed(orders[i])
    ensures PrintsMatchOrders(after, tasks) && Isolated(after, tasks)
    ensures forall i :: 0 <= i < |after| ==> OrderWellFormed(after[i])
  {
    forall i | 0 <= i < |orders| ensures OrderWellFormed(after[i]) && (InFlight(after[i]) ==> InFlight(orders[i])) {
      assert OrderWellFormed(orders[i]) && Followed(orders[i], after[i]);
    }
    AgreementsStand(orders, after);
    MatchIsStable(orders, tasks, after, tasks);
    IsolationIsStable(orders, tasks, after, tasks);
  }

  lemma PickedSoFar(orders: seq<Order>, tasks: seq<Task>, lost: seq<nat>, choices: seq<Option<nat>>, n: nat)
    requires OwnersPicked(orders, tasks, lost, choices) && n <= |choices|
    ensures OwnersPicked(orders, tasks, lost[..n], choices[..n])
    ensures AllFollowed(orders, RefreshEach(orders, tasks, choices[..n]))
  {
    forall k | 0 <= k < n ensures choices[..n][..k] == choices[..k] {}
    SweepFollows(orders, tasks, lost[..n], choices[..n]);
  }

  lemma RefreshOneMore(orders: seq<Order>, tasks: seq<Task>, choices: seq<Option<nat>>, n: nat)
    requires Within(choices, |orders|) && 0 < n <= |choices|
    ensures RefreshEach(orders, tasks, choices[..n])
         == Refresh(RefreshEach(orders, tasks, choices[..n - 1]), tasks, choices[n - 1])
  {
    assert choices[..n][..n - 1] == choices[..n - 1];
  }

  lemma {:induction false} SweepSettles(orders: seq<Order>, tasks: seq<Task>, lost: seq<nat>,
                                        choices: seq<Option<nat>>, n: nat)
    requires PrintsMatchOrders(orders, tasks) && Isolated(orders, tasks)
    requires forall i :: 0 <= i < |orders| ==> OrderWellFormed(orders[i])
    requires OwnersPicked(orders, tasks, lost, choices) && n <= |choices|
    requires TruthfulOrAwaited(orders, tasks, lost, 0)
    ensures TruthfulOrAwaited(RefreshEach(orders, tasks, choices[..n]), tasks, lost, n)
  {
    if n == 0 {
      assert choices[..0] == [];
    } else {
      SweepSettles(orders, tasks, lost, choices, n - 1);
      var before := RefreshEach(orders, tasks, choices[..n - 1]);
      PickedSoFar(orders, tasks, lost, choices, n - 1);
      FollowedStaysSound(orders, tasks, before);
      SweepOneMore(before, tasks, lost, n - 1, choices[n - 1]);
      RefreshOneMore(orders, tasks, choices, n);
    }
  }

  lemma SweepIsTruthful(book: Book, op: Op)
    requires Believable(book) && Legal(book, op) && op.Sweep?
    ensures AllTruthful(Apply(book, op).orders, Apply(book, op).tasks)
  {
    var tasks := FailExpired(book.tasks, op.now);
    FailingLeavesOnlyTheLost(book, op.now, op.lost);
    MatchIsStable(book.orders, book.tasks, book.orders, tasks);
    IsolationIsStable(book.orders, book.tasks, book.orders, tasks);
    SweepSettles(book.orders, tasks, op.lost, op.choices, |op.choices|);
    assert op.choices[..|op.choices|] == op.choices;
  }
}
