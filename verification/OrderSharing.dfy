/** Orders in flight over the same file. Which of them hears of a print is a matter of which was
    paid last, so a state can come to be wrong: exactly when, and what stays right all the same. */
module OrderSharing {
  import opened Outcomes
  import opened OrderBook
  import opened OrderRuns
  import opened OrderPrints
  import opened OrderTruth
  import opened OrderBelief

  // ── when re-deriving tells the truth ──────────────────────────────────────

  /** Another order's print that makes this one's own finished prints look like something else. */
  predicate Misleads(order: Order, tasks: seq<Task>, id: nat, task: Task) {
    && Sees(order, task) && !Owned(task, id)
    && (!Terminal(task.state) || (AllPrinted(tasks, id) && task.state != Printed))
  }

  predicate Misled(order: Order, tasks: seq<Task>, id: nat) {
    AllFinished(tasks, id) && exists i :: 0 <= i < |tasks| && Misleads(order, tasks, id, tasks[i])
  }

  /** Whatever else it sees, an order with a print still to come derives the truth; one whose prints
      have all ended derives it exactly when nothing in sight misleads. */
  lemma DerivedTellsTheTruthExactlyWhen(orders: seq<Order>, tasks: seq<Task>, id: nat)
    requires PrintsMatchOrders(orders, tasks) && id < |orders| && WasPaid(orders[id])
    ensures var order := orders[id];
            Truthful(order.(state := Derived(order, tasks)), tasks, id) <==> !Misled(order, tasks, id)
  {
    var order := orders[id];
    assert OneTaskPerLine(orders, tasks, id);
    PaidOrdersOwnTasks(orders, tasks, id);
    forall i | 0 <= i < |tasks| && Owned(tasks[i], id) ensures Sees(order, tasks[i]) {
      assert Attached(orders, tasks[i]);
    }
    var t :| 0 <= t < |tasks| && tasks[t].job.order == id;
    assert Sees(order, tasks[t]);
  }

  /** The last print of this order, whose money is not back, has ended. */
  predicate JustEnded(order: Order, before: seq<Task>, tasks: seq<Task>, id: nat) {
    order.state != Refunded && !AllFinished(before, id) && AllFinished(tasks, id)
  }

  /** Tasks that had ended are as they were. */
  predicate EndedStand(before: seq<Task>, tasks: seq<Task>) {
    |before| == |tasks| && forall i :: 0 <= i < |before| ==>
      before[i].job == tasks[i].job && (Terminal(before[i].state) ==> before[i].state == tasks[i].state)
  }

  /** Whether news of prints leaves an order telling the truth: if it hears of them, nothing in sight
      may mislead it; if it does not, they must not have been its last. */
  predicate HearsEnough(order: Order, before: seq<Task>, tasks: seq<Task>, id: nat, hears: bool) {
    if hears then !Misled(order, tasks, id) else !JustEnded(order, before, tasks, id)
  }

  lemma NewsAndOneOrder(orders: seq<Order>, before: seq<Task>, tasks: seq<Task>, id: nat, hears: bool)
    requires PrintsMatchOrders(orders, before) && SameJobs(before, tasks) && EndedStand(before, tasks)
    requires id < |orders| && OrderWellFormed(orders[id]) && Truthful(orders[id], before, id)
    requires hears ==> WasPaid(orders[id])
    ensures var state := if hears then Derived(orders[id], tasks) else orders[id].state;
            Truthful(orders[id].(state := state), tasks, id) <==> HearsEnough(orders[id], before, tasks, id, hears)
  {
    MatchIsStable(orders, before, orders, tasks);
    if hears {
      DerivedTellsTheTruthExactlyWhen(orders, tasks, id);
    } else {
      UnheardOrder(orders, before, tasks, id);
    }
  }

  lemma UnheardOrder(orders: seq<Order>, before: seq<Task>, tasks: seq<Task>, id: nat)
    requires AllAttached(orders, before) && EndedStand(before, tasks)
    requires id < |orders| && Truthful(orders[id], before, id)
    ensures Truthful(orders[id], tasks, id) <==> !JustEnded(orders[id], before, tasks, id)
  {
    if AllFinished(before, id) {
      SameOutcomeSameTruth(orders[id], before, tasks, id);
    } else {
      var i :| 0 <= i < |before| && Owned(before[i], id) && !Terminal(before[i].state);
      assert Attached(orders, before[i]);
      assert AllPrinted(tasks, id) ==> AllFinished(tasks, id);
    }
  }

  lemma OthersKeepTheirPrints(book: Book, op: Op, k: nat)
    requires Legal(book, op) && op.Move? && k != book.tasks[op.tid].job.order
    ensures AllFinished(Apply(book, op).tasks, k) == AllFinished(book.tasks, k)
  {
    var after := Apply(book, op).tasks;
    assert forall i :: 0 <= i < |after| ==> Owned(after[i], k) == Owned(book.tasks[i], k);
    assert forall i :: 0 <= i < |after| && Owned(after[i], k) ==> after[i] == book.tasks[i];
  }

  /** With any number of orders over one file, a report leaves every order telling the truth exactly
      when the order it reached is misled by no other print and, if that is not the order it was
      about, this was not the last print of the order it was about. */
  lemma ReportKeepsTheTruthExactlyWhen(book: Book, op: Op)
    requires Consistent(book) && PrintsMatchOrders(book.orders, book.tasks) && AllTruthful(book.orders, book.tasks)
    requires Legal(book, op) && op.Move? && Report(book, op.tid, op.state, op.now, op.choice).Ok?
    ensures var after := Apply(book, op);
            AllTruthful(after.orders, after.tasks)
            <==> var o := book.tasks[op.tid].job.order;
                 && (op.choice.Some? ==> !Misled(book.orders[op.choice.value], after.tasks, op.choice.value))
                 && (o < |book.orders| && op.choice != Some(o) ==>
                       !JustEnded(book.orders[o], book.tasks, after.tasks, o))
  {
    var after := Apply(book, op);
    forall k | 0 <= k < |book.orders|
      ensures Truthful(after.orders[k], after.tasks, k)
         <==> HearsEnough(book.orders[k], book.tasks, after.tasks, k, op.choice == Some(k))
    {
      assert OrderWellFormed(book.orders[k]);
      NewsAndOneOrder(book.orders, book.tasks, after.tasks, k, op.choice == Some(k));
    }
    forall k | 0 <= k < |book.orders| && k != book.tasks[op.tid].job.order
      ensures !JustEnded(book.orders[k], book.tasks, after.tasks, k)
    {
      OthersKeepTheirPrints(book, op, k);
    }
  }

  /** Whichever orders a sweep reached, each was re-derived once for all, and no other moved. */
  lemma {:induction false} RefreshedOrder(orders: seq<Order>, tasks: seq<Task>, choices: seq<Option<nat>>, k: nat)
    requires Within(choices, |orders|) && k < |orders|
    ensures RefreshEach(orders, tasks, choices)[k]
         == if Some(k) in choices then orders[k].(state := Derived(orders[k], tasks)) else orders[k]
    decreases |choices|
  {
    if choices != [] {
      var n := |choices| - 1;
      RefreshedOrder(orders, tasks, choices[..n], k);
      assert Some(k) in choices <==> Some(k) in choices[..n] || choices[n] == Some(k);
      DerivingTwice(orders[k], tasks);
    }
  }

  lemma DerivingTwice(order: Order, tasks: seq<Task>)
    ensures var again := order.(state := Derived(order, tasks));
            Derived(again, tasks) == Derived(order, tasks)
  {
    var again := order.(state := Derived(order, tasks));
    assert forall i :: 0 <= i < |tasks| ==> Sees(again, tasks[i]) == Sees(order, tasks[i]);
  }

  lemma SweptOrdersWerePaid(book: Book, op: Op, k: nat)
    requires Consistent(book) && Legal(book, op) && op.Sweep? && Some(k) in op.choices
    ensures k < |book.orders| && WasPaid(book.orders[k])
  {
    var tasks := FailExpired(book.tasks, op.now);
    var n :| 0 <= n < |op.choices| && op.choices[n] == Some(k);
    PickedSoFar(book.orders, tasks, op.lost, op.choices, n);
    var before := RefreshEach(book.orders, tasks, op.choices[..n]);
    assert Candidate(before[k], tasks[op.lost[n]].job.document, tasks[op.lost[n]].job.kiosk);
    assert OrderWellFormed(book.orders[k]) && Followed(book.orders[k], before[k]);
  }

  lemma SweepAndOneOrder(book: Book, op: Op, k: nat)
    requires Consistent(book) && PrintsMatchOrders(book.orders, book.tasks)
    requires Legal(book, op) && op.Sweep? && k < |book.orders| && Truthful(book.orders[k], book.tasks, k)
    ensures var after := Apply(book, op);
            && |after.orders| == |book.orders|
            && (Truthful(after.orders[k], after.tasks, k)
                <==> HearsEnough(book.orders[k], book.tasks, after.tasks, k, Some(k) in op.choices))
  {
    var after := Apply(book, op);
    assert OrderWellFormed(book.orders[k]);
    RefreshedOrder(book.orders, after.tasks, op.choices, k);
    if Some(k) in op.choices {
      SweptOrdersWerePaid(book, op, k);
    }
    NewsAndOneOrder(book.orders, book.tasks, after.tasks, k, Some(k) in op.choices);
  }

  /** And a sweep of any number of lost tasks, exactly when every order it reached is misled by no
      other print, and none it did not reach had its last print among the lost. */
  lemma SweepKeepsTheTruthExactlyWhen(book: Book, op: Op)
    requires Consistent(book) && PrintsMatchOrders(book.orders, book.tasks) && AllTruthful(book.orders, book.tasks)
    requires Legal(book, op) && op.Sweep?
    ensures var after := Apply(book, op);
            AllTruthful(after.orders, after.tasks)
            <==> forall k :: 0 <= k < |book.orders| ==>
                   HearsEnough(book.orders[k], book.tasks, after.tasks, k, Some(k) in op.choices)
  {
    var after := Apply(book, op);
    forall k | 0 <= k < |book.orders|
      ensures Truthful(after.orders[k], after.tasks, k)
         <==> HearsEnough(book.orders[k], book.tasks, after.tasks, k, Some(k) in op.choices)
    {
      SweepAndOneOrder(book, op, k);
    }
  }

  // ── what is true however files are shared ─────────────────────────────────

  /** An order with a print still to come has not landed. */
  predicate NoneLandedEarly(orders: seq<Order>, tasks: seq<Task>) {
    forall i :: 0 <= i < |orders| && WasPaid(orders[i]) && !AllFinished(tasks, i) ==>
      InFlight(orders[i]) || orders[i].state == Refunded
  }

  /** Nothing that had ended starts again, and only this order, if any, is given more to print. */
  predicate OnlyEnds(tasks: seq<Task>, after: seq<Task>) {
    |tasks| <= |after| && forall i :: 0 <= i < |tasks| ==>
      tasks[i].job == after[i].job && (Terminal(tasks[i].state) ==> Terminal(after[i].state))
  }

  lemma UnfinishedBefore(tasks: seq<Task>, after: seq<Task>, id: nat)
    requires OnlyEnds(tasks, after) && !AllFinished(after, id)
    requires forall i :: |tasks| <= i < |after| ==> !Owned(after[i], id)
    ensures !AllFinished(tasks, id)
  {
  }

  lemma UnfinishedIsSeen(orders: seq<Order>, tasks: seq<Task>, id: nat)
    requires AllAttached(orders, tasks) && id < |orders| && !AllFinished(tasks, id)
    ensures SeesUnfinished(orders[id], tasks) && Derived(orders[id], tasks) == Dispatched
  {
    var i :| 0 <= i < |tasks| && Owned(tasks[i], id) && !Terminal(tasks[i].state);
    assert Attached(orders, tasks[i]);
  }

  lemma {:induction false} RefreshingWhileUnfinished(orders: seq<Order>, tasks: seq<Task>, choices: seq<Option<nat>>,
                                                     id: nat)
    requires Within(choices, |orders|) && id < |orders| && SeesUnfinished(orders[id], tasks)
    ensures var after := RefreshEach(orders, tasks, choices)[id];
            after == orders[id] || after == orders[id].(state := Dispatched)
    decreases |choices|
  {
    if choices != [] {
      RefreshingWhileUnfinished(orders, tasks, choices[..|choices| - 1], id);
      var before := RefreshEach(orders, tasks, choices[..|choices| - 1])[id];
      var i :| 0 <= i < |tasks| && Sees(orders[id], tasks[i]) && !Terminal(tasks[i].state);
      assert Sees(before, tasks[i]);
    }
  }

  lemma PayingLandsNone(book: Book, op: Op)
    requires Consistent(book) && PrintsMatchOrders(book.orders, book.tasks) && Legal(book, op)
    requires NoneLandedEarly(book.orders, book.tasks) && (op.PayFromWallet? || op.Settle?)
    ensures NoneLandedEarly(Apply(book, op).orders, Apply(book, op).tasks)
  {
    var after := Apply(book, op);
    if after != book {
      PaymentIsMarkPaid(book, op);
      var id := PaidOrder(book, op);
      assert OrderWellFormed(book.orders[id]);
      var queued := Enqueued(id, book.orders[id], |book.orders[id].items|, op.stamp);
      EnqueuedJobs(id, book.orders[id], |book.orders[id].items|, op.stamp);
      forall i | 0 <= i < |after.orders| && i != id && !AllFinished(after.tasks, i)
        ensures !AllFinished(book.tasks, i)
      {
        QueueingForAnother(book.tasks, queued, i);
      }
    }
  }

  lemma SweepLandsNone(book: Book, op: Op)
    requires Consistent(book) && PrintsMatchOrders(book.orders, book.tasks) && Legal(book, op)
    requires NoneLandedEarly(book.orders, book.tasks) && op.Sweep?
    ensures NoneLandedEarly(Apply(book, op).orders, Apply(book, op).tasks)
  {
    var after := Apply(book, op);
    MatchIsStable(book.orders, book.tasks, book.orders, after.tasks);
    SweepFollows(book.orders, after.tasks, op.lost, op.choices);
    forall i | 0 <= i < |after.orders| && WasPaid(after.orders[i]) && !AllFinished(after.tasks, i)
      ensures InFlight(after.orders[i]) || after.orders[i].state == Refunded
    {
      UnfinishedBefore(book.tasks, after.tasks, i);
      UnfinishedIsSeen(book.orders, after.tasks, i);
      RefreshingWhileUnfinished(book.orders, after.tasks, op.choices, i);
      assert Followed(book.orders[i], after.orders[i]);
    }
  }

  /** Re-derived, an order with a print still to come is DISPATCHED. */
  lemma RederivingLandsNone(orders: seq<Order>, before: seq<Task>, tasks: seq<Task>, id: nat)
    requires AllAttached(orders, tasks) && NoneLandedEarly(orders, before) && id < |orders|
    requires OnlyEnds(before, tasks) && |before| == |tasks|
    ensures NoneLandedEarly(orders, tasks) && NoneLandedEarly(Rederive(orders, tasks, id), tasks)
  {
    forall i | 0 <= i < |orders| && !AllFinished(tasks, i) ensures !AllFinished(before, i) {
      UnfinishedBefore(before, tasks, i);
    }
    if !AllFinished(tasks, id) {
      UnfinishedIsSeen(orders, tasks, id);
    }
  }

  lemma ReportLandsNone(book: Book, op: Op)
    requires Consistent(book) && PrintsMatchOrders(book.orders, book.tasks) && Legal(book, op)
    requires NoneLandedEarly(book.orders, book.tasks) && op.Move?
    ensures NoneLandedEarly(Apply(book, op).orders, Apply(book, op).tasks)
  {
    var after := Apply(book, op);
    if after != book {
      MatchIsStable(book.orders, book.tasks, book.orders, after.tasks);
      RederivingLandsNone(book.orders, book.tasks, after.tasks, if op.choice.Some? then op.choice.value else 0);
    }
  }

  lemma ConfirmLandsNone(book: Book, op: Op)
    requires Consistent(book) && PrintsMatchOrders(book.orders, book.tasks) && Legal(book, op)
    requires NoneLandedEarly(book.orders, book.tasks) && op.ConfirmPrinted?
    ensures NoneLandedEarly(Apply(book, op).orders, Apply(book, op).tasks)
  {
    var after := Apply(book, op);
    if after != book {
      MatchIsStable(book.orders, book.tasks, book.orders, after.tasks);
      RederivingLandsNone(book.orders, book.tasks, after.tasks, op.id);
    }
  }

  lemma AsideLandsNone(book: Book, op: Op)
    requires Consistent(book) && Legal(book, op) && NoneLandedEarly(book.orders, book.tasks) && Aside(op)
    ensures NoneLandedEarly(Apply(book, op).orders, Apply(book, op).tasks)
  {
    var after := Apply(book, op);
    if book.orders != [] {
      AsideKeepsStates(book, op, 0);
    }
    forall i | 0 <= i < |after.orders| && WasPaid(after.orders[i]) && !AllFinished(after.tasks, i)
      ensures InFlight(after.orders[i]) || after.orders[i].state == Refunded
    {
      AsideKeepsStates(book, op, i);
      AsideKeepsOutcomes(book, op, i);
      assert !AllFinished(book.tasks, i);
    }
  }

  lemma StepLandsNone(book: Book, op: Op)
    requires Consistent(book) && PrintsMatchOrders(book.orders, book.tasks) && Legal(book, op)
    requires NoneLandedEarly(book.orders, book.tasks)
    ensures NoneLandedEarly(Apply(book, op).orders, Apply(book, op).tasks)
  {
    match op {
      case PayFromWallet(_, _, _) => PayingLandsNone(book, op);
      case Settle(_, _, _, _) => PayingLandsNone(book, op);
      case Sweep(_, _, _) => SweepLandsNone(book, op);
      case Move(_, _, _, _) => ReportLandsNone(book, op);
      case ConfirmPrinted(_) => ConfirmLandsNone(book, op);
      case PlaceOrder(_, _, _, _, _, _) => assert Apply(book, op).tasks == book.tasks;
      case _ => AsideLandsNone(book, op);
    }
  }

  /** Over every run, files shared or not: an order that came to COMPLETED or PARTIALLY_FAILED has
      no print of its own still to come. */
  lemma {:induction false} NoOrderLandsEarly(book: Book, ops: seq<Op>)
    requires Consistent(book) && PrintsMatchOrders(book.orders, book.tasks)
    requires NoneLandedEarly(book.orders, book.tasks) && LegalRun(book, ops)
    ensures var after := Run(book, ops);
            && Consistent(after) && PrintsMatchOrders(after.orders, after.tasks)
            && NoneLandedEarly(after.orders, after.tasks)
    decreases |ops|
  {
    if ops != [] {
      StepMoves(book, ops[0]);
      StepKeepsMatch(book, ops[0]);
      StepLandsNone(book, ops[0]);
      NoOrderLandsEarly(Apply(book, ops[0]), ops[1..]);
    }
  }

  // ── a print its machine blocked ───────────────────────────────────────────

  lemma {:induction false} BlockedStaysBlocked(book: Book, ops: seq<Op>, t: nat)
    requires LegalRun(book, ops) && t < |book.tasks| && book.tasks[t].state == Blocked
    ensures var after := Run(book, ops);
            t < |after.tasks| && after.tasks[t].state == Blocked && after.tasks[t].job == book.tasks[t].job
    decreases |ops|
  {
    if ops != [] {
      BlockedStaysBlocked(Apply(book, ops[0]), ops[1..], t);
    }
  }

  /** Nothing takes a print up again once its machine has blocked it, tray filled or not: in every
      history, however it goes on, the order that bought it never lands, and ends only in a refund. */
  lemma ABlockedOrderNeverLands(ops: seq<Op>, more: seq<Op>, t: nat)
    requires LegalRun(EMPTY, ops) && t < |Run(EMPTY, ops).tasks| && Run(EMPTY, ops).tasks[t].state == Blocked
    requires LegalRun(Run(EMPTY, ops), more)
    ensures var o, after := Run(EMPTY, ops).tasks[t].job.order, Run(Run(EMPTY, ops), more);
            && t < |after.tasks| && after.tasks[t].state == Blocked
            && o < |after.orders| && after.orders[o].state in {Paid, Dispatched, Refunded}
  {
    NoOrderLandsEarly(EMPTY, ops);
    var book := Run(EMPTY, ops);
    NoOrderLandsEarly(book, more);
    BlockedStaysBlocked(book, more, t);
    var after := Run(book, more);
    assert Attached(after.orders, after.tasks[t]);
    assert !AllFinished(after.tasks, after.tasks[t].job.order);
  }
}
