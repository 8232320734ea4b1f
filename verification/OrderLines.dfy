/** The column of line states beside an order, which must agree with the state above it. */
module OrderLines {
  import opened Outcomes
  import opened OrderBook
  import opened OrderRuns
  import opened OrderPrints
  import opened OrderTruth
  import opened OrderBelief

  predicate AllLinesShowPrinted(order: Order, tasks: seq<Task>) {
    forall i :: 0 <= i < |order.items| ==> PrintStatesOf(order, tasks)[i] == Some(Printed)
  }

  predicate LineSeen(order: Order, tasks: seq<Task>, i: nat) {
    i < |order.items| && order.items[i].document.Some? && StatesOf(order, order.items[i].document.value, tasks) != {}
  }

  predicate EveryLineSeen(order: Order, tasks: seq<Task>) {
    forall i :: 0 <= i < |order.items| ==> LineSeen(order, tasks, i)
  }

  /** A line reads "printed" exactly when something was sent for it and all of that printed. */
  lemma PrintedMeansAllPrinted(states: set<TaskState>)
    ensures HowItWent(states) == Some(Printed) <==> states == {Printed}
  {
  }

  predicate OnTheMachine(states: set<TaskState>) { SentToDevice in states || Printing in states }

  /** One word for a line, worst news first: a failure; else printed, if all of it was; else printing,
      blocked, queued or cancelled, in that order. */
  lemma WorstNewsFirst(states: set<TaskState>)
    ensures HowItWent(states) ==
              if Failed in states then Some(Failed)
              else if OnTheMachine(states) then Some(Printing)
              else if Blocked in states then Some(Blocked)
              else if Queued in states then Some(Queued)
              else if Cancelled in states then Some(Cancelled)
              else if Printed in states then Some(Printed) else None
  {
    if s :| s in states && InHand(s) {
      assert OnTheMachine(states);
    }
    if s :| s in states && s != Printed {
      assert s in {Queued, SentToDevice, Printing, Failed, Blocked, Cancelled};
    }
    if OnTheMachine(states) {
      assert InHand(SentToDevice) && InHand(Printing);
    }
  }

  lemma LineShowsPrinted(order: Order, tasks: seq<Task>, i: nat)
    requires i < |order.items| && order.items[i].document.Some?
    ensures PrintStatesOf(order, tasks)[i] == Some(Printed)
       <==> StatesOf(order, order.items[i].document.value, tasks) == {Printed}
  {
  }

  /** This task was sent for the file of this line, at the order's kiosk, since the order was placed. */
  predicate SentFor(order: Order, i: nat, task: Task)
    requires i < |order.items|
  {
    order.items[i].document == Some(task.job.document) && task.job.kiosk == order.kiosk
    && order.createdAt <= task.createdAt
  }

  lemma StatesOfItsOwnFile(order: Order, tasks: seq<Task>, i: nat, state: TaskState)
    requires i < |order.items| && order.items[i].document.Some?
    ensures state in StatesOf(order, order.items[i].document.value, tasks)
       <==> exists t :: 0 <= t < |tasks| && SentFor(order, i, tasks[t]) && tasks[t].state == state
  {
  }

  /** A line goes by the prints of its own file, sent for since the order was placed, and by no other. */
  lemma ALineShowsItsOwnFile(order: Order, tasks: seq<Task>, i: nat)
    requires i < |order.items|
    ensures PrintStatesOf(order, tasks)[i] == Some(Failed)
       <==> exists t :: 0 <= t < |tasks| && SentFor(order, i, tasks[t]) && tasks[t].state == Failed
    ensures PrintStatesOf(order, tasks)[i] == None <==> forall t :: 0 <= t < |tasks| ==> !SentFor(order, i, tasks[t])
    ensures PrintStatesOf(order, tasks)[i] == Some(Printed)
       <==> && (exists t :: 0 <= t < |tasks| && SentFor(order, i, tasks[t]))
            && forall t :: 0 <= t < |tasks| && SentFor(order, i, tasks[t]) ==> tasks[t].state == Printed
  {
    if order.items[i].document.Some? {
      var states := StatesOf(order, order.items[i].document.value, tasks);
      forall state ensures state in states
                      <==> exists t :: 0 <= t < |tasks| && SentFor(order, i, tasks[t]) && tasks[t].state == state
      {
        StatesOfItsOwnFile(order, tasks, i, state);
      }
      WorstNewsFirst(states);
      PrintedMeansAllPrinted(states);
      assert states == {} || states == {Printed} || exists state :: state in states && state != Printed;
    }
  }

  /** Read from the same tasks, the lines all show printed exactly when COMPLETED is derived. */
  lemma ColumnAgreesWithDerivation(order: Order, tasks: seq<Task>)
    requires AllDocuments(order.items) && EveryLineSeen(order, tasks)
    ensures AllLinesShowPrinted(order, tasks) <==> Derived(order, tasks) == Completed
  {
    assert !SeesNone(order, tasks) by {
      assert LineSeen(order, tasks, 0);
      var s :| s in StatesOf(order, order.items[0].document.value, tasks);
      var t :| 0 <= t < |tasks| && Sees(order, tasks[t]) && tasks[t].state == s;
    }
    if AllLinesShowPrinted(order, tasks) {
      forall t | 0 <= t < |tasks| && Sees(order, tasks[t]) ensures tasks[t].state == Printed {
        var i :| 0 <= i < |order.items| && order.items[i].document == Some(tasks[t].job.document);
        LineShowsPrinted(order, tasks, i);
        assert tasks[t].state in StatesOf(order, tasks[t].job.document, tasks);
      }
    }
    if Derived(order, tasks) == Completed {
      forall i | 0 <= i < |order.items| ensures PrintStatesOf(order, tasks)[i] == Some(Printed) {
        assert LineSeen(order, tasks, i);
        var states := StatesOf(order, order.items[i].document.value, tasks);
        assert forall s :: s in states ==> s == Printed;
        var s :| s in states;
        assert states == {Printed};
        LineShowsPrinted(order, tasks, i);
      }
    }
  }

  lemma PaidLinesAreSeen(orders: seq<Order>, tasks: seq<Task>, id: nat)
    requires PrintsMatchOrders(orders, tasks) && id < |orders| && WasPaid(orders[id])
    requires AllDocuments(orders[id].items)
    ensures EveryLineSeen(orders[id], tasks)
  {
    var order := orders[id];
    PaidOrdersOwnTasks(orders, tasks, id);
    forall i | 0 <= i < |order.items| ensures LineSeen(order, tasks, i) {
      var t :| 0 <= t < |tasks| && tasks[t].job == LinesAsJobs(id, order)[i];
      assert Attached(orders, tasks[t]);
      assert tasks[t].state in StatesOf(order, order.items[i].document.value, tasks);
    }
  }

  /** For a paid order that sees only its own prints, every line shows printed exactly when the
      order is COMPLETED. */
  lemma PrintedLinesMeanCompleted(orders: seq<Order>, tasks: seq<Task>, id: nat)
    requires PrintsMatchOrders(orders, tasks) && id < |orders|
    requires OrderWellFormed(orders[id]) && WasPaid(orders[id]) && orders[id].state != Refunded
    requires Truthful(orders[id], tasks, id) && SeesOwnOnly(orders[id], tasks, id)
    ensures AllLinesShowPrinted(orders[id], tasks) <==> orders[id].state == Completed
  {
    PaidLinesAreSeen(orders, tasks, id);
    ColumnAgreesWithDerivation(orders[id], tasks);
    DerivedIsTruthful(orders, tasks, id);
  }

  /** Over every run from an empty start that ends with no file bought twice at one kiosk, every
      line of a paid, unrefunded order shows printed exactly when the order is COMPLETED. */
  lemma LinesFollowOrders(ops: seq<Op>, id: nat)
    requires LegalRun(EMPTY, ops) && NoFileBoughtTwice(Run(EMPTY, ops).orders)
    requires id < |Run(EMPTY, ops).orders| && WasPaid(Run(EMPTY, ops).orders[id])
    ensures var after := Run(EMPTY, ops);
            after.orders[id].state != Refunded ==>
              (AllLinesShowPrinted(after.orders[id], after.tasks) <==> after.orders[id].state == Completed)
  {
    var after := Run(EMPTY, ops);
    NothingYetIsBelievable();
    RunKeepsMatch(EMPTY, ops);
    OrdersTellTheTruth(ops);
    TasksSeenShareAFile(after.orders, after.tasks, id);
    if after.orders[id].state != Refunded {
      assert OrderWellFormed(after.orders[id]) && Truthful(after.orders[id], after.tasks, id);
      PrintedLinesMeanCompleted(after.orders, after.tasks, id);
    }
  }
}
