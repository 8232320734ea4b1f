/** How long a machine may go quiet about a print it has taken up. */
module OrderLeases {
  import opened Outcomes
  import opened OrderBook
  import opened OrderRuns

  /** The machine takes this task up, says it still has it, or says it is printing it. */
  predicate SpeaksOf(book: Book, op: Op, t: nat)
    requires Legal(book, op)
  {
    match op
    case Claim(tid, _) => tid == t && book.tasks[t].state == Queued
    case Renew(tid, _) => tid == t && book.tasks[t].state in {SentToDevice, Printing}
    case Move(tid, state, _, _) => tid == t && state == Printing && book.tasks[t].state in {SentToDevice, Printing}
    case _ => false
  }

  /** When it last did, by the server's clock. */
  function LastSpokenOf(book: Book, ops: seq<Op>, t: nat, before: Option<int>): Option<int>
    requires LegalRun(book, ops)
    decreases |ops|
  {
    if ops == [] then before
    else LastSpokenOf(Apply(book, ops[0]), ops[1..], t, if SpeaksOf(book, ops[0], t) then Some(ops[0].now) else before)
  }

  /** A task in a machine's hands is leased to it for a quarter of an hour from its last word, and no
      other task is leased to anybody. */
  predicate LeasedFrom(tasks: seq<Task>, t: nat, spoken: Option<int>) {
    && (t < |tasks| && tasks[t].state in {SentToDevice, Printing} ==>
          spoken.Some? && tasks[t].lease == Some(spoken.value + 900_000_000))
    && (t < |tasks| && tasks[t].state !in {SentToDevice, Printing} ==> tasks[t].lease == None)
  }

  lemma StepKeepsLease(book: Book, op: Op, t: nat, spoken: Option<int>)
    requires Legal(book, op) && LeasedFrom(book.tasks, t, spoken)
    ensures LeasedFrom(Apply(book, op).tasks, t, if SpeaksOf(book, op, t) then Some(op.now) else spoken)
  {
    if op.PayFromWallet? || op.Settle? {
      NewTasksAreQueued(book, op, t);
    }
  }

  lemma NewTasksAreQueued(book: Book, op: Op, t: nat)
    requires Legal(book, op) && (op.PayFromWallet? || op.Settle?)
    ensures var after := Apply(book, op).tasks;
            && (t < |book.tasks| ==> t < |after| && after[t] == book.tasks[t])
            && (|book.tasks| <= t < |after| ==> after[t].state == Queued && after[t].lease == None)
  {
    var id := if op.PayFromWallet? then op.id else book.payments[op.pid].order;
    EnqueuedAreQueued(id, book.orders[id], |book.orders[id].items|, op.stamp);
  }

  lemma {:induction false} EnqueuedAreQueued(id: nat, order: Order, n: nat, stamp: int)
    requires n <= |order.items|
    ensures forall i :: 0 <= i < |Enqueued(id, order, n, stamp)| ==>
              Enqueued(id, order, n, stamp)[i].state == Queued && Enqueued(id, order, n, stamp)[i].lease == None
  {
    if n > 0 { EnqueuedAreQueued(id, order, n - 1, stamp); }
  }

  lemma {:induction false} LeasesRunFromTheLastWord(book: Book, ops: seq<Op>, t: nat, spoken: Option<int>)
    requires LegalRun(book, ops) && LeasedFrom(book.tasks, t, spoken)
    ensures LeasedFrom(Run(book, ops).tasks, t, LastSpokenOf(book, ops, t, spoken))
    decreases |ops|
  {
    if ops != [] {
      StepKeepsLease(book, ops[0], t, spoken);
      var heard := if SpeaksOf(book, ops[0], t) then Some(ops[0].now) else spoken;
      LeasesRunFromTheLastWord(Apply(book, ops[0]), ops[1..], t, heard);
    }
  }

  /** Over every history: a sweep gives a task up exactly if it is in a machine's hands and the machine
      was last heard of it more than a quarter of an hour ago, and leaves every other as it is. */
  lemma GivenUpExactlyWhenQuiet(ops: seq<Op>, t: nat, now: int)
    requires LegalRun(EMPTY, ops) && t < |Run(EMPTY, ops).tasks|
    ensures var task, spoken := Run(EMPTY, ops).tasks[t], LastSpokenOf(EMPTY, ops, t, None);
            && (task.state in {SentToDevice, Printing} ==> spoken.Some?)
            && FailExpired(Run(EMPTY, ops).tasks, now)[t]
               == if task.state in {SentToDevice, Printing} && spoken.value + 900_000_000 < now
                  then task.(state := Failed, lease := None) else task
  {
    LeasesRunFromTheLastWord(EMPTY, ops, t, None);
  }

  /** A machine may say of a print exactly while it is in its hands that it is printing, printed, failed
      or will not be tried. The first three reach the order; the last does not, and takes it from
      the machine. Nothing else about any task changes. */
  lemma SaidExactlyWhileInHand(book: Book, tid: nat, state: TaskState, now: int, choice: Option<nat>)
    requires tid < |book.tasks| && (choice.Some? ==> choice.value < |book.orders|)
    ensures var task, r := book.tasks[tid], Report(book, tid, state, now, choice);
            && (r.Ok? <==> task.state in {SentToDevice, Printing})
            && (r.Ok? ==>
                  && r.value.tasks[tid].state == state && r.value.tasks[tid].job == task.job
                  && r.value.tasks[tid].createdAt == task.createdAt && |r.value.tasks| == |book.tasks|
                  && forall t :: 0 <= t < |book.tasks| && t != tid ==> r.value.tasks[t] == book.tasks[t])
    ensures var task, r := book.tasks[tid], ReportBlocked(book, tid);
            && (r.Ok? <==> task.state in {SentToDevice, Printing})
            && (r.Ok? ==>
                  && r.value.orders == book.orders && |r.value.tasks| == |book.tasks|
                  && r.value.tasks[tid] == task.(state := Blocked, lease := None)
                  && forall t :: 0 <= t < |book.tasks| && t != tid ==> r.value.tasks[t] == book.tasks[t])
  {
  }
}
