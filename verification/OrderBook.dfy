/** Orders, the print tasks they buy, and the money that pays for them: five tables and the
    operations on them. A row's index is its id. `now` is the server's clock, `stamp` the
    database's, which dates new rows. A refused operation leaves the tables as they were. */
module OrderBook {
  import opened Outcomes
  import opened PrintQuotes
  import K = KioskPricing

  const ORDER_LIFETIME: int := 20 * 60_000_000
  const LEASE: int := 15 * 60_000_000

  datatype OrderState =
    | Draft | AwaitingPayment | Paid | Dispatched | Completed | Expired | Refunded | PartiallyFailed

  datatype PaymentMethod = Wallet | Gateway

  // A student's order id, or any reference minted elsewhere (a gateway's, a refund's, an administrator's).
  datatype Reference = OrderId(id: nat) | Foreign(token: nat)

  // `selected` is how many pages the stored range picks out of the document.
  datatype Item = Item(document: Option<nat>, options: PrintOptions, selected: nat, amount: int)

  datatype Order = Order(
    user: nat,
    kiosk: nat,
    state: OrderState,
    items: seq<Item>,
    subtotal: int,
    fee: int,
    total: int,
    means: PaymentMethod,
    expiresAt: Option<int>,
    paidAt: Option<int>,
    reference: Option<Reference>,
    refundedAt: Option<int>,
    createdAt: int)

  datatype TaskState = Queued | SentToDevice | Printing | Printed | Failed | Blocked | Cancelled

  // `order` says which order bought the print. The table has no such column, so no operation reads it.
  datatype Job = Job(order: nat, position: nat, document: nat, kiosk: nat, options: PrintOptions, selected: nat)

  datatype Task = Task(job: Job, state: TaskState, createdAt: int, lease: Option<int>)

  datatype PaymentStatus = Created | Captured | FailedPayment | FullyRefunded | PartiallyRefunded

  datatype Payment = Payment(
    order: nat,
    source: PaymentMethod,
    amount: int,
    status: PaymentStatus,
    refunded: int,
    gatewayId: Option<nat>)

  datatype EntryKind = Spend | Credit

  datatype Entry = Entry(user: nat, kind: EntryKind, amount: int, reference: Reference)

  datatype Book = Book(
    orders: seq<Order>,
    tasks: seq<Task>,
    payments: seq<Payment>,
    entries: seq<Entry>,
    balances: map<nat, int>)

  const EMPTY: Book := Book([], [], [], [], map[])

  datatype Refusal =
    | KioskClosed | WalletNotAccepted | ColourNotOffered | NotYourDocument | NotPrintable | BadPages
    | EmptyOrder | NotEnoughPaper
    | AlreadyPaid | OrderNotOpen | OrderExpired | WrongMethod
    | MustBePositive | NotEnough | AlreadyRecorded
    | NothingToPay | AlreadyCaptured | WrongPayment | NotCaptured | RefundExceeds
    | AlreadyFinished | NotInHand | NotQueued
    | NotPartlyFailed | AlreadyRefunded | NothingToConfirm

  // ── placing ───────────────────────────────────────────────────────────────

  // What `place_order` reads about the kiosk it is placed at.
  datatype Shop = Shop(kiosk: nat, open: bool, takesWallet: bool, colour: bool, prices: K.Prices, sheetsLeft: nat)

  // `selected` is `None` when the page range does not parse against the document.
  datatype Request = Request(document: nat, owner: nat, ready: bool, options: PrintOptions, selected: Option<nat>)

  function CheckedItem(request: Request, user: nat, prices: K.Prices): Result<Item, Refusal> {
    if request.owner != user then Refused(NotYourDocument)
    else if !request.ready then Refused(NotPrintable)
    else if request.selected.None? then Refused(BadPages)
    else
      var selected := request.selected.value;
      Ok(Item(Some(request.document), request.options, selected, LineAmount(request.options, selected, prices)))
  }

  /** The lines of an order, or the first thing wrong with a request. */
  function CheckedItems(requests: seq<Request>, user: nat, prices: K.Prices): Result<seq<Item>, Refusal> {
    if requests == [] then Ok([])
    else
      var init := CheckedItems(requests[..|requests| - 1], user, prices);
      if init.Refused? then init
      else
        var last := CheckedItem(requests[|requests| - 1], user, prices);
        if last.Refused? then Refused(last.error) else Ok(init.value + [last.value])
  }

  function Amounts(items: seq<Item>): seq<int> {
    seq(|items|, i requires 0 <= i < |items| => items[i].amount)
  }

  function SheetsNeeded(items: seq<Item>): nat {
    if items == [] then 0
    else
      var last := items[|items| - 1];
      SheetsNeeded(items[..|items| - 1]) + WorkloadOf(last.options, last.selected).Sheets()
  }

  predicate WantsColour(requests: seq<Request>) {
    exists i :: 0 <= i < |requests| && requests[i].options.colour
  }

  /** `place_order` */
  function Place(book: Book, user: nat, shop: Shop, requests: seq<Request>, means: PaymentMethod, now: int, stamp: int):
    Result<Book, Refusal>
  {
    if !shop.open then Refused(KioskClosed)
    else if means == Wallet && !shop.takesWallet then Refused(WalletNotAccepted)
    else if !shop.colour && WantsColour(requests) then Refused(ColourNotOffered)
    else
      var items := CheckedItems(requests, user, shop.prices);
      if items.Refused? then Refused(items.error)
      else
        var quote := Build(Amounts(items.value), means == Wallet);
        if quote.Refused? then Refused(Refusal.EmptyOrder)
        else if SheetsNeeded(items.value) > shop.sheetsLeft then Refused(NotEnoughPaper)
        else
          var order := Order(user, shop.kiosk, AwaitingPayment, items.value, quote.value.subtotal, quote.value.fee,
                             quote.value.total, means, Some(now + ORDER_LIFETIME), None, None, None, stamp);
          Ok(book.(orders := book.orders + [order]))
  }

  // ── paying ────────────────────────────────────────────────────────────────

  /** `require_payable`: what it raises, if it raises. */
  function RequirePayable(order: Order, now: int): Option<Refusal> {
    if order.state == Paid || order.state == Dispatched then Some(AlreadyPaid)
    else if order.state in {Completed, Expired, Refunded, PartiallyFailed} then Some(OrderNotOpen)
    else if order.state != AwaitingPayment then Some(OrderNotOpen)
    else if order.expiresAt.Some? && order.expiresAt.value <= now then Some(OrderExpired)
    else None
  }

  function JobFor(id: nat, order: Order, position: nat): Job
    requires position < |order.items| && order.items[position].document.Some?
  {
    var item := order.items[position];
    Job(id, position, item.document.value, order.kiosk, item.options, item.selected)
  }

  /** One queued task for each of the first `n` lines that print a document. */
  function Enqueued(id: nat, order: Order, n: nat, stamp: int): seq<Task>
    requires n <= |order.items|
  {
    if n == 0 then []
    else if order.items[n - 1].document.None? then Enqueued(id, order, n - 1, stamp)
    else Enqueued(id, order, n - 1, stamp) + [Task(JobFor(id, order, n - 1), Queued, stamp, None)]
  }

  function Settled(order: Order, reference: Reference, now: int): Order {
    order.(state := Paid, paidAt := Some(now), reference := Some(reference))
  }

  /** `mark_paid` */
  function MarkPaid(book: Book, id: nat, reference: Reference, now: int, stamp: int): Result<Book, Refusal>
    requires id < |book.orders|
  {
    var order := book.orders[id];
    var refusal := RequirePayable(order, now);
    if refusal.Some? then Refused(refusal.value)
    else
      Ok(book.(orders := book.orders[id := Settled(order, reference, now)],
               tasks := book.tasks + Enqueued(id, order, |order.items|, stamp)))
  }

  predicate Used(entries: seq<Entry>, user: nat, reference: Reference) {
    exists i :: 0 <= i < |entries| && entries[i].user == user && entries[i].reference == reference
  }

  /** `debit`: refuses an overdraft and a repeated reference. */
  function Debit(book: Book, user: nat, amount: int, reference: Reference): Result<Book, Refusal> {
    if amount <= 0 then Refused(MustBePositive)
    else if user !in book.balances || book.balances[user] < amount then Refused(NotEnough)
    else if Used(book.entries, user, reference) then Refused(AlreadyRecorded)
    else
      Ok(book.(balances := book.balances[user := book.balances[user] - amount],
               entries := book.entries + [Entry(user, Spend, -amount, reference)]))
  }

  /** `credit` */
  function CreditWallet(book: Book, user: nat, amount: int, reference: Reference): Result<Book, Refusal> {
    if amount <= 0 then Refused(MustBePositive)
    else if Used(book.entries, user, reference) then Refused(AlreadyRecorded)
    else
      var balance := if user in book.balances then book.balances[user] else 0;
      Ok(book.(balances := book.balances[user := balance + amount],
               entries := book.entries + [Entry(user, Credit, amount, reference)]))
  }

  function WalletPayment(id: nat, amount: int): Payment { Payment(id, Wallet, amount, Captured, 0, None) }

  /** `pay_with_wallet`: check, debit, record, and mark paid, which checks again. */
  function PayWallet(book: Book, id: nat, now: int, stamp: int): Result<Book, Refusal>
    requires id < |book.orders|
  {
    var order := book.orders[id];
    var refusal := RequirePayable(order, now);
    if refusal.Some? then Refused(refusal.value)
    else if order.means != Wallet then Refused(WrongMethod)
    else
      var debited := Debit(book, order.user, order.total, OrderId(id));
      if debited.Refused? then debited
      else
        var recorded := debited.value.(payments := book.payments + [WalletPayment(id, order.total)]);
        MarkPaid(recorded, id, OrderId(id), now, stamp)
  }

  /** The checkout route: a payment row written before the student is sent to pay. */
  function OpenCheckout(book: Book, id: nat): Result<Book, Refusal>
    requires id < |book.orders|
  {
    var order := book.orders[id];
    if order.means != Gateway then Refused(WrongMethod)
    else if order.state != AwaitingPayment then Refused(AlreadyPaid)
    else if order.total <= 0 then Refused(NothingToPay)
    else Ok(book.(payments := book.payments + [Payment(id, Gateway, order.total, Created, 0, None)]))
  }

  predicate Claimed(payments: seq<Payment>, gatewayId: nat) {
    exists i :: 0 <= i < |payments| && payments[i].gatewayId == Some(gatewayId)
  }

  /** A capture and what it settles: `record_capture`, then `mark_paid`, in one transaction.
      Both the browser's callback and the webhook come through here. */
  function Capture(book: Book, pid: nat, gatewayId: nat, now: int, stamp: int): Result<Book, Refusal>
    requires pid < |book.payments| && book.payments[pid].order < |book.orders|
  {
    var payment := book.payments[pid];
    if payment.status == Captured then
      Refused(if payment.gatewayId == Some(gatewayId) then AlreadyCaptured else WrongPayment)
    else if Claimed(book.payments[pid := payment.(gatewayId := None)], gatewayId) then Refused(AlreadyCaptured)
    else
      var captured := payment.(status := Captured, gatewayId := Some(gatewayId));
      MarkPaid(book.(payments := book.payments[pid := captured]), payment.order, Foreign(gatewayId), now, stamp)
  }

  /** `record_failure` */
  function RecordFailure(book: Book, pid: nat): Result<Book, Refusal>
    requires pid < |book.payments|
  {
    if book.payments[pid].status == Captured then Refused(AlreadyCaptured)
    else Ok(book.(payments := book.payments[pid := book.payments[pid].(status := FailedPayment)]))
  }

  // ── giving money back ─────────────────────────────────────────────────────

  /** `apply_payment_refund`: the order closes when everything paid for it has gone back. */
  function ApplyRefund(order: Order, refunded: int, paid: int, now: int): Order {
    if refunded < paid then order else order.(state := Refunded, refundedAt := Some(now))
  }

  /** `refund`, with a fresh idempotency key, and the order closed through its sink. */
  function RefundPayment(book: Book, pid: nat, amount: int, toWallet: bool, key: nat, now: int): Result<Book, Refusal>
    requires pid < |book.payments| && book.payments[pid].order < |book.orders|
  {
    var payment := book.payments[pid];
    if amount <= 0 then Refused(MustBePositive)
    else if payment.status != Captured && payment.status != PartiallyRefunded then Refused(NotCaptured)
    else if amount > payment.amount - payment.refunded then Refused(RefundExceeds)
    else
      var refunded := payment.refunded + amount;
      var status := if refunded >= payment.amount then FullyRefunded else PartiallyRefunded;
      var order := ApplyRefund(book.orders[payment.order], refunded, payment.amount, now);
      var after := book.(payments := book.payments[pid := payment.(refunded := refunded, status := status)],
                         orders := book.orders[payment.order := order]);
      if toWallet then CreditWallet(after, book.orders[payment.order].user, amount, Foreign(key)) else Ok(after)
  }

  /** `payment_for_order`: the newest payment row naming the order, whatever its status. */
  function PaymentForOrder(payments: seq<Payment>, id: nat): (k: Option<nat>)
    ensures k.Some? ==> k.value < |payments| && payments[k.value].order == id
    ensures k.None? ==> forall i :: 0 <= i < |payments| ==> payments[i].order != id
    ensures k.Some? ==> forall i :: k.value < i < |payments| ==> payments[i].order != id
  {
    if payments == [] then None
    else if payments[|payments| - 1].order == id then Some(|payments| - 1)
    else PaymentForOrder(payments[..|payments| - 1], id)
  }

  // ── how an order follows its prints ───────────────────────────────────────

  predicate Terminal(state: TaskState) { state == Printed || state == Failed || state == Cancelled }

  predicate InHand(state: TaskState) { state == SentToDevice || state == Printing }

  predicate InFlight(order: Order) { order.state == Paid || order.state == Dispatched }

  predicate Prints(order: Order, document: nat) {
    exists i :: 0 <= i < |order.items| && order.items[i].document == Some(document)
  }

  /** `_one_orders`: the tasks an order takes to be its own. */
  predicate Sees(order: Order, task: Task) {
    Prints(order, task.job.document) && task.job.kiosk == order.kiosk && task.createdAt >= order.createdAt
  }

  predicate SeesNone(order: Order, tasks: seq<Task>) {
    forall i :: 0 <= i < |tasks| ==> !Sees(order, tasks[i])
  }

  predicate SeesUnfinished(order: Order, tasks: seq<Task>) {
    exists i :: 0 <= i < |tasks| && Sees(order, tasks[i]) && !Terminal(tasks[i].state)
  }

  predicate SeesAllPrinted(order: Order, tasks: seq<Task>) {
    forall i :: 0 <= i < |tasks| && Sees(order, tasks[i]) ==> tasks[i].state == Printed
  }

  /** `_derive_from_prints` */
  function Derived(order: Order, tasks: seq<Task>): OrderState {
    if SeesNone(order, tasks) then order.state
    else if SeesUnfinished(order, tasks) then Dispatched
    else if SeesAllPrinted(order, tasks) then Completed
    else PartiallyFailed
  }

  function Rederive(orders: seq<Order>, tasks: seq<Task>, id: nat): seq<Order>
    requires id < |orders|
  {
    orders[id := orders[id].(state := Derived(orders[id], tasks))]
  }

  predicate Candidate(order: Order, document: nat, kiosk: nat) {
    InFlight(order) && order.kiosk == kiosk && Prints(order, document)
  }

  /** A missing time sorts last, as the database sorts it. */
  predicate PaidNoLater(a: Order, b: Order) {
    b.paidAt.None? || (a.paidAt.Some? && a.paidAt.value <= b.paidAt.value)
  }

  /** The order `refresh_order_state` may pick for a print that moved: in flight, over that
      document at that kiosk, and paid last. Equal payment times may come back in either order. */
  predicate IsOwnerOfPrint(orders: seq<Order>, document: nat, kiosk: nat, choice: Option<nat>) {
    match choice
    case None => forall i :: 0 <= i < |orders| ==> !Candidate(orders[i], document, kiosk)
    case Some(k) =>
      && k < |orders| && Candidate(orders[k], document, kiosk)
      && forall i :: 0 <= i < |orders| && Candidate(orders[i], document, kiosk) ==> PaidNoLater(orders[i], orders[k])
  }

  /** `refresh_order_state`, the owner of the print having been picked. */
  function Refresh(orders: seq<Order>, tasks: seq<Task>, choice: Option<nat>): (after: seq<Order>)
    requires choice.Some? ==> choice.value < |orders|
    ensures |after| == |orders|
  {
    if choice.None? then orders else Rederive(orders, tasks, choice.value)
  }

  function RefuseNotInHand(task: Task): Option<Refusal> {
    if Terminal(task.state) then Some(AlreadyFinished)
    else if !InHand(task.state) then Some(NotInHand)
    else None
  }

  /** The task as a device's report leaves it. */
  function Reported(task: Task, state: TaskState, now: int): Task {
    task.(state := state, lease := if state == Printing then Some(now + LEASE) else None)
  }

  /** `start_printing`, `report_printed`, `report_failed`: the task moves, and its order hears. */
  function Report(book: Book, tid: nat, state: TaskState, now: int, choice: Option<nat>): Result<Book, Refusal>
    requires tid < |book.tasks| && (choice.Some? ==> choice.value < |book.orders|)
  {
    var refusal := RefuseNotInHand(book.tasks[tid]);
    if refusal.Some? then Refused(refusal.value)
    else
      var tasks := book.tasks[tid := Reported(book.tasks[tid], state, now)];
      Ok(book.(tasks := tasks, orders := Refresh(book.orders, tasks, choice)))
  }

  /** `report_blocked`: nothing printed, and the order is not told. */
  function ReportBlocked(book: Book, tid: nat): Result<Book, Refusal>
    requires tid < |book.tasks|
  {
    var refusal := RefuseNotInHand(book.tasks[tid]);
    if refusal.Some? then Refused(refusal.value)
    else Ok(book.(tasks := book.tasks[tid := book.tasks[tid].(state := Blocked, lease := None)]))
  }

  /** `claim_next_task`, whichever queued task is next. */
  function ClaimTask(book: Book, tid: nat, now: int): Result<Book, Refusal>
    requires tid < |book.tasks|
  {
    if book.tasks[tid].state != Queued then Refused(NotQueued)
    else Ok(book.(tasks := book.tasks[tid := book.tasks[tid].(state := SentToDevice, lease := Some(now + LEASE))]))
  }

  /** `renew_held_lease`: anything not in hand is ignored. */
  function RenewLease(book: Book, tid: nat, now: int): Book
    requires tid < |book.tasks|
  {
    if !InHand(book.tasks[tid].state) then book
    else book.(tasks := book.tasks[tid := book.tasks[tid].(lease := Some(now + LEASE))])
  }

  // ── work a device went quiet on ───────────────────────────────────────────

  predicate Lost(task: Task, now: int) {
    InHand(task.state) && task.lease.Some? && task.lease.value < now
  }

  function GivenUp(task: Task, now: int): Task {
    if Lost(task, now) then task.(state := Failed, lease := None) else task
  }

  /** `fail_expired` */
  function FailExpired(tasks: seq<Task>, now: int): seq<Task> {
    seq(|tasks|, i requires 0 <= i < |tasks| => GivenUp(tasks[i], now))
  }

  /** The lost tasks, each listed, in whatever order the query returned them. */
  predicate ListsTheLost(tasks: seq<Task>, now: int, lost: seq<nat>) {
    && (forall k :: 0 <= k < |lost| ==> lost[k] < |tasks| && Lost(tasks[lost[k]], now))
    && forall i :: 0 <= i < |tasks| && Lost(tasks[i], now) ==> i in lost
  }

  predicate Within(choices: seq<Option<nat>>, n: nat) {
    forall k :: 0 <= k < |choices| && choices[k].Some? ==> choices[k].value < n
  }

  function RefreshEach(orders: seq<Order>, tasks: seq<Task>, choices: seq<Option<nat>>): (after: seq<Order>)
    requires Within(choices, |orders|)
    ensures |after| == |orders|
  {
    if choices == [] then orders
    else Refresh(RefreshEach(orders, tasks, choices[..|choices| - 1]), tasks, choices[|choices| - 1])
  }

  /** Each refresh of the sweep picked an owner from the orders as the ones before it left them. */
  predicate OwnersPicked(orders: seq<Order>, tasks: seq<Task>, lost: seq<nat>, choices: seq<Option<nat>>) {
    && |lost| == |choices| && Within(choices, |orders|)
    && forall k :: 0 <= k < |lost| ==>
         && lost[k] < |tasks|
         && IsOwnerOfPrint(RefreshEach(orders, tasks, choices[..k]), tasks[lost[k]].job.document,
                           tasks[lost[k]].job.kiosk, choices[k])
  }

  /** `settle_lost_tasks` */
  function SettleLost(book: Book, now: int, choices: seq<Option<nat>>): Book
    requires Within(choices, |book.orders|)
  {
    var tasks := FailExpired(book.tasks, now);
    book.(tasks := tasks, orders := RefreshEach(book.orders, tasks, choices))
  }

  // ── an operator's word, and the clock's ───────────────────────────────────

  predicate Confirmable(order: Order, task: Task) { Sees(order, task) && task.state == Failed }

  function ConfirmedPrint(order: Order, task: Task): Task {
    if Confirmable(order, task) then task.(state := Printed, lease := None) else task
  }

  /** `confirm_failed_prints` */
  function ConfirmFailed(order: Order, tasks: seq<Task>): seq<Task> {
    seq(|tasks|, i requires 0 <= i < |tasks| => ConfirmedPrint(order, tasks[i]))
  }

  predicate NothingFailed(order: Order, tasks: seq<Task>) {
    forall i :: 0 <= i < |tasks| ==> !Confirmable(order, tasks[i])
  }

  /** `confirm_order_printed` */
  function Confirm(book: Book, id: nat): Result<Book, Refusal>
    requires id < |book.orders|
  {
    var order := book.orders[id];
    var payment := PaymentForOrder(book.payments, id);
    if order.state != PartiallyFailed then Refused(NotPartlyFailed)
    else if payment.Some? && book.payments[payment.value].refunded > 0 then Refused(AlreadyRefunded)
    else if NothingFailed(order, book.tasks) then Refused(NothingToConfirm)
    else
      var tasks := ConfirmFailed(order, book.tasks);
      Ok(book.(tasks := tasks, orders := Rederive(book.orders, tasks, id)))
  }

  predicate Stale(order: Order, now: int) {
    order.state == AwaitingPayment && order.expiresAt.Some? && order.expiresAt.value <= now
  }

  function Aged(order: Order, now: int): Order {
    if Stale(order, now) then order.(state := Expired) else order
  }

  /** `expire_stale_orders` */
  function ExpireStale(orders: seq<Order>, now: int): seq<Order> {
    seq(|orders|, i requires 0 <= i < |orders| => Aged(orders[i], now))
  }

  // ── how a line is shown ───────────────────────────────────────────────────

  /** `document_task_states`, for one document of one order. */
  function StatesOf(order: Order, document: nat, tasks: seq<Task>): set<TaskState> {
    set i | 0 <= i < |tasks| && Sees(order, tasks[i]) && tasks[i].job.document == document :: tasks[i].state
  }

  /** `_how_it_went`: one word for a line's prints, worst news first. */
  function HowItWent(states: set<TaskState>): Option<TaskState> {
    if states == {} then None
    else if Failed in states then Some(Failed)
    else if forall s :: s in states ==> s == Printed then Some(Printed)
    else if exists s :: s in states && InHand(s) then Some(Printing)
    else if Blocked in states then Some(Blocked)
    else if Queued in states then Some(Queued)
    else if Cancelled in states then Some(Cancelled)
    else None
  }

  /** `print_states_of` */
  function PrintStatesOf(order: Order, tasks: seq<Task>): (lines: seq<Option<TaskState>>)
    ensures |lines| == |order.items|
  {
    seq(|order.items|, i requires 0 <= i < |order.items| =>
      if order.items[i].document.None? then None
      else HowItWent(StatesOf(order, order.items[i].document.value, tasks)))
  }
}
