/** The order service over its tables, updated in place. A refused request is rolled back. */
module OrderService {
  import opened Outcomes
  import opened PrintQuotes
  import opened OrderBook
  import K = KioskPricing

  class Orders {
    var orders: seq<Order>
    var tasks: seq<Task>
    var payments: seq<Payment>
    var entries: seq<Entry>
    var balances: map<nat, int>

    function Tables(): Book
      reads this
    {
      Book(orders, tasks, payments, entries, balances)
    }

    /** The tables after a request answered with `r`. */
    predicate Answered(before: Book, r: Result<Book, Refusal>, refusal: Option<Refusal>)
      reads this
    {
      match r
      case Ok(after) => refusal == None && Tables() == after
      case Refused(why) => refusal == Some(why) && Tables() == before
    }

    constructor ()
      ensures Tables() == EMPTY
    {
      orders, tasks, payments, entries, balances := [], [], [], [], map[];
    }

    method RollBack(before: Book)
      modifies this
      ensures Tables() == before
    {
      orders, tasks, payments, entries, balances :=
        before.orders, before.tasks, before.payments, before.entries, before.balances;
    }

    // ── placing ─────────────────────────────────────────────────────────────

    static method PriceLines(requests: seq<Request>, user: nat, prices: K.Prices)
      returns (r: Result<seq<Item>, Refusal>)
      ensures r == CheckedItems(requests, user, prices)
    {
      var items: seq<Item> := [];
      for i := 0 to |requests|
        invariant CheckedItems(requests[..i], user, prices) == Ok(items)
      {
        assert requests[..i + 1][..i] == requests[..i];
        var item := CheckedItem(requests[i], user, prices);
        if item.Refused? {
          RefusalStands(requests, user, prices, i + 1);
          return Refused(item.error);
        }
        items := items + [item.value];
      }
      assert requests[..|requests|] == requests;
      r := Ok(items);
    }

    static method SumSheets(items: seq<Item>) returns (needed: nat)
      ensures needed == SheetsNeeded(items)
    {
      needed := 0;
      for i := 0 to |items|
        invariant needed == SheetsNeeded(items[..i])
      {
        assert items[..i + 1][..i] == items[..i];
        needed := needed + WorkloadOf(items[i].options, items[i].selected).Sheets();
      }
      assert items[..|items|] == items;
    }

    method PlaceOrder(user: nat, shop: Shop, requests: seq<Request>, means: PaymentMethod, now: int, stamp: int)
      returns (refusal: Option<Refusal>)
      modifies this
      ensures Answered(old(Tables()), Place(old(Tables()), user, shop, requests, means, now, stamp), refusal)
    {
      if !shop.open {
        return Some(KioskClosed);
      }
      if means == Wallet && !shop.takesWallet {
        return Some(WalletNotAccepted);
      }
      if !shop.colour && exists i :: 0 <= i < |requests| && requests[i].options.colour {
        return Some(ColourNotOffered);
      }
      var lines := PriceLines(requests, user, shop.prices);
      if lines.Refused? {
        return Some(lines.error);
      }
      var items := lines.value;
      var quote := Build(Amounts(items), means == Wallet);
      if quote.Refused? {
        return Some(Refusal.EmptyOrder);
      }
      var needed := SumSheets(items);
      if needed > shop.sheetsLeft {
        return Some(NotEnoughPaper);
      }
      orders := orders + [Order(user, shop.kiosk, AwaitingPayment, items, quote.value.subtotal, quote.value.fee,
                                quote.value.total, means, Some(now + ORDER_LIFETIME), None, None, None, stamp)];
      refusal := None;
    }

    // ── paying ──────────────────────────────────────────────────────────────

    /** `mark_paid`: the order becomes PAID and its tasks exist. */
    method MarkPaid(id: nat, reference: Reference, now: int, stamp: int) returns (refusal: Option<Refusal>)
      requires id < |orders|
      modifies this
      ensures Answered(old(Tables()), OrderBook.MarkPaid(old(Tables()), id, reference, now, stamp), refusal)
    {
      var order := orders[id];
      refusal := RequirePayable(order, now);
      if refusal.Some? {
        return;
      }
      orders := orders[id := order.(state := Paid, paidAt := Some(now), reference := Some(reference))];
      var before := tasks;
      for i := 0 to |order.items|
        invariant tasks == before + Enqueued(id, order, i, stamp)
        invariant orders == old(orders)[id := Settled(order, reference, now)]
        invariant payments == old(payments) && entries == old(entries) && balances == old(balances)
      {
        var item := order.items[i];
        if item.document.Some? {
          tasks := tasks + [Task(Job(id, i, item.document.value, order.kiosk, item.options, item.selected),
                                 Queued, stamp, None)];
        }
      }
    }

    method Debit(user: nat, amount: int, reference: Reference) returns (refusal: Option<Refusal>)
      modifies this
      ensures Answered(old(Tables()), OrderBook.Debit(old(Tables()), user, amount, reference), refusal)
    {
      if amount <= 0 {
        return Some(MustBePositive);
      }
      if user !in balances || balances[user] < amount {
        return Some(NotEnough);
      }
      balances := balances[user := balances[user] - amount];
      if Used(entries, user, reference) {
        // The unique reference undoes exactly this movement.
        balances := balances[user := balances[user] + amount];
        assert balances == old(balances);
        return Some(AlreadyRecorded);
      }
      entries := entries + [Entry(user, Spend, -amount, reference)];
      refusal := None;
    }

    /** `pay_with_wallet` */
    method PayWithWallet(id: nat, now: int, stamp: int) returns (refusal: Option<Refusal>)
      requires id < |orders|
      modifies this
      ensures Answered(old(Tables()), PayWallet(old(Tables()), id, now, stamp), refusal)
    {
      var order := orders[id];
      refusal := RequirePayable(order, now);
      if refusal.Some? {
        return;
      }
      if order.means != Wallet {
        return Some(WrongMethod);
      }
      refusal := Debit(order.user, order.total, OrderId(id));
      if refusal.Some? {
        return;
      }
      payments := payments + [WalletPayment(id, order.total)];
      // The order is checked again here, and nothing since the first check can refuse it.
      refusal := MarkPaid(id, OrderId(id), now, stamp);
      assert refusal.None?;
    }

    /** A capture, from the browser or the webhook, and the commit it settles into. */
    method RecordCapture(pid: nat, gatewayId: nat, now: int, stamp: int) returns (refusal: Option<Refusal>)
      requires pid < |payments| && payments[pid].order < |orders|
      modifies this
      ensures Answered(old(Tables()), Capture(old(Tables()), pid, gatewayId, now, stamp), refusal)
    {
      var payment, before := payments[pid], Tables();
      if payment.status == Captured {
        return Some(if payment.gatewayId == Some(gatewayId) then AlreadyCaptured else WrongPayment);
      }
      if Claimed(payments[pid := payment.(gatewayId := None)], gatewayId) {
        return Some(AlreadyCaptured);
      }
      payment := payment.(status := Captured, gatewayId := Some(gatewayId));
      payments := payments[pid := payment];
      refusal := MarkPaid(payment.order, Foreign(gatewayId), now, stamp);
      if refusal.Some? {
        RollBack(before);
      }
    }

    /** `apply_payment_refund`: the order is REFUNDED afterwards exactly if it was, or everything paid
        for it has gone back; a partial refund changes no row, and no refund any other order, or what
        this one was placed and paid for. */
    method ApplyPaymentRefund(id: nat, refunded: int, paid: int, now: int)
      requires id < |orders|
      modifies `orders
      ensures |orders| == |old(orders)| && forall i :: 0 <= i < |orders| && i != id ==> orders[i] == old(orders)[i]
      ensures orders[id].state == Refunded <==> old(orders)[id].state == Refunded || refunded >= paid
      ensures refunded < paid ==> orders == old(orders)
      ensures refunded >= paid ==> orders[id].refundedAt == Some(now)
      ensures orders[id] == old(orders)[id].(state := orders[id].state, refundedAt := orders[id].refundedAt)
      ensures orders == old(orders)[id := ApplyRefund(old(orders)[id], refunded, paid, now)]
    {
      if refunded < paid {
        return;
      }
      orders := orders[id := orders[id].(state := Refunded, refundedAt := Some(now))];
    }

    // ── following the prints ────────────────────────────────────────────────

    /** `_derive_from_prints` */
    method DeriveFromPrints(id: nat)
      requires id < |orders|
      modifies `orders
      ensures orders == Rederive(old(orders), tasks, id)
    {
      var order := orders[id];
      var any, unfinished, printed := false, false, true;
      for i := 0 to |tasks|
        invariant orders == old(orders)
        invariant any <==> !SeesNone(order, tasks[..i])
        invariant unfinished <==> SeesUnfinished(order, tasks[..i])
        invariant printed <==> SeesAllPrinted(order, tasks[..i])
      {
        var task := tasks[i];
        assert tasks[..i + 1] == tasks[..i] + [task];
        OneMoreSeen(order, tasks[..i], task);
        if Sees(order, task) {
          any := true;
          unfinished := unfinished || !Terminal(task.state);
          printed := printed && task.state == Printed;
        }
      }
      assert tasks[..|tasks|] == tasks;
      if !any {
        assert orders == Rederive(orders, tasks, id);
        return;
      }
      var state := if unfinished then Dispatched else if printed then Completed else PartiallyFailed;
      orders := orders[id := order.(state := state)];
    }

    /** The lookup of `refresh_order_state`. */
    method OwnerOfPrint(document: nat, kiosk: nat) returns (choice: Option<nat>)
      ensures IsOwnerOfPrint(orders, document, kiosk, choice)
      ensures choice.Some? ==> choice.value < |orders|
    {
      choice := None;
      for i := 0 to |orders|
        invariant IsOwnerOfPrint(orders[..i], document, kiosk, choice)
      {
        assert orders[..i + 1] == orders[..i] + [orders[i]];
        if Candidate(orders[i], document, kiosk) {
          if choice.None? || !PaidNoLater(orders[i], orders[choice.value]) {
            choice := Some(i);
          }
        }
      }
      assert orders[..|orders|] == orders;
    }

    /** `refresh_order_state` */
    method RefreshOrderState(document: nat, kiosk: nat) returns (choice: Option<nat>)
      modifies `orders
      ensures IsOwnerOfPrint(old(orders), document, kiosk, choice)
      ensures choice.Some? ==> choice.value < |old(orders)|
      ensures orders == Refresh(old(orders), tasks, choice)
    {
      choice := OwnerOfPrint(document, kiosk);
      if choice.Some? {
        DeriveFromPrints(choice.value);
      }
    }

    /** `start_printing`, `report_printed` and `report_failed`, as far as the order is concerned. */
    method ReportTask(tid: nat, state: TaskState, now: int) returns (refusal: Option<Refusal>, choice: Option<nat>)
      requires tid < |tasks|
      modifies this
      ensures IsOwnerOfPrint(old(orders), old(tasks)[tid].job.document, old(tasks)[tid].job.kiosk, choice)
      ensures choice.Some? ==> choice.value < |old(orders)|
      ensures Answered(old(Tables()), Report(old(Tables()), tid, state, now, choice), refusal)
    {
      var task := tasks[tid];
      refusal := RefuseNotInHand(task);
      if refusal.Some? {
        choice := OwnerOfPrint(task.job.document, task.job.kiosk);
        return;
      }
      tasks := tasks[tid := Reported(task, state, now)];
      choice := RefreshOrderState(task.job.document, task.job.kiosk);
    }

    /** `fail_expired` */
    method FailExpiredTasks(now: int) returns (lost: seq<nat>)
      modifies `tasks
      ensures tasks == FailExpired(old(tasks), now)
      ensures ListsTheLost(old(tasks), now, lost)
    {
      lost := [];
      var before := tasks;
      for i := 0 to |before|
        invariant |tasks| == |before|
        invariant forall k :: 0 <= k < i ==> tasks[k] == GivenUp(before[k], now)
        invariant forall k :: i <= k < |before| ==> tasks[k] == before[k]
        invariant forall k :: 0 <= k < |lost| ==> lost[k] < i && Lost(before[lost[k]], now)
        invariant forall k :: 0 <= k < i && Lost(before[k], now) ==> k in lost
      {
        if Lost(tasks[i], now) {
          tasks := tasks[i := tasks[i].(state := Failed, lease := None)];
          lost := lost + [i];
        }
      }
    }

    /** `settle_lost_tasks` */
    method SettleLostTasks(now: int) returns (lost: seq<nat>, choices: seq<Option<nat>>)
      modifies this
      ensures ListsTheLost(old(tasks), now, lost)
      ensures OwnersPicked(old(orders), FailExpired(old(tasks), now), lost, choices)
      ensures Tables() == SettleLost(old(Tables()), now, choices)
    {
      var before := orders;
      lost := FailExpiredTasks(now);
      choices := [];
      for k := 0 to |lost|
        invariant tasks == FailExpired(old(tasks), now)
        invariant payments == old(payments) && entries == old(entries) && balances == old(balances)
        invariant |choices| == k && OwnersPicked(before, tasks, lost[..k], choices)
        invariant orders == RefreshEach(before, tasks, choices)
      {
        var job := tasks[lost[k]].job;
        var choice := RefreshOrderState(job.document, job.kiosk);
        PickedOneMore(before, tasks, lost[..k], choices, lost[k], choice);
        assert lost[..k + 1] == lost[..k] + [lost[k]];
        choices := choices + [choice];
      }
      assert lost[..|lost|] == lost;
    }

    // ── confirming, and running out of time ─────────────────────────────────

    /** `confirm_failed_prints` */
    method ConfirmFailedPrints(order: Order) returns (count: nat)
      modifies `tasks
      ensures tasks == ConfirmFailed(order, old(tasks))
      ensures count == 0 <==> NothingFailed(order, old(tasks))
    {
      count := 0;
      var before := tasks;
      for i := 0 to |before|
        invariant |tasks| == |before|
        invariant forall k :: 0 <= k < i ==> tasks[k] == ConfirmedPrint(order, before[k])
        invariant forall k :: i <= k < |before| ==> tasks[k] == before[k]
        invariant count == 0 <==> forall k :: 0 <= k < i ==> !Confirmable(order, before[k])
      {
        if Confirmable(order, tasks[i]) {
          tasks := tasks[i := tasks[i].(state := Printed, lease := None)];
          count := count + 1;
        }
      }
    }

    /** `confirm_order_printed` */
    method ConfirmOrderPrinted(id: nat) returns (refusal: Option<Refusal>)
      requires id < |orders|
      modifies this
      ensures Answered(old(Tables()), Confirm(old(Tables()), id), refusal)
    {
      var order := orders[id];
      if order.state != PartiallyFailed {
        return Some(NotPartlyFailed);
      }
      var payment := PaymentForOrder(payments, id);
      if payment.Some? && payments[payment.value].refunded > 0 {
        return Some(AlreadyRefunded);
      }
      var before := tasks;
      var confirmed := ConfirmFailedPrints(order);
      if confirmed == 0 {
        tasks := before;
        return Some(NothingToConfirm);
      }
      DeriveFromPrints(id);
      refusal := None;
    }

    /** `expire_stale_orders` */
    method ExpireStaleOrders(now: int) returns (stale: seq<nat>)
      modifies `orders
      ensures orders == ExpireStale(old(orders), now)
      ensures forall i :: i in stale <==> 0 <= i < |old(orders)| && Stale(old(orders)[i], now)
    {
      stale := [];
      for i := 0 to |orders|
        invariant orders == old(orders)
        invariant forall k :: k in stale <==> 0 <= k < i && Stale(orders[k], now)
      {
        if Stale(orders[i], now) {
          stale := stale + [i];
        }
      }
      var n := |stale|;
      for k := 0 to n
        invariant n == |stale| && |orders| == |old(orders)|
        invariant forall i :: i in stale ==> 0 <= i < |old(orders)| && Stale(old(orders)[i], now)
        invariant forall i :: 0 <= i < |orders| ==>
          orders[i] == if i in stale[..k] then old(orders)[i].(state := Expired) else old(orders)[i]
      {
        assert stale[k] in stale && stale[..k + 1] == stale[..k] + [stale[k]];
        orders := orders[stale[k] := orders[stale[k]].(state := Expired)];
      }
      assert stale[..n] == stale;
    }
  }

  lemma {:induction false} RefusalStands(requests: seq<Request>, user: nat, prices: K.Prices, n: nat)
    requires n <= |requests| && CheckedItems(requests[..n], user, prices).Refused?
    ensures CheckedItems(requests, user, prices) == CheckedItems(requests[..n], user, prices)
    decreases |requests|
  {
    if n == |requests| {
      assert requests[..n] == requests;
    } else {
      var init := requests[..|requests| - 1];
      assert init[..n] == requests[..n];
      RefusalStands(init, user, prices, n);
    }
  }

  lemma OneMoreSeen(order: Order, tasks: seq<Task>, task: Task)
    ensures SeesNone(order, tasks + [task]) <==> SeesNone(order, tasks) && !Sees(order, task)
    ensures SeesUnfinished(order, tasks + [task])
       <==> SeesUnfinished(order, tasks) || (Sees(order, task) && !Terminal(task.state))
    ensures SeesAllPrinted(order, tasks + [task])
       <==> SeesAllPrinted(order, tasks) && (Sees(order, task) ==> task.state == Printed)
  {
    var all := tasks + [task];
    assert all[|tasks|] == task;
    assert forall i :: 0 <= i < |tasks| ==> all[i] == tasks[i];
    if SeesUnfinished(order, tasks) {
      var i :| 0 <= i < |tasks| && Sees(order, tasks[i]) && !Terminal(tasks[i].state);
      assert Sees(order, all[i]) && !Terminal(all[i].state);
    }
  }

  /** The sweep's next pick is made from the orders as the picks before it left them. */
  lemma PickedOneMore(orders: seq<Order>, tasks: seq<Task>, lost: seq<nat>, choices: seq<Option<nat>>, t: nat,
                      choice: Option<nat>)
    requires OwnersPicked(orders, tasks, lost, choices) && t < |tasks|
    requires IsOwnerOfPrint(RefreshEach(orders, tasks, choices), tasks[t].job.document, tasks[t].job.kiosk, choice)
    ensures OwnersPicked(orders, tasks, lost + [t], choices + [choice])
    ensures RefreshEach(orders, tasks, choices + [choice])
         == Refresh(RefreshEach(orders, tasks, choices), tasks, choice)
  {
    var all := choices + [choice];
    assert all[..|choices|] == choices;
    forall k | 0 <= k < |choices| ensures all[..k] == choices[..k] {}
  }
}
