/** What every history of the subscriptions table keeps. */
module SubscriptionRuns {
  import opened Outcomes
  import opened SubscriptionQuotes
  import opened SubscriptionTable

  // `readAt` is the clock as `active_subscription` reads it, and `choice` what it found then.
  datatype Op =
    | Buy(order: Order, now: int, stamp: int, readAt: int, choice: Option<nat>)
    | Pay(id: nat, now: int, readAt: int, choice: Option<nat>)
    | Trial(user: nat, days: int, now: int, stamp: int, readAt: int, choice: Option<nat>)
    | StopTrial(id: nat, now: int)
    | Reprice(id: nat, price: Option<int>)

  predicate Legal(rows: Rows, op: Op) {
    match op
    case Buy(order, _, _, readAt, choice) => IsActiveSubscription(rows, order.user, readAt, choice)
    case Pay(id, _, readAt, choice) => id < |rows| && IsActiveSubscription(rows, rows[id].user, readAt, choice)
    case Trial(user, _, _, _, readAt, choice) => IsActiveSubscription(rows, user, readAt, choice)
    case StopTrial(id, _) => id < |rows|
    case Reprice(id, _) => id < |rows|
  }

  function OrElse(r: Result<Rows, SubscriptionTable.Refusal>, rows: Rows): Rows {
    if r.Ok? then r.value else rows
  }

  /** One request. A refused one is rolled back. */
  function Apply(rows: Rows, op: Op): Rows
    requires Legal(rows, op)
  {
    match op
    case Buy(order, now, stamp, _, choice) => OrElse(StartPurchase(rows, order, now, stamp, choice), rows)
    case Pay(id, now, _, choice) => OrElse(Activate(rows, id, now, choice), rows)
    case Trial(user, days, now, stamp, _, choice) => OrElse(GrantTrial(rows, user, days, now, stamp, choice), rows)
    case StopTrial(id, now) => EndTrial(rows, id, now)
    case Reprice(id, price) => OrElse(Negotiate(rows, id, price), rows)
  }

  predicate LegalRun(rows: Rows, ops: seq<Op>)
    decreases |ops|
  {
    ops == [] || (Legal(rows, ops[0]) && LegalRun(Apply(rows, ops[0]), ops[1..]))
  }

  function Run(rows: Rows, ops: seq<Op>): Rows
    requires LegalRun(rows, ops)
    decreases |ops|
  {
    if ops == [] then rows else Run(Apply(rows, ops[0]), ops[1..])
  }

  // ── no day is sold twice ──────────────────────────────────────────────────

  predicate IsPaid(s: Subscription) { s.expiresAt.Some? }

  /** A paid row is in force, and its term is exactly the months bought. */
  predicate WellFormed(s: Subscription) {
    && 1 <= s.months
    && (s.status == PendingPayment ==> !IsPaid(s))
    && (s.graceEndsAt.Some? ==> IsPaid(s))
    && (IsPaid(s) ==>
          && s.status == Active && s.startsAt.Some?
          && s.expiresAt.value == s.startsAt.value + MONTH * s.months
          && s.graceEndsAt == Some(s.expiresAt.value + GRACE))
  }

  predicate Ends(a: Subscription, b: Subscription) {
    a.expiresAt.Some? && b.startsAt.Some? && a.expiresAt.value <= b.startsAt.value
  }

  /** One term ends no later than the other begins. */
  predicate Apart(a: Subscription, b: Subscription) { Ends(a, b) || Ends(b, a) }

  predicate AllWellFormed(rows: Rows) { forall i :: 0 <= i < |rows| ==> WellFormed(rows[i]) }

  predicate TermsDisjoint(rows: Rows) {
    forall i, j | 0 <= i < |rows| && 0 <= j < |rows| && i != j && rows[i].user == rows[j].user ::
      IsPaid(rows[i]) && IsPaid(rows[j]) ==> Apart(rows[i], rows[j])
  }

  predicate Inv(rows: Rows) { AllWellFormed(rows) && TermsDisjoint(rows) }

  /** The second clock reading came no later than the grace period after the first. */
  predicate Prompt(op: Op) { op.Pay? ==> op.readAt <= op.now + GRACE }

  /** The longest row in force, its grace included, still starts the next term no earlier than
      every paid expiry: grace is the same length for everybody, and a trial outlasting a
      row's grace outlasts its expiry too. */
  lemma NextTermStartsAfterEveryExpiry(rows: Rows, id: nat, now: int, readAt: int, choice: Option<nat>, r: nat)
    requires AllWellFormed(rows) && id < |rows| && rows[id].status == PendingPayment
    requires IsActiveSubscription(rows, rows[id].user, readAt, choice) && readAt <= now + GRACE
    requires r < |rows| && rows[r].user == rows[id].user && IsPaid(rows[r])
    ensures rows[r].expiresAt.value <= TermStart(rows, id, now, choice)
  {
  }

  lemma PayKeepsInv(rows: Rows, op: Op)
    requires Inv(rows) && op.Pay? && Legal(rows, op) && Prompt(op)
    ensures Inv(Apply(rows, op))
  {
    var id := op.id;
    if rows[id].status == PendingPayment {
      var after := Apply(rows, op);
      assert after[id] == InForceFrom(rows[id], TermStart(rows, id, op.now, op.choice));
      forall i | 0 <= i < |rows| && i != id && rows[i].user == rows[id].user && IsPaid(rows[i])
        ensures Apart(after[i], after[id]) && Apart(after[id], after[i])
      {
        NextTermStartsAfterEveryExpiry(rows, id, op.now, op.readAt, op.choice, i);
      }
    }
  }

  predicate SameTerm(a: Subscription, b: Subscription) {
    a.user == b.user && a.startsAt == b.startsAt && a.expiresAt == b.expiresAt
  }

  lemma StepKeepsInv(rows: Rows, op: Op)
    requires Inv(rows) && Legal(rows, op) && Prompt(op)
    ensures Inv(Apply(rows, op))
  {
    if op.Pay? {
      PayKeepsInv(rows, op);
    } else {
      var after := Apply(rows, op);
      forall i | 0 <= i < |after|
        ensures WellFormed(after[i])
        ensures IsPaid(after[i]) ==> i < |rows| && SameTerm(rows[i], after[i])
      {
      }
    }
  }

  lemma {:induction false} RunKeepsInv(rows: Rows, ops: seq<Op>)
    requires Inv(rows) && LegalRun(rows, ops) && forall i :: 0 <= i < |ops| ==> Prompt(ops[i])
    ensures Inv(Run(rows, ops))
    decreases |ops|
  {
    if ops != [] {
      StepKeepsInv(rows, ops[0]);
      RunKeepsInv(Apply(rows, ops[0]), ops[1..]);
    }
  }

  // ── where a term starts ───────────────────────────────────────────────────

  /** An activation starts its term at once, or where another row of that owner ends what it gave:
      never later, and not at the end of anybody's grace. */
  lemma ATermStartsNowOrWhereAnotherEnds(rows: Rows, op: Op)
    requires Legal(rows, op) && op.Pay? && rows[op.id].status == PendingPayment && rows[op.id].months >= 1
    ensures var start := Apply(rows, op)[op.id].startsAt;
            && start.Some? && start.value >= op.now
            && (start.value == op.now
                || exists r :: 0 <= r < |rows| && r != op.id && rows[r].user == rows[op.id].user
                               && (rows[r].expiresAt == start || rows[r].freeUntil == start))
  {
    var k := op.choice;
    if k.Some? {
      assert rows[k.value].user == rows[op.id].user && k.value != op.id;
    }
  }

  /** A purchase is put in force exactly if it still awaits payment and is for a month at least; one in force
      already stays as it is, and no other row moves. */
  lemma ActivatedExactlyWhen(rows: Rows, id: nat, now: int, choice: Option<nat>)
    requires id < |rows| && (choice.Some? ==> choice.value < |rows|)
    ensures var s, r := rows[id], Activate(rows, id, now, choice);
            && (r.Ok? <==> s.status == Active || (s.status == PendingPayment && s.months >= 1))
            && (r.Ok? && s.status == Active ==> r.value == rows)
            && (r.Ok? && s.status != Active ==>
                  && |r.value| == |rows| && r.value[id].status == Active && r.value[id].startsAt.Some?
                  && r.value[id].expiresAt == Some(r.value[id].startsAt.value + 30 * 86_400_000_000 * s.months)
                  && r.value[id].graceEndsAt == Some(r.value[id].expiresAt.value + 5 * 86_400_000_000)
                  && r.value[id].freeUntil == s.freeUntil && SamePrice(r.value[id], s)
                  && forall k :: 0 <= k < |rows| && k != id ==> r.value[k] == rows[k])
  {
  }

  predicate HasNoTrials(ops: seq<Op>) { forall i :: 0 <= i < |ops| ==> !ops[i].Trial? && !ops[i].StopTrial? }

  predicate NobodyFree(rows: Rows) { forall i :: 0 <= i < |rows| ==> rows[i].freeUntil == None }

  lemma {:induction false} NoTrialsNobodyFree(rows: Rows, ops: seq<Op>)
    requires LegalRun(rows, ops) && HasNoTrials(ops) && NobodyFree(rows)
    ensures NobodyFree(Run(rows, ops))
    decreases |ops|
  {
    if ops != [] {
      assert NobodyFree(Apply(rows, ops[0]));
      NoTrialsNobodyFree(Apply(rows, ops[0]), ops[1..]);
    }
  }

  /** The latest of this instant and every expiry this owner has paid for. */
  predicate IsLatestPaid(rows: Rows, user: nat, now: int, start: int) {
    && now <= start
    && (forall r :: 0 <= r < |rows| && rows[r].user == user && IsPaid(rows[r]) ==> rows[r].expiresAt.value <= start)
    && (start == now
        || exists r :: 0 <= r < |rows| && rows[r].user == user && rows[r].expiresAt == Some(start))
  }

  lemma PromptTermsStartAtTheLatest(rows: Rows, op: Op)
    requires AllWellFormed(rows) && NobodyFree(rows) && Legal(rows, op) && op.Pay? && Prompt(op)
    requires rows[op.id].status == PendingPayment
    ensures var start := Apply(rows, op)[op.id].startsAt;
            start.Some? && IsLatestPaid(rows, rows[op.id].user, op.now, start.value)
  {
    ATermStartsNowOrWhereAnotherEnds(rows, op);
    forall r | 0 <= r < |rows| && rows[r].user == rows[op.id].user && IsPaid(rows[r])
      ensures rows[r].expiresAt.value <= Apply(rows, op)[op.id].startsAt.value
    {
      NextTermStartsAfterEveryExpiry(rows, op.id, op.now, op.readAt, op.choice, r);
    }
  }

  /** Over every history without trials, prompt readings given: a term starts now, or on the instant the
      last one paid for ends, so that renewing early loses nothing and gains nothing. */
  lemma EarlyRenewalsAreBackToBack(ops: seq<Op>, op: Op)
    requires LegalRun([], ops) && HasNoTrials(ops) && forall i :: 0 <= i < |ops| ==> Prompt(ops[i])
    requires Legal(Run([], ops), op) && op.Pay? && Prompt(op) && Run([], ops)[op.id].status == PendingPayment
    ensures var rows := Run([], ops);
            var start := Apply(rows, op)[op.id].startsAt;
            start.Some? && IsLatestPaid(rows, rows[op.id].user, op.now, start.value)
  {
    RunKeepsInv([], ops);
    NoTrialsNobodyFree([], ops);
    PromptTermsStartAtTheLatest(Run([], ops), op);
  }

  predicate Covers(s: Subscription, t: int) {
    s.startsAt.Some? && s.expiresAt.Some? && s.startsAt.value <= t < s.expiresAt.value
  }

  /** No instant is sold to one owner twice. */
  ghost predicate SoldOnce(rows: Rows) {
    forall i, j, t | 0 <= i < |rows| && 0 <= j < |rows| && rows[i].user == rows[j].user ::
      Covers(rows[i], t) && Covers(rows[j], t) ==> i == j
  }

  /** Over every history of purchases, activations, trials granted and trials ended: a paid
      term is thirty days per month bought, and no instant is sold to one owner twice. */
  lemma NoTimeSoldTwice(ops: seq<Op>)
    requires LegalRun([], ops) && forall i :: 0 <= i < |ops| ==> Prompt(ops[i])
    ensures var rows := Run([], ops);
            && (forall i :: 0 <= i < |rows| && IsPaid(rows[i]) ==>
                  rows[i].startsAt.Some? && rows[i].expiresAt.value - rows[i].startsAt.value == MONTH * rows[i].months)
            && SoldOnce(rows)
  {
    RunKeepsInv([], ops);
  }

  function LateRows(now: int): Rows {
    var start := now + 1 - MONTH;
    [Subscription(0, Active, 0, 1, 0, 0, 0, None, None, Some(start), Some(now + 1), Some(now + 1 + GRACE)),
     Subscription(0, PendingPayment, 0, 1, 0, 0, 0, None, None, None, None, None)]
  }

  /** The promise holds exactly as long as the two clock readings inside one activation are
      no further apart than the grace period. Past that, the running term can end between
      them, is no longer found, and its last moment is sold again. */
  lemma PromptnessIsExact(now: int, readAt: int)
    ensures (forall rows: Rows, id: nat, choice: Option<nat> ::
               Inv(rows) && Legal(rows, Pay(id, now, readAt, choice)) ==>
                 Inv(Apply(rows, Pay(id, now, readAt, choice))))
            <==> readAt <= now + GRACE
  {
    if readAt <= now + GRACE {
      forall rows: Rows, id: nat, choice: Option<nat> | Inv(rows) && Legal(rows, Pay(id, now, readAt, choice))
        ensures Inv(Apply(rows, Pay(id, now, readAt, choice)))
      {
        PayKeepsInv(rows, Pay(id, now, readAt, choice));
      }
    } else {
      var rows, op := LateRows(now), Pay(1, now, readAt, None);
      assert Inv(rows);
      assert Legal(rows, op);
      assert !Apart(Apply(rows, op)[0], Apply(rows, op)[1]);
      assert !Inv(Apply(rows, op));
    }
  }

  /** Two purchases of the same terms: the first paid so that its term ends just after `now`, and the
      second settled at `now`, by when the second reading of the clock finds the first run out. */
  function LateRun(order: Order, now: int, readAt: int): seq<Op> {
    var start := now + 1 - MONTH * order.months;
    [Buy(order, start, start, start, None), Pay(0, start, start, None),
     Buy(order, now, now, now, Some(0)), Pay(1, now, readAt, None)]
  }

  function Quoted(order: Order, stamp: int): Subscription
    requires QuoteSubscription(order.plan, order.months, None, order.discounts).Ok?
  {
    var q := QuoteSubscription(order.plan, order.months, None, order.discounts).value;
    Subscription(order.user, PendingPayment, stamp, q.months, q.monthly, q.percent, q.total,
                 None, None, None, None, None)
  }

  lemma RunFrom(rows: Rows, op: Op, after: Rows, rest: seq<Op>)
    requires Legal(rows, op) && Apply(rows, op) == after && LegalRun(after, rest)
    ensures LegalRun(rows, [op] + rest) && Run(rows, [op] + rest) == Run(after, rest)
  {
    assert ([op] + rest)[1..] == rest;
  }

  lemma BuyingOpensOne(rows: Rows, order: Order, at: int, choice: Option<nat>)
    requires QuoteSubscription(order.plan, order.months, None, order.discounts).Ok?
    requires FirstPending(rows, order.user).None? && IsActiveSubscription(rows, order.user, at, choice)
    requires choice.Some? ==> rows[choice.value].negotiated.None?
    ensures Legal(rows, Buy(order, at, at, at, choice))
    ensures Apply(rows, Buy(order, at, at, at, choice)) == rows + [Quoted(order, at)]
  {
  }

  lemma PayingStartsTheTerm(rows: Rows, id: nat, at: int, readAt: int)
    requires id < |rows| && rows[id].status == PendingPayment && rows[id].months >= 1
    requires IsActiveSubscription(rows, rows[id].user, readAt, None)
    ensures Legal(rows, Pay(id, at, readAt, None))
    ensures Apply(rows, Pay(id, at, readAt, None)) == rows[id := InForceFrom(rows[id], at)]
  {
  }

  /** Whatever was ordered, that is a history from an empty table, and the instant `now` is sold twice
      in it, if the second reading is past the grace period. */
  lemma ALatePaymentSellsAnInstantTwice(order: Order, now: int, readAt: int)
    requires QuoteSubscription(order.plan, order.months, None, order.discounts).Ok? && readAt > now + GRACE
    ensures LegalRun([], LateRun(order, now, readAt))
    ensures var rows := Run([], LateRun(order, now, readAt));
            |rows| == 2 && rows[0].user == rows[1].user && Covers(rows[0], now) && Covers(rows[1], now)
  {
    var ops, start := LateRun(order, now, readAt), now + 1 - MONTH * order.months;
    var first, second := [Quoted(order, start)], Quoted(order, now);
    var paid := [InForceFrom(first[0], start)];
    var both := paid + [InForceFrom(second, now)];
    BuyingOpensOne([], order, start, None);
    assert [] + first == first;
    PayingStartsTheTerm(first, 0, start, start);
    assert first[0 := paid[0]] == paid;
    BuyingOpensOne(paid, order, now, Some(0));
    PayingStartsTheTerm(paid + [second], 1, now, readAt);
    assert (paid + [second])[1 := both[1]] == both;
    RunFrom(paid + [second], ops[3], both, []);
    RunFrom(paid, ops[2], paid + [second], [ops[3]] + []);
    RunFrom(first, ops[1], paid, [ops[2]] + ([ops[3]] + []));
    RunFrom([], ops[0], first, [ops[1]] + ([ops[2]] + ([ops[3]] + [])));
    assert ops == [ops[0]] + ([ops[1]] + ([ops[2]] + ([ops[3]] + [])));
  }

  predicate Within(ops: seq<Op>, delay: int) {
    forall i :: 0 <= i < |ops| && ops[i].Pay? ==> ops[i].readAt <= ops[i].now + delay
  }

  /** With second readings up to `delay` after the first, no history from an empty table sells an
      instant twice exactly when that delay is at most the grace period. */
  lemma NoTimeSoldTwiceExactlyWithinGrace(order: Order, delay: int)
    requires QuoteSubscription(order.plan, order.months, None, order.discounts).Ok?
    ensures (forall ops :: LegalRun([], ops) && Within(ops, delay) ==> SoldOnce(Run([], ops))) <==> delay <= GRACE
  {
    if delay <= GRACE {
      forall ops | LegalRun([], ops) && Within(ops, delay) ensures SoldOnce(Run([], ops)) {
        NoTimeSoldTwice(ops);
      }
    } else {
      var ops := LateRun(order, 0, delay);
      ALatePaymentSellsAnInstantTwice(order, 0, delay);
      var rows := Run([], ops);
      assert Covers(rows[0], 0) && Covers(rows[1], 0) && !SoldOnce(rows);
    }
  }

  // ── a purchase in hand blocks the next one, and not for ever ───────────────

  predicate AtMostOnePending(rows: Rows, user: nat) {
    forall i, j :: 0 <= i < |rows| && 0 <= j < |rows| && IsPendingOf(rows[i], user) && IsPendingOf(rows[j], user) ==>
      i == j
  }

  lemma StepKeepsOnePending(rows: Rows, op: Op, user: nat)
    requires AtMostOnePending(rows, user) && Legal(rows, op)
    ensures AtMostOnePending(Apply(rows, op), user)
  {
  }

  lemma {:induction false} NeverTwoPending(rows: Rows, ops: seq<Op>, user: nat)
    requires AtMostOnePending(rows, user) && LegalRun(rows, ops)
    ensures AtMostOnePending(Run(rows, ops), user)
    decreases |ops|
  {
    if ops != [] {
      StepKeepsOnePending(rows, ops[0], user);
      NeverTwoPending(Apply(rows, ops[0]), ops[1..], user);
    }
  }

  /** In every reachable table, "already buying" is answered exactly while this owner has an
      unpaid purchase no more than twenty minutes old. */
  lemma BlockedExactlyWhileFresh(ops: seq<Op>, order: Order, now: int, stamp: int, choice: Option<nat>)
    requires LegalRun([], ops)
    requires choice.Some? ==> choice.value < |Run([], ops)|
    ensures var rows := Run([], ops);
            StartPurchase(rows, order, now, stamp, choice) == Refused(AlreadyBuying) <==>
            exists k :: 0 <= k < |rows| && IsPendingOf(rows[k], order.user)
                        && now - rows[k].createdAt <= PURCHASE_LIFETIME
  {
    NeverTwoPending([], ops, order.user);
  }

  // ── paying twice for one purchase ──────────────────────────────────────────

  /** The history with every repeated activation of a row taken out. */
  function FirstActivations(ops: seq<Op>, settled: set<nat>): seq<Op>
    decreases |ops|
  {
    if ops == [] then []
    else if ops[0].Pay? && ops[0].id in settled then FirstActivations(ops[1..], settled)
    else [ops[0]] + FirstActivations(ops[1..], if ops[0].Pay? then settled + {ops[0].id} else settled)
  }

  predicate Settled(rows: Rows, ids: set<nat>) {
    forall id :: id in ids ==> id < |rows| && rows[id].status != PendingPayment
  }

  lemma StepKeepsSettled(rows: Rows, op: Op, ids: set<nat>)
    requires AllWellFormed(rows) && Legal(rows, op) && Settled(rows, ids)
    ensures AllWellFormed(Apply(rows, op))
    ensures Settled(Apply(rows, op), if op.Pay? then ids + {op.id} else ids)
  {
  }

  /** A webhook and a browser both settling one payment change nothing the first did not:
      any history ends as it would with only the first activation of each row kept. */
  lemma {:induction false} RepeatedActivationsCollapse(rows: Rows, ops: seq<Op>, settled: set<nat>)
    requires AllWellFormed(rows) && LegalRun(rows, ops) && Settled(rows, settled)
    ensures LegalRun(rows, FirstActivations(ops, settled))
    ensures Run(rows, FirstActivations(ops, settled)) == Run(rows, ops)
    decreases |ops|
  {
    if ops != [] {
      var op, rest := ops[0], ops[1..];
      StepKeepsSettled(rows, op, settled);
      if op.Pay? && op.id in settled {
        assert Apply(rows, op) == rows;
        RepeatedActivationsCollapse(rows, rest, settled);
      } else {
        var after := if op.Pay? then settled + {op.id} else settled;
        RepeatedActivationsCollapse(Apply(rows, op), rest, after);
        assert FirstActivations(ops, settled) == [op] + FirstActivations(rest, after);
        assert ([op] + FirstActivations(rest, after))[1..] == FirstActivations(rest, after);
      }
    }
  }

  // ── what was quoted is what was bought ─────────────────────────────────────

  predicate SamePrice(a: Subscription, b: Subscription) {
    && a.user == b.user && a.months == b.months
    && a.monthlyPrice == b.monthlyPrice && a.percent == b.percent && a.total == b.total
  }

  predicate FairlyPriced(rows: Rows) {
    forall i :: 0 <= i < |rows| ==> 0 <= rows[i].total <= rows[i].monthlyPrice * rows[i].months
  }

  lemma StepFreezesPrices(rows: Rows, op: Op)
    requires FairlyPriced(rows) && Legal(rows, op)
    ensures FairlyPriced(Apply(rows, op)) && |rows| <= |Apply(rows, op)|
    ensures forall i :: 0 <= i < |rows| ==> SamePrice(rows[i], Apply(rows, op)[i])
  {
    if op.Buy? {
      var negotiated := if op.choice.Some? then rows[op.choice.value].negotiated else None;
      if QuoteSubscription(op.order.plan, op.order.months, negotiated, op.order.discounts).Ok? {
        QuotesAreBounded(op.order.plan, op.order.months, negotiated, op.order.discounts);
      }
    }
  }

  /** A purchase is quoted once, between nothing and its undiscounted price, and no later
      request of any kind rewrites the figures an invoice will be printed from. */
  lemma {:induction false} QuotedOnceAndFrozen(rows: Rows, ops: seq<Op>)
    requires FairlyPriced(rows) && LegalRun(rows, ops)
    ensures FairlyPriced(Run(rows, ops)) && |rows| <= |Run(rows, ops)|
    ensures forall i :: 0 <= i < |rows| ==> SamePrice(rows[i], Run(rows, ops)[i])
    decreases |ops|
  {
    if ops != [] {
      StepFreezesPrices(rows, ops[0]);
      QuotedOnceAndFrozen(Apply(rows, ops[0]), ops[1..]);
    }
  }

  // ── how long an owner is covered ───────────────────────────────────────────

  /** Some row in force entitles this owner at least until `t`. */
  predicate CoveredUntil(rows: Rows, user: nat, t: int) {
    exists i :: 0 <= i < |rows| && rows[i].user == user && rows[i].status == Active
      && EffectiveEnd(rows[i]).Some? && t <= EffectiveEnd(rows[i]).value
  }

  /** A trial of so many days covers its owner until those days are over, and gives nobody any more. */
  lemma ATrialGivesItsDaysAndNoMore(rows: Rows, op: Op, user: nat, t: int)
    requires Legal(rows, op) && op.Trial?
    ensures GrantTrial(rows, op.user, op.days, op.now, op.stamp, op.choice).Ok? <==> op.days >= 1
    ensures op.days >= 1 ==> (CoveredUntil(Apply(rows, op), user, t)
       <==> CoveredUntil(rows, user, t) || (user == op.user && t <= op.now + op.days * 86_400_000_000))
  {
    if op.days < 1 {
      return;
    }
    var after := Apply(rows, op);
    if CoveredUntil(rows, user, t) {
      OnlyEndingATrialShortensCover(rows, op, user, t);
    } else if user == op.user && t <= op.now + op.days * DAY {
      var k := if op.choice.Some? && rows[op.choice.value].freeUntil.Some? then op.choice.value else |rows|;
      assert after[k].user == user && after[k].status == Active && EffectiveEnd(after[k]).Some?;
    } else {
      forall i | 0 <= i < |after| && after[i].user == user && after[i].status == Active && EffectiveEnd(after[i]).Some?
        ensures EffectiveEnd(after[i]).value < t
      {
        if i < |rows| && EffectiveEnd(rows[i]).Some? {
          assert rows[i].user == user && rows[i].status == Active ==> EffectiveEnd(rows[i]).value < t;
        }
      }
    }
  }

  /** Cover already given moves earlier through `end_trial` and through nothing else. */
  lemma OnlyEndingATrialShortensCover(rows: Rows, op: Op, user: nat, t: int)
    requires Legal(rows, op) && !op.StopTrial? && CoveredUntil(rows, user, t)
    ensures CoveredUntil(Apply(rows, op), user, t)
  {
    var after := Apply(rows, op);
    var i :| 0 <= i < |rows| && rows[i].user == user && rows[i].status == Active
      && EffectiveEnd(rows[i]).Some? && t <= EffectiveEnd(rows[i]).value;
    assert after[i].user == user && after[i].status == Active
      && EffectiveEnd(after[i]).Some? && t <= EffectiveEnd(after[i]).value;
  }

  /** So over every run in which no trial is ended, cover once given stands. */
  lemma {:induction false} CoverStandsUnlessATrialIsEnded(rows: Rows, ops: seq<Op>, user: nat, t: int)
    requires LegalRun(rows, ops) && CoveredUntil(rows, user, t)
    requires forall i :: 0 <= i < |ops| ==> !ops[i].StopTrial?
    ensures CoveredUntil(Run(rows, ops), user, t)
    decreases |ops|
  {
    if ops != [] {
      OnlyEndingATrialShortensCover(rows, ops[0], user, t);
      CoverStandsUnlessATrialIsEnded(Apply(rows, ops[0]), ops[1..], user, t);
    }
  }

  // ── at whose price ────────────────────────────────────────────────────────

  /** A price is agreed on one subscription, and taken back on it, if it is not below nothing. */
  lemma PricesAreAgreedExactly(rows: Rows, id: nat, price: Option<int>)
    requires id < |rows|
    ensures var r := Negotiate(rows, id, price);
            && (r.Ok? <==> (price.Some? ==> price.value >= 0))
            && (r.Ok? ==>
                  && |r.value| == |rows| && r.value[id] == rows[id].(negotiated := price)
                  && forall k :: 0 <= k < |rows| && k != id ==> r.value[k] == rows[k])
  {
  }

  /** A purchase opens one row, at the price agreed with the owner on the subscription in force if one
      was, and at the plan's own otherwise. */
  lemma APurchaseIsAtTheOwnersPrice(rows: Rows, op: Op)
    requires Legal(rows, op) && op.Buy? && StartPurchase(rows, op.order, op.now, op.stamp, op.choice).Ok?
    ensures var after := Apply(rows, op);
            && |after| == |rows| + 1
            && var bought, agreed := after[|rows|], if op.choice.Some? then rows[op.choice.value].negotiated else None;
               && bought.user == op.order.user && bought.months == op.order.months && bought.createdAt == op.stamp
               && bought.status == PendingPayment && bought.negotiated == agreed
               && IsPriced(bought.monthlyPrice, bought.total, op.order.plan, op.order.months, agreed,
                           op.order.discounts)
  {
    var agreed := if op.choice.Some? then rows[op.choice.value].negotiated else None;
    QuotesArePriced(op.order.plan, op.order.months, agreed, op.order.discounts);
  }
}
