/** The subscriptions table: buying a term, putting it in force, and trials.
    Times are ticks of one clock; a row's index is its id. */
module SubscriptionTable {
  import opened Outcomes
  import opened Q = SubscriptionQuotes

  const DAY: int := 86_400_000_000
  const MONTH: int := 30 * DAY
  const GRACE: int := 5 * DAY
  const PURCHASE_LIFETIME: int := 20 * 60_000_000

  datatype Status = PendingPayment | Active | Expired | Cancelled

  datatype Subscription = Subscription(
    user: nat,
    status: Status,
    createdAt: int,
    months: int,
    monthlyPrice: int,
    percent: int,
    total: int,
    negotiated: Option<int>,
    freeUntil: Option<int>,
    startsAt: Option<int>,
    expiresAt: Option<int>,
    graceEndsAt: Option<int>)

  type Rows = seq<Subscription>

  datatype Refusal = AlreadyBuying | NotPurchasable | TooShort | BadQuote(why: Q.Refusal) | NegativePrice

  function Later(a: Option<int>, b: Option<int>): (m: Option<int>)
    ensures m.None? <==> a.None? && b.None?
    ensures m.Some? ==> m == a || m == b
    ensures (a.Some? ==> m.value >= a.value) && (b.Some? ==> m.value >= b.value)
  {
    if a.None? then b else if b.None? || b.value <= a.value then a else b
  }

  function EffectiveEnd(s: Subscription): Option<int> {
    Later(s.freeUntil, Later(s.graceEndsAt, s.expiresAt))
  }

  predicate IsInForce(s: Subscription, at: int) {
    s.status == Active && EffectiveEnd(s).Some? && at < EffectiveEnd(s).value
  }

  /** The rows `active_subscription` may answer with at the instant it reads the clock: one
      that runs longest among this owner's rows in force. Equal ends may come back in either order. */
  predicate IsActiveSubscription(rows: Rows, user: nat, at: int, choice: Option<nat>) {
    match choice
    case None => forall i :: 0 <= i < |rows| && rows[i].user == user ==> !IsInForce(rows[i], at)
    case Some(k) =>
      && k < |rows| && rows[k].user == user && IsInForce(rows[k], at)
      && forall i :: 0 <= i < |rows| && rows[i].user == user && IsInForce(rows[i], at) ==>
           EffectiveEnd(rows[i]).value <= EffectiveEnd(rows[k]).value
  }

  predicate IsPendingOf(s: Subscription, user: nat) { s.user == user && s.status == PendingPayment }

  function FirstPending(rows: Rows, user: nat): (k: Option<nat>)
    ensures k.None? ==> forall i :: 0 <= i < |rows| ==> !IsPendingOf(rows[i], user)
    ensures k.Some? ==> k.value < |rows| && IsPendingOf(rows[k.value], user)
  {
    if rows == [] then None
    else
      var k := FirstPending(rows[..|rows| - 1], user);
      if k.Some? then k
      else if IsPendingOf(rows[|rows| - 1], user) then Some(|rows| - 1) else None
  }

  // What a checkout asks for, and the rates found for it.
  datatype Order = Order(user: nat, plan: Plan, months: int, discounts: Discounts)

  /** `start_purchase`. `stamp` is the database's own clock, which dates the new row. */
  function StartPurchase(rows: Rows, order: Order, now: int, stamp: int, choice: Option<nat>): Result<Rows, Refusal>
    requires choice.Some? ==> choice.value < |rows|
  {
    var open := FirstPending(rows, order.user);
    if open.Some? && now - rows[open.value].createdAt <= PURCHASE_LIFETIME then Refused(AlreadyBuying)
    else
      var cleared := if open.Some? then rows[open.value := rows[open.value].(status := Cancelled)] else rows;
      var negotiated := if choice.Some? then rows[choice.value].negotiated else None;
      var quote := QuoteSubscription(order.plan, order.months, negotiated, order.discounts);
      if quote.Refused? then Refused(BadQuote(quote.error))
      else
        var q := quote.value;
        Ok(cleared + [Subscription(order.user, PendingPayment, stamp, q.months, q.monthly, q.percent, q.total,
                                   negotiated, None, None, None, None)])
  }

  /** Where a newly paid term begins: at the end of what the longest row in force has given. */
  function TermStart(rows: Rows, id: nat, now: int, choice: Option<nat>): int
    requires choice.Some? ==> choice.value < |rows|
  {
    if choice.Some? && choice.value != id then
      var entitled := Later(rows[choice.value].expiresAt, rows[choice.value].freeUntil);
      if entitled.Some? && entitled.value > now then entitled.value else now
    else now
  }

  function InForceFrom(s: Subscription, start: int): Subscription {
    var expires := start + MONTH * s.months;
    s.(status := Active, startsAt := Some(start), expiresAt := Some(expires), graceEndsAt := Some(expires + GRACE))
  }

  /** `activate_subscription`. The clock is read once as `now`, and again inside
      `active_subscription`; `choice` is what that second reading found. */
  function Activate(rows: Rows, id: nat, now: int, choice: Option<nat>): Result<Rows, Refusal>
    requires id < |rows| && (choice.Some? ==> choice.value < |rows|)
  {
    var s := rows[id];
    if s.status == Active then Ok(rows)
    else if s.status != PendingPayment then Refused(NotPurchasable)
    else if s.months < 1 then Refused(TooShort)
    else Ok(rows[id := InForceFrom(s, TermStart(rows, id, now, choice))])
  }

  /** `grant_trial` */
  function GrantTrial(rows: Rows, user: nat, days: int, now: int, stamp: int, choice: Option<nat>):
    Result<Rows, Refusal>
    requires choice.Some? ==> choice.value < |rows|
  {
    var ends := now + days * DAY;
    if days < 1 then Refused(TooShort)
    else if choice.Some? && rows[choice.value].freeUntil.Some? then
      var s := rows[choice.value];
      Ok(rows[choice.value := s.(freeUntil := Later(s.freeUntil, Some(ends)))])
    else
      Ok(rows + [Subscription(user, Active, stamp, 1, 0, 0, 0, None, Some(ends), Some(now), None, None)])
  }

  /** `end_trial` */
  function EndTrial(rows: Rows, id: nat, now: int): Rows
    requires id < |rows|
  {
    rows[id := rows[id].(freeUntil := Some(now))]
  }

  /** `set_negotiated_price`, the price already rounded. */
  function Negotiate(rows: Rows, id: nat, price: Option<int>): Result<Rows, Refusal>
    requires id < |rows|
  {
    if price.Some? && price.value < 0 then Refused(Refusal.NegativePrice)
    else Ok(rows[id := rows[id].(negotiated := price)])
  }

  /** The row as if no trial had ever been granted on it. */
  function Unfree(s: Subscription): Subscription { s.(freeUntil := None) }

  class Subscriptions {
    var rows: Rows

    constructor ()
      ensures rows == []
    {
      rows := [];
    }

    /** `active_subscription` */
    method ActiveSubscription(user: nat, at: int) returns (choice: Option<nat>)
      ensures IsActiveSubscription(rows, user, at, choice)
    {
      choice := None;
      for i := 0 to |rows|
        invariant IsActiveSubscription(rows[..i], user, at, choice)
      {
        if rows[i].user == user && IsInForce(rows[i], at) {
          if choice.None? || EffectiveEnd(rows[i]).value > EffectiveEnd(rows[choice.value]).value {
            choice := Some(i);
          }
        }
        assert rows[..i + 1] == rows[..i] + [rows[i]];
      }
      assert rows[..|rows|] == rows;
    }

    method Purchase(order: Order, now: int, stamp: int, readAt: int)
      returns (refusal: Option<Refusal>, choice: Option<nat>)
      modifies this
      ensures IsActiveSubscription(old(rows), order.user, readAt, choice)
      ensures var r := StartPurchase(old(rows), order, now, stamp, choice);
              match r
              case Ok(after) => refusal == None && rows == after
              case Refused(why) => refusal == Some(why) && rows == old(rows)
    {
      var before := rows;
      choice := None;
      var open := FirstPending(rows, order.user);
      if open.Some? {
        if now - rows[open.value].createdAt <= PURCHASE_LIFETIME {
          choice := ActiveSubscription(order.user, readAt);
          return Some(AlreadyBuying), choice;
        }
        rows := rows[open.value := rows[open.value].(status := Cancelled)];
      }
      choice := ActiveSubscription(order.user, readAt);
      assert forall i :: 0 <= i < |rows| ==>
        rows[i].user == before[i].user && IsInForce(rows[i], readAt) == IsInForce(before[i], readAt)
        && EffectiveEnd(rows[i]) == EffectiveEnd(before[i]);
      var negotiated := if choice.Some? then rows[choice.value].negotiated else None;
      var quote := QuoteSubscription(order.plan, order.months, negotiated, order.discounts);
      if quote.Refused? {
        // The request is rolled back, cancellation included.
        rows := before;
        return Some(BadQuote(quote.error)), choice;
      }
      var q := quote.value;
      rows := rows + [Subscription(order.user, PendingPayment, stamp, q.months, q.monthly, q.percent, q.total,
                                   negotiated, None, None, None, None)];
      refusal := None;
    }

    method PutInForce(id: nat, now: int, readAt: int) returns (refusal: Option<Refusal>, choice: Option<nat>)
      requires id < |rows|
      modifies this
      ensures IsActiveSubscription(old(rows), old(rows)[id].user, readAt, choice)
      ensures var r := Activate(old(rows), id, now, choice);
              match r
              case Ok(after) => refusal == None && rows == after
              case Refused(why) => refusal == Some(why) && rows == old(rows)
    {
      var s := rows[id];
      choice := ActiveSubscription(s.user, readAt);
      if s.status == Active {
        return None, choice;
      }
      if s.status != PendingPayment {
        return Some(NotPurchasable), choice;
      }
      if s.months < 1 {
        return Some(TooShort), choice;
      }
      var starts := now;
      if choice.Some? && choice.value != id {
        var current := rows[choice.value];
        var entitled := Later(current.expiresAt, current.freeUntil);
        if entitled.Some? && entitled.value > now {
          starts := entitled.value;
        }
      }
      var expires := starts + MONTH * s.months;
      s := s.(status := Active, startsAt := Some(starts));
      s := s.(expiresAt := Some(expires), graceEndsAt := Some(expires + GRACE));
      rows := rows[id := s];
      refusal := None;
    }

    method Grant(user: nat, days: int, now: int, stamp: int, readAt: int)
      returns (refusal: Option<Refusal>, choice: Option<nat>)
      modifies this
      ensures IsActiveSubscription(old(rows), user, readAt, choice)
      ensures var r := GrantTrial(old(rows), user, days, now, stamp, choice);
              match r
              case Ok(after) => refusal == None && rows == after
              case Refused(why) => refusal == Some(why) && rows == old(rows)
    {
      choice := ActiveSubscription(user, readAt);
      if days < 1 {
        return Some(TooShort), choice;
      }
      var ends := now + days * DAY;
      if choice.Some? && rows[choice.value].freeUntil.Some? {
        var s := rows[choice.value];
        var until := if s.freeUntil.value >= ends then s.freeUntil.value else ends;
        rows := rows[choice.value := s.(freeUntil := Some(until))];
      } else {
        rows := rows + [Subscription(user, Active, stamp, 1, 0, 0, 0, None, Some(ends), Some(now), None, None)];
      }
      refusal := None;
    }

    /** From this instant on the row is in force exactly as far as it was paid for, and no other row
        is touched. */
    method StopTrial(id: nat, now: int)
      requires id < |rows|
      modifies this
      ensures |rows| == |old(rows)| && forall i :: 0 <= i < |rows| && i != id ==> rows[i] == old(rows)[i]
      ensures forall at :: now <= at ==> (IsInForce(rows[id], at) <==> IsInForce(Unfree(old(rows)[id]), at))
      ensures rows[id].freeUntil == Some(now) && rows == EndTrial(old(rows), id, now)
    {
      rows := rows[id := rows[id].(freeUntil := Some(now))];
    }
  }
}
