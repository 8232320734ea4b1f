/** The table of ceilings in front of the routes: which buckets one request spends, in what
    order, and what that bounds when many requests are in flight at once. */
module RateLimitMiddleware {
  import opened Outcomes
  import opened RateLimit

  const ADDRESS_FANOUT: nat := 20

  datatype Rule = Rule(limit: nat, window: Seconds)

  // `account` is set only when a bearer token was verified.
  datatype Caller = Caller(route: string, account: Option<string>, address: string)

  datatype Charge = Charge(key: Key, limit: nat, window: Seconds)

  /** The key as the stores see it. */
  function Text(key: Key): string {
    match key
    case Account(route, id) => route + "|acct:" + id
    case Address(route, address) => route + "|addr:" + address
  }

  /** The buckets one rule costs a request, tightest first. */
  function Charges(caller: Caller, rule: Rule): seq<Charge> {
    if caller.account.Some? then
      [Charge(Account(caller.route, caller.account.value), rule.limit, rule.window),
       Charge(Address(caller.route, caller.address), rule.limit * ADDRESS_FANOUT, rule.window)]
    else [Charge(Address(caller.route, caller.address), rule.limit, rule.window)]
  }

  /** Everything a request will be charged for, rule by rule. */
  function Plan(caller: Caller, rules: seq<Rule>): (plan: seq<Charge>)
    ensures |plan| == if caller.account.Some? then 2 * |rules| else |rules|
  {
    if rules == [] then [] else Charges(caller, rules[0]) + Plan(caller, rules[1..])
  }

  function At(charge: Charge, now: real): Attempt { Attempt(charge.key, charge.limit, charge.window, now) }

  /** A plan, each charge on its own reading of the clock. */
  function Timed(plan: seq<Charge>, clock: seq<real>): (hits: seq<Attempt>)
    requires |plan| <= |clock|
    ensures |hits| == |plan|
    decreases |plan|
  {
    if plan == [] then [] else [At(plan[0], clock[0])] + Timed(plan[1..], clock[1..])
  }

  /** One hit after another until one is refused: what the store holds then, its last word,
      and how many hits were made. */
  function Spend(store: Store, counts: Counts, attempts: seq<Attempt>): (Counts, Decision, nat)
    decreases |attempts|
  {
    if attempts == [] then (counts, ALLOWED, 0)
    else
      var (after, d) := StoreHit(store, counts, attempts[0]);
      if !d.allowed then (after, d, 1)
      else
        var (end, word, made) := Spend(store, after, attempts[1..]);
        (end, word, made + 1)
  }

  /** No account id and no address can be written so that one lands in the other's bucket, nor
      in a bucket of another route, as routes are literal paths without a bar. */
  lemma KeysNeverCollide(a: Key, b: Key)
    requires '|' !in a.route && '|' !in b.route
    ensures Text(a) == Text(b) <==> a == b
  {
    var (mid, id) := if a.Account? then ("|acct:", a.id) else ("|addr:", a.address);
    var (mid', id') := if b.Account? then ("|acct:", b.id) else ("|addr:", b.address);
    SplitsAtTheBar(a.route, mid, id, b.route, mid', id');
    assert "|acct:"[2] == 'c' && "|addr:"[2] == 'd';
  }

  lemma SplitsAtTheBar(a: string, mid: string, b: string, a': string, mid': string, b': string)
    requires '|' !in a && '|' !in a' && |mid| == |mid'| == 6 && mid[0] == mid'[0] == '|'
    ensures a + mid + b == a' + mid' + b' ==> a == a' && mid == mid' && b == b'
  {
    var s, s' := a + mid + b, a' + mid' + b';
    assert s[|a|] == '|' && forall n :: 0 <= n < |a| ==> s[n] == a[n];
    assert s'[|a'|] == '|' && forall n :: 0 <= n < |a'| ==> s'[n] == a'[n];
    assert a == s[..|a|] && a' == s'[..|a'|];
    assert mid == s[|a|..|a| + 6] && mid' == s'[|a'|..|a'| + 6];
    assert b == s[|a| + 6..] && b' == s'[|a'| + 6..];
  }

  /** What a request does to a store: a route without rules costs nothing, any other spends its plan. */
  function Called(store: Store, rules: map<string, seq<Rule>>, counts: Counts, caller: Caller, clock: seq<real>):
    (Counts, Decision)
    requires caller.route in rules ==> |Plan(caller, rules[caller.route])| <= |clock|
  {
    if caller.route !in rules then (counts, ALLOWED)
    else
      var outcome := Spend(store, counts, Timed(Plan(caller, rules[caller.route]), clock));
      (outcome.0, outcome.1)
  }

  class Middleware {
    const counter: Counter
    const rules: map<string, seq<Rule>>

    constructor (counter: Counter, rules: map<string, seq<Rule>>)
      ensures this.counter == counter && this.rules == rules
    {
      this.counter := counter;
      this.rules := rules;
    }

    /** `__call__`: spend every bucket of every rule in turn, and stop at the first refusal.
        Each hit reads the clock afresh; `clock` lists the readings. */
    method Call(caller: Caller, clock: seq<real>) returns (d: Decision)
      requires caller.route in rules ==> |Plan(caller, rules[caller.route])| <= |clock|
      modifies counter`counts
      ensures (counter.counts, d) == Called(counter.store, rules, old(counter.counts), caller, clock)
    {
      if caller.route !in rules {
        return ALLOWED;
      }
      var mine, readings := rules[caller.route], clock;
      for i := 0 to |mine|
        invariant |Plan(caller, mine[i..])| <= |readings|
        invariant Same(Spend(counter.store, old(counter.counts), Timed(Plan(caller, mine), clock)),
                       Spend(counter.store, counter.counts, Timed(Plan(caller, mine[i..]), readings)))
      {
        assert mine[i..][1..] == mine[i + 1..];
        d, readings := SpendRule(Charges(caller, mine[i]), readings, Plan(caller, mine[i + 1..]));
        if !d.allowed {
          return d;
        }
      }
      return ALLOWED;
    }

    /** The buckets of one rule, until one of them refuses; `rest` is what follows in the plan. */
    method SpendRule(charges: seq<Charge>, clock: seq<real>, ghost rest: seq<Charge>)
      returns (d: Decision, readings: seq<real>)
      requires |charges| + |rest| <= |clock|
      modifies counter`counts
      ensures d.allowed ==> |rest| <= |readings|
      ensures Same(Spend(counter.store, old(counter.counts), Timed(charges + rest, clock)),
                   if d.allowed then Spend(counter.store, counter.counts, Timed(rest, readings))
                   else (counter.counts, d, 0))
    {
      readings := clock;
      d := ALLOWED;
      for j := 0 to |charges|
        invariant d.allowed && |charges| - j + |rest| <= |readings|
        invariant Same(Spend(counter.store, old(counter.counts), Timed(charges + rest, clock)),
                       Spend(counter.store, counter.counts, Timed(charges[j..] + rest, readings)))
      {
        assert (charges[j..] + rest)[1..] == charges[j + 1..] + rest;
        d := counter.Hit(charges[j].key, charges[j].limit, charges[j].window, readings[0]);
        readings := readings[1..];
        if !d.allowed {
          return;
        }
      }
      assert charges[|charges|..] + rest == rest;
    }
  }

  predicate Same(a: (Counts, Decision, nat), b: (Counts, Decision, nat)) { a.0 == b.0 && a.1 == b.1 }

  function Replay(store: Store, counts: Counts, attempts: seq<Attempt>): Counts
    decreases |attempts|
  {
    if attempts == [] then counts else Replay(store, StoreHit(store, counts, attempts[0]).0, attempts[1..])
  }

  /** Spending makes its first `made` hits; they are all of them unless the last was refused. */
  lemma {:induction false} SpendingReplaysAPrefix(store: Store, counts: Counts, attempts: seq<Attempt>)
    ensures var (end, d, made) := Spend(store, counts, attempts);
            && made <= |attempts|
            && end == Replay(store, counts, attempts[..made])
            && (d.allowed ==> made == |attempts|)
            && (!d.allowed ==>
                  0 < made && d == StoreHit(store, Replay(store, counts, attempts[..made - 1]), attempts[made - 1]).1)
    decreases |attempts|
  {
    if attempts != [] {
      var (after, d) := StoreHit(store, counts, attempts[0]);
      if d.allowed {
        SpendingReplaysAPrefix(store, after, attempts[1..]);
        var made := Spend(store, after, attempts[1..]).2;
        assert attempts[..made + 1][1..] == attempts[1..][..made];
        assert made > 0 ==> attempts[..made][1..] == attempts[1..][..made - 1];
      }
    }
  }

  /** So a request leaves the store as the history before it, extended by the hits it made. */
  lemma {:induction false} ReplayExtendsHistory(store: Store, hs: seq<Attempt>, attempts: seq<Attempt>)
    ensures Replay(store, After(store, hs), attempts) == After(store, hs + attempts)
    decreases |attempts|
  {
    if attempts == [] {
      assert hs + attempts == hs;
    } else {
      assert Init(hs + [attempts[0]]) == hs;
      ReplayExtendsHistory(store, hs + [attempts[0]], attempts[1..]);
      assert hs + [attempts[0]] + attempts[1..] == hs + attempts;
    }
  }

  /** Where in its plan a request meets rule `j`: on its account if it has one, and on its address. */
  lemma {:induction false} PlanPositions(caller: Caller, rules: seq<Rule>, j: nat)
    requires j < |rules|
    ensures var plan := Plan(caller, rules);
            if caller.account.Some? then
              && |plan| == 2 * |rules|
              && plan[2 * j] == Charges(caller, rules[j])[0]
              && plan[2 * j + 1] == Charges(caller, rules[j])[1]
            else
              |plan| == |rules| && plan[j] == Charges(caller, rules[j])[0]
    decreases |rules|
  {
    if |rules| > 1 {
      PlanPositions(caller, rules[1..], if j > 0 then j - 1 else 0);
    }
  }

  // ── who is let through ────────────────────────────────────────────────────

  /** Readings of a clock that does not go back, none of them before the last of these hits. */
  predicate Onward(hs: seq<Attempt>, clock: seq<real>) {
    && Timely(hs)
    && (hs != [] && clock != [] ==> Last(hs).now <= clock[0])
    && forall i, j :: 0 <= i <= j < |clock| ==> clock[i] <= clock[j]
  }

  predicate DistinctBuckets(hits: seq<Attempt>) {
    forall i, j :: 0 <= i < j < |hits| ==> hits[i].In() != hits[j].In()
  }

  predicate DistinctWindows(rules: seq<Rule>) {
    forall i, j :: 0 <= i < j < |rules| ==> rules[i].window != rules[j].window
  }

  lemma {:induction false} OneHitMore(store: Store, hs: seq<Attempt>, hit: Attempt, b: Bucket)
    requires Onward(hs, [hit.now])
    ensures Timely(hs + [hit]) && After(store, hs + [hit]) == StoreHit(store, After(store, hs), hit).0
    ensures StoreHit(store, After(store, hs), hit).1.allowed <==> Held(store, hs, hit.In()) < hit.limit
    ensures b != hit.In() ==> Held(store, hs + [hit], b) == Held(store, hs, b)
    ensures b == hit.In() && Held(store, hs, b) < hit.limit ==> Held(store, hs + [hit], b) == Held(store, hs, b) + 1
  {
    var all := hs + [hit];
    assert Init(all) == hs && Last(all) == hit;
    assert forall i :: 0 <= i < |hs| ==> hs[i].now <= Last(hs).now;
    VerdictIsACount(store, all);
  }

  predicate RoomFor(store: Store, hs: seq<Attempt>, hit: Attempt) { Held(store, hs, hit.In()) < hit.limit }

  /** For each of these hits, whether its bucket has room for one more. */
  function Rooms(store: Store, hs: seq<Attempt>, hits: seq<Attempt>): seq<bool> {
    seq(|hits|, k requires 0 <= k < |hits| => RoomFor(store, hs, hits[k]))
  }

  predicate All(bs: seq<bool>) { forall k :: 0 <= k < |bs| ==> bs[k] }

  lemma AllFromTheFirst(bs: seq<bool>)
    requires bs != []
    ensures All(bs) <==> bs[0] && All(bs[1..])
  {
    if bs[0] && All(bs[1..]) {
      assert forall k :: 0 < k < |bs| ==> bs[k] == bs[1..][k - 1];
    }
  }

  lemma StillRoom(store: Store, hs: seq<Attempt>, first: Attempt, hit: Attempt)
    requires Onward(hs, [first.now]) && first.In() != hit.In()
    ensures RoomFor(store, hs + [first], hit) == RoomFor(store, hs, hit)
  {
    OneHitMore(store, hs, first, hit.In());
  }

  lemma {:induction false} RoomFromTheFirst(store: Store, hs: seq<Attempt>, hits: seq<Attempt>)
    requires hits != [] && Onward(hs, [hits[0].now]) && DistinctBuckets(hits)
    ensures Rooms(store, hs, hits)[1..] == Rooms(store, hs + [hits[0]], hits[1..])
  {
    var rest, next := hits[1..], hs + [hits[0]];
    forall k | 0 <= k < |rest| ensures Rooms(store, hs, hits)[1..][k] == Rooms(store, next, rest)[k] {
      StillRoom(store, hs, hits[0], hits[k + 1]);
    }
  }

  lemma FirstComesAfter(hs: seq<Attempt>, hits: seq<Attempt>)
    requires hits != [] && Timely(hs + hits)
    ensures Onward(hs, [hits[0].now]) && hs + [hits[0]] + hits[1..] == hs + hits
  {
    var all := hs + hits;
    assert forall i :: 0 <= i < |hs| ==> all[i] == hs[i];
    assert all[|hs|] == hits[0];
  }

  /** Spending in different buckets goes through exactly where each has room for one more. */
  lemma {:induction false} SpentExactlyWhenRoom(store: Store, hs: seq<Attempt>, hits: seq<Attempt>)
    requires Timely(hs + hits) && DistinctBuckets(hits)
    ensures Spend(store, After(store, hs), hits).1.allowed <==> All(Rooms(store, hs, hits))
    decreases |hits|
  {
    if hits != [] {
      FirstComesAfter(hs, hits);
      OneHitMore(store, hs, hits[0], hits[0].In());
      SpentExactlyWhenRoom(store, hs + [hits[0]], hits[1..]);
      RoomFromTheFirst(store, hs, hits);
      AllFromTheFirst(Rooms(store, hs, hits));
    }
  }

  lemma {:induction false} TimedAt(plan: seq<Charge>, clock: seq<real>, k: nat)
    requires k < |plan| <= |clock|
    ensures Timed(plan, clock)[k] == At(plan[k], clock[k])
    decreases |plan|
  {
    if k > 0 { TimedAt(plan[1..], clock[1..], k - 1); }
  }

  /** The bucket of one account, or of one address, under one rule at one instant. */
  function AccountBucket(caller: Caller, rule: Rule, now: real): Bucket
    requires caller.account.Some?
  {
    Bucket(Account(caller.route, caller.account.value), rule.window, WindowOf(now, rule.window))
  }

  function AddressBucket(caller: Caller, rule: Rule, now: real): Bucket {
    Bucket(Address(caller.route, caller.address), rule.window, WindowOf(now, rule.window))
  }

  /** Under this rule there is room for one more: for the account under the limit and for its address
      under twenty times the limit, or for an anonymous caller's address under the limit. */
  predicate HasRoom(store: Store, hs: seq<Attempt>, caller: Caller, rule: Rule, clock: seq<real>, j: nat)
    requires if caller.account.Some? then 2 * j + 1 < |clock| else j < |clock|
  {
    if caller.account.Some? then
      && Held(store, hs, AccountBucket(caller, rule, clock[2 * j])) < rule.limit
      && Held(store, hs, AddressBucket(caller, rule, clock[2 * j + 1])) < 20 * rule.limit
    else Held(store, hs, AddressBucket(caller, rule, clock[j])) < rule.limit
  }

  predicate EveryRuleHasRoom(store: Store, hs: seq<Attempt>, caller: Caller, rules: seq<Rule>, clock: seq<real>)
    requires |clock| >= if caller.account.Some? then 2 * |rules| else |rules|
  {
    forall j :: 0 <= j < |rules| ==> HasRoom(store, hs, caller, rules[j], clock, j)
  }

  lemma {:induction false} TheHitsOfACall(caller: Caller, rules: seq<Rule>, clock: seq<real>, j: nat)
    requires |Plan(caller, rules)| <= |clock| && j < |rules|
    ensures var hits, rule := Timed(Plan(caller, rules), clock), rules[j];
            if caller.account.Some? then
              && |hits| == 2 * |rules|
              && hits[2 * j].In() == AccountBucket(caller, rule, clock[2 * j]) && hits[2 * j].limit == rule.limit
              && hits[2 * j + 1].In() == AddressBucket(caller, rule, clock[2 * j + 1])
              && hits[2 * j + 1].limit == 20 * rule.limit
            else
              && |hits| == |rules|
              && hits[j].In() == AddressBucket(caller, rule, clock[j]) && hits[j].limit == rule.limit
  {
    PlanPositions(caller, rules, j);
    if caller.account.Some? {
      TimedAt(Plan(caller, rules), clock, 2 * j);
      TimedAt(Plan(caller, rules), clock, 2 * j + 1);
    } else {
      TimedAt(Plan(caller, rules), clock, j);
    }
  }

  lemma {:induction false} CallsSpendApart(caller: Caller, rules: seq<Rule>, clock: seq<real>)
    requires |Plan(caller, rules)| <= |clock| && DistinctWindows(rules)
    ensures DistinctBuckets(Timed(Plan(caller, rules), clock))
  {
    var hits := Timed(Plan(caller, rules), clock);
    forall i, k | 0 <= i < k < |hits| ensures hits[i].In() != hits[k].In() {
      if caller.account.Some? {
        TheHitsOfACall(caller, rules, clock, i / 2);
        TheHitsOfACall(caller, rules, clock, k / 2);
        assert i == 2 * (i / 2) || i == 2 * (i / 2) + 1;
        assert k == 2 * (k / 2) || k == 2 * (k / 2) + 1;
      } else {
        TheHitsOfACall(caller, rules, clock, i);
        TheHitsOfACall(caller, rules, clock, k);
      }
    }
  }

  lemma {:induction false} HitsComeAfter(hs: seq<Attempt>, plan: seq<Charge>, clock: seq<real>)
    requires |plan| <= |clock| && Onward(hs, clock)
    ensures Timely(hs + Timed(plan, clock))
  {
    var hits := Timed(plan, clock);
    forall k | 0 <= k < |hits| ensures hits[k].now == clock[k] {
      TimedAt(plan, clock, k);
    }
    assert forall i :: 0 <= i < |hs| ==> hs[i].now <= Last(hs).now;
  }

  /** A request is let through exactly when every rule of its route has room for it: what was counted
      before is all that decides. */
  lemma {:induction false} LetThroughExactlyWhenRoom(
      store: Store, rules: map<string, seq<Rule>>, hs: seq<Attempt>, caller: Caller,
      clock: seq<real>)
    requires caller.route in rules && DistinctWindows(rules[caller.route]) && Onward(hs, clock)
    requires |clock| >= if caller.account.Some? then 2 * |rules[caller.route]| else |rules[caller.route]|
    ensures Called(store, rules, After(store, hs), caller, clock).1.allowed
       <==> EveryRuleHasRoom(store, hs, caller, rules[caller.route], clock)
  {
    var mine := rules[caller.route];
    HitsComeAfter(hs, Plan(caller, mine), clock);
    CallsSpendApart(caller, mine, clock);
    SpentExactlyWhenRoom(store, hs, Timed(Plan(caller, mine), clock));
    RoomRuleByRule(store, hs, caller, mine, clock);
  }

  lemma {:induction false} AllInPairs(singles: seq<bool>, pairs: seq<bool>)
    requires |singles| == 2 * |pairs|
    requires forall j :: 0 <= j < |pairs| ==> (pairs[j] <==> singles[2 * j] && singles[2 * j + 1])
    ensures All(singles) <==> All(pairs)
  {
    if All(pairs) {
      forall k | 0 <= k < |singles| ensures singles[k] {
        assert pairs[k / 2] && (k == 2 * (k / 2) || k == 2 * (k / 2) + 1);
      }
    }
  }

  lemma {:induction false} RoomUnderOneRule(
      store: Store, hs: seq<Attempt>, caller: Caller, rules: seq<Rule>, clock: seq<real>, j: nat)
    requires |Plan(caller, rules)| <= |clock| && j < |rules|
    ensures var rooms := Rooms(store, hs, Timed(Plan(caller, rules), clock));
            HasRoom(store, hs, caller, rules[j], clock, j)
            <==> if caller.account.Some? then rooms[2 * j] && rooms[2 * j + 1] else rooms[j]
  {
    TheHitsOfACall(caller, rules, clock, j);
  }

  lemma {:induction false} RoomRuleByRule(
      store: Store, hs: seq<Attempt>, caller: Caller, rules: seq<Rule>, clock: seq<real>)
    requires |Plan(caller, rules)| <= |clock|
    ensures All(Rooms(store, hs, Timed(Plan(caller, rules), clock)))
       <==> EveryRuleHasRoom(store, hs, caller, rules, clock)
  {
    var rooms := Rooms(store, hs, Timed(Plan(caller, rules), clock));
    var byRule := seq(|rules|, j requires 0 <= j < |rules| => HasRoom(store, hs, caller, rules[j], clock, j));
    forall j | 0 <= j < |rules|
      ensures byRule[j] <==> if caller.account.Some? then rooms[2 * j] && rooms[2 * j + 1] else rooms[j]
    {
      RoomUnderOneRule(store, hs, caller, rules, clock, j);
    }
    if caller.account.Some? {
      AllInPairs(rooms, byRule);
    } else {
      assert |rooms| == |byRule|;
      forall j | 0 <= j < |rules| ensures rooms[j] == byRule[j] {
        RoomUnderOneRule(store, hs, caller, rules, clock, j);
      }
      assert rooms == byRule;
    }
    if All(byRule) {
      forall j | 0 <= j < |rules| ensures HasRoom(store, hs, caller, rules[j], clock, j) {
        assert byRule[j];
      }
    }
    if EveryRuleHasRoom(store, hs, caller, rules, clock) {
      forall j | 0 <= j < |byRule| ensures byRule[j] {
        assert HasRoom(store, hs, caller, rules[j], clock, j);
      }
    }
  }

  // ── many requests in flight ────────────────────────────────────────────────

  // One request's progress: the readings of the hits it has made, and whether the last was refused.
  datatype Progress = Progress(clock: seq<real>, refused: bool)

  // `callers` are the requests that arrived, in any number; their hits may interleave freely.
  datatype Traffic = Traffic(hs: seq<Attempt>, made: seq<Progress>)

  /** Request `r` makes its next hit at `now`, if it has one to make. */
  function Step(store: Store, rules: map<string, seq<Rule>>, callers: seq<Caller>, t: Traffic, r: nat, now: real):
    Traffic
    requires |t.made| == |callers|
  {
    if r >= |callers| || callers[r].route !in rules then t
    else
      var plan, p := Plan(callers[r], rules[callers[r].route]), t.made[r];
      if p.refused || |p.clock| >= |plan| then t
      else
        var hs := t.hs + [At(plan[|p.clock|], now)];
        Traffic(hs, t.made[r := Progress(p.clock + [now], !Answer(store, hs).allowed)])
  }

  function Flow(store: Store, rules: map<string, seq<Rule>>, callers: seq<Caller>, events: seq<(nat, real)>):
    (t: Traffic)
    ensures |t.made| == |callers|
  {
    if events == [] then Traffic([], seq(|callers|, _ => Progress([], false)))
    else Step(store, rules, callers, Flow(store, rules, callers, Init(events)), Last(events).0, Last(events).1)
  }

  // ── a call is the steps of its request ─────────────────────────────────────

  /** Request `r` makes one hit after another, on these readings. */
  function InTurn(store: Store, rules: map<string, seq<Rule>>, callers: seq<Caller>, t: Traffic, r: nat,
                  clock: seq<real>): (u: Traffic)
    requires |t.made| == |callers|
    ensures |u.made| == |callers|
    decreases |clock|
  {
    if clock == [] then t
    else InTurn(store, rules, callers, Step(store, rules, callers, t, r, clock[0]), r, clock[1..])
  }

  predicate Finished(rules: map<string, seq<Rule>>, caller: Caller, p: Progress) {
    caller.route !in rules || p.refused || |p.clock| >= |Plan(caller, rules[caller.route])|
  }

  lemma {:induction false} FinishedStepsNoFurther(store: Store, rules: map<string, seq<Rule>>, callers: seq<Caller>,
                                                  t: Traffic, r: nat, clock: seq<real>)
    requires |t.made| == |callers| && (r < |callers| ==> Finished(rules, callers[r], t.made[r]))
    ensures InTurn(store, rules, callers, t, r, clock) == t
    decreases |clock|
  {
    if clock != [] {
      FinishedStepsNoFurther(store, rules, callers, t, r, clock[1..]);
    }
  }

  /** What a request has made of the traffic once it made these hits, the last of them refused or not. */
  function Advanced(t: Traffic, r: nat, hits: seq<Attempt>, clock: seq<real>, refused: bool): Traffic
    requires r < |t.made|
  {
    Traffic(t.hs + hits, t.made[r := Progress(t.made[r].clock + clock, refused)])
  }

  lemma AdvancedTwice(t: Traffic, r: nat, a: seq<Attempt>, b: seq<Attempt>, c: seq<real>, d: seq<real>, refused: bool)
    requires r < |t.made|
    ensures Advanced(Advanced(t, r, a, c, false), r, b, d, refused) == Advanced(t, r, a + b, c + d, refused)
  {
    assert t.hs + a + b == t.hs + (a + b);
    assert t.made[r].clock + c + d == t.made[r].clock + (c + d);
  }

  lemma OneStepIsOneHit(store: Store, rules: map<string, seq<Rule>>, callers: seq<Caller>, t: Traffic, r: nat,
                        now: real)
    requires |t.made| == |callers| && r < |callers| && !Finished(rules, callers[r], t.made[r])
    ensures var hit := At(Plan(callers[r], rules[callers[r].route])[|t.made[r].clock|], now);
            var (counts, d) := StoreHit(store, After(store, t.hs), hit);
            && Step(store, rules, callers, t, r, now) == Advanced(t, r, [hit], [now], !d.allowed)
            && After(store, t.hs + [hit]) == counts
  {
    var hit := At(Plan(callers[r], rules[callers[r].route])[|t.made[r].clock|], now);
    assert Init(t.hs + [hit]) == t.hs;
  }

  lemma SpendOneMore(store: Store, counts: Counts, hit: Attempt, rest: seq<Attempt>)
    ensures var (after, d) := StoreHit(store, counts, hit);
            Spend(store, counts, [hit] + rest)
            == if !d.allowed then (after, d, 1)
               else (Spend(store, after, rest).0, Spend(store, after, rest).1, Spend(store, after, rest).2 + 1)
  {
    assert ([hit] + rest)[1..] == rest;
  }

  predicate HasReadings(rules: map<string, seq<Rule>>, callers: seq<Caller>, t: Traffic, r: nat, clock: seq<real>) {
    && |t.made| == |callers| && r < |callers| && callers[r].route in rules && !t.made[r].refused
    && |t.made[r].clock| <= |Plan(callers[r], rules[callers[r].route])| <= |t.made[r].clock| + |clock|
  }

  /** The hits a request has still to make, on these readings. */
  function Remaining(rules: map<string, seq<Rule>>, callers: seq<Caller>, t: Traffic, r: nat, clock: seq<real>):
    seq<Attempt>
    requires HasReadings(rules, callers, t, r, clock)
  {
    Timed(Plan(callers[r], rules[callers[r].route])[|t.made[r].clock|..], clock)
  }

  /** The traffic once it has spent them. */
  function AfterSpending(store: Store, t: Traffic, r: nat, rest: seq<Attempt>, clock: seq<real>): Traffic
    requires r < |t.made| && |rest| <= |clock|
  {
    SpendingReplaysAPrefix(store, After(store, t.hs), rest);
    var (_, d, made) := Spend(store, After(store, t.hs), rest);
    Advanced(t, r, rest[..made], clock[..made], !d.allowed)
  }

  lemma {:induction false} SpendingFromTheFirst(
      store: Store, t: Traffic, r: nat, hit: Attempt, tail: seq<Attempt>, clock: seq<real>)
    requires r < |t.made| && clock != [] && |tail| < |clock|
    ensures var (counts, d) := StoreHit(store, After(store, t.hs), hit);
            var next := Advanced(t, r, [hit], [clock[0]], !d.allowed);
            After(store, next.hs) == counts ==>
              AfterSpending(store, t, r, [hit] + tail, clock)
              == if d.allowed then AfterSpending(store, next, r, tail, clock[1..]) else next
  {
    var now, later, rest := clock[0], clock[1..], [hit] + tail;
    var (counts, d) := StoreHit(store, After(store, t.hs), hit);
    SpendOneMore(store, After(store, t.hs), hit, tail);
    if d.allowed {
      SpendingReplaysAPrefix(store, counts, tail);
      var (_, last, made) := Spend(store, counts, tail);
      AdvancedTwice(t, r, [hit], tail[..made], [now], later[..made], !last.allowed);
      assert rest[..made + 1] == [hit] + tail[..made] && clock[..made + 1] == [now] + later[..made];
    } else {
      assert rest[..1] == [hit] && clock[..1] == [now];
    }
  }

  /** Left to run, a request makes exactly the hits that spending the rest of its plan makes, and is
      refused exactly when that is; it moves no other request. */
  lemma {:induction false} StepsAreSpending(store: Store, rules: map<string, seq<Rule>>, callers: seq<Caller>,
                                            t: Traffic, r: nat, clock: seq<real>)
    requires HasReadings(rules, callers, t, r, clock)
    ensures InTurn(store, rules, callers, t, r, clock)
         == AfterSpending(store, t, r, Remaining(rules, callers, t, r, clock), clock)
    decreases |clock|
  {
    var plan, k := Plan(callers[r], rules[callers[r].route]), |t.made[r].clock|;
    if k == |plan| {
      FinishedStepsNoFurther(store, rules, callers, t, r, clock);
      assert t.hs + [] == t.hs && t.made[r].clock + [] == t.made[r].clock;
    } else {
      var hit, after := At(plan[k], clock[0]), Step(store, rules, callers, t, r, clock[0]);
      assert plan[k..][1..] == plan[k + 1..];
      OneStepIsOneHit(store, rules, callers, t, r, clock[0]);
      SpendingFromTheFirst(store, t, r, hit, Timed(plan[k + 1..], clock[1..]), clock);
      if after.made[r].refused {
        FinishedStepsNoFurther(store, rules, callers, after, r, clock[1..]);
      } else {
        StepsAreSpending(store, rules, callers, after, r, clock[1..]);
      }
    }
  }

  /** A call answers, and leaves the store, as the steps of its request do: in any traffic, with any
      hits of other requests before it. */
  lemma {:induction false} CallIsItsSteps(
      store: Store, rules: map<string, seq<Rule>>, callers: seq<Caller>, t: Traffic, r: nat,
      clock: seq<real>)
    requires |t.made| == |callers| && r < |callers| && t.made[r] == Progress([], false)
    requires callers[r].route in rules ==> |Plan(callers[r], rules[callers[r].route])| <= |clock|
    ensures var u := InTurn(store, rules, callers, t, r, clock);
            && After(store, u.hs) == Called(store, rules, After(store, t.hs), callers[r], clock).0
            && (Passed(rules, callers[r], u.made[r])
                <==> Called(store, rules, After(store, t.hs), callers[r], clock).1.allowed)
            && forall q :: 0 <= q < |callers| && q != r ==> u.made[q] == t.made[q]
  {
    if callers[r].route !in rules {
      FinishedStepsNoFurther(store, rules, callers, t, r, clock);
    } else {
      var plan := Plan(callers[r], rules[callers[r].route]);
      assert plan[0..] == plan;
      var hits := Timed(plan, clock);
      StepsAreSpending(store, rules, callers, t, r, clock);
      SpendingReplaysAPrefix(store, After(store, t.hs), hits);
      var (_, d, made) := Spend(store, After(store, t.hs), hits);
      ReplayExtendsHistory(store, t.hs, hits[..made]);
    }
  }

  /** Calls made one after another, by the callers in turn: what the store holds then, and what each
      was told. */
  function Served(store: Store, rules: map<string, seq<Rule>>, callers: seq<Caller>, clocks: seq<seq<real>>):
    (r: (Counts, seq<Decision>))
    requires |clocks| <= |callers| && EnoughReadings(rules, callers, clocks)
    ensures |r.1| == |clocks|
    decreases |clocks|
  {
    if clocks == [] then (map[], [])
    else
      var (counts, told) := Served(store, rules, callers, Init(clocks));
      var (after, d) := Called(store, rules, counts, callers[|clocks| - 1], Last(clocks));
      (after, told + [d])
  }

  predicate EnoughReadings(rules: map<string, seq<Rule>>, callers: seq<Caller>, clocks: seq<seq<real>>) {
    forall r :: 0 <= r < |clocks| && r < |callers| && callers[r].route in rules ==>
      |Plan(callers[r], rules[callers[r].route])| <= |clocks[r]|
  }

  function Turn(r: nat, clock: seq<real>): seq<(nat, real)> {
    seq(|clock|, i requires 0 <= i < |clock| => (r, clock[i]))
  }

  function Turns(clocks: seq<seq<real>>): seq<(nat, real)> {
    if clocks == [] then [] else Turns(Init(clocks)) + Turn(|clocks| - 1, Last(clocks))
  }

  lemma {:induction false} TurnIsInFlow(store: Store, rules: map<string, seq<Rule>>, callers: seq<Caller>,
                                        events: seq<(nat, real)>, r: nat, clock: seq<real>)
    ensures Flow(store, rules, callers, events + Turn(r, clock))
         == InTurn(store, rules, callers, Flow(store, rules, callers, events), r, clock)
    decreases |clock|
  {
    if clock == [] {
      assert events + Turn(r, clock) == events;
    } else {
      var next := events + [(r, clock[0])];
      assert Init(next) == events && Last(next) == (r, clock[0]);
      assert events + Turn(r, clock) == next + Turn(r, clock[1..]);
      TurnIsInFlow(store, rules, callers, next, r, clock[1..]);
    }
  }

  /** So calls made in turn are one flow of hits among those whose every ceiling is proved below: the
      same store, and the same requests let through. */
  lemma {:induction false} CallsAreAFlow(store: Store, rules: map<string, seq<Rule>>, callers: seq<Caller>,
                                         clocks: seq<seq<real>>)
    requires |clocks| <= |callers| && EnoughReadings(rules, callers, clocks)
    ensures var t, served := Flow(store, rules, callers, Turns(clocks)), Served(store, rules, callers, clocks);
            && After(store, t.hs) == served.0
            && (forall r :: 0 <= r < |clocks| ==> (Passed(rules, callers[r], t.made[r]) <==> served.1[r].allowed))
            && forall r :: |clocks| <= r < |callers| ==> t.made[r] == Progress([], false)
    decreases |clocks|
  {
    if clocks != [] {
      var n := |clocks| - 1;
      var before := Flow(store, rules, callers, Turns(Init(clocks)));
      CallsAreAFlow(store, rules, callers, Init(clocks));
      TurnIsInFlow(store, rules, callers, Turns(Init(clocks)), n, clocks[n]);
      CallIsItsSteps(store, rules, callers, before, n, clocks[n]);
    }
  }

  // ── everybody behind one address ───────────────────────────────────────────

  /** How many of the first `n` calls are this account's. */
  function TimesBy(callers: seq<Caller>, n: nat, account: string): nat
    requires n <= |callers|
  {
    if n == 0 then 0
    else TimesBy(callers, n - 1, account) + (if callers[n - 1].account == Some(account) then 1 else 0)
  }

  /** All signed in, at one route, from one address. */
  predicate Together(callers: seq<Caller>, route: string, address: string) {
    forall i :: 0 <= i < |callers| ==>
      callers[i].route == route && callers[i].address == address && callers[i].account.Some?
  }

  /** Two readings to a call, none before the last, all in one window. */
  predicate InOneWindow(clocks: seq<seq<real>>, window: Seconds, index: int) {
    && (forall i :: 0 <= i < |clocks| ==>
          && |clocks[i]| == 2 && clocks[i][0] <= clocks[i][1]
          && WindowOf(clocks[i][0], window) == WindowOf(clocks[i][1], window) == index)
    && forall i, j :: 0 <= i < j < |clocks| && |clocks[i]| == 2 && |clocks[j]| == 2 ==> clocks[i][1] <= clocks[j][0]
  }

  /** What these calls count, if each is let through: on its account, and on the address. */
  function HitsOf(callers: seq<Caller>, rule: Rule, clocks: seq<seq<real>>): (hs: seq<Attempt>)
    requires |clocks| <= |callers| && forall i :: 0 <= i < |clocks| ==> |clocks[i]| == 2 && callers[i].account.Some?
    ensures |hs| == 2 * |clocks|
    ensures clocks != [] ==> Last(hs).now == Last(clocks)[1]
    decreases |clocks|
  {
    if clocks == [] then []
    else
      var caller, clock := callers[|clocks| - 1], Last(clocks);
      HitsOf(callers, rule, Init(clocks))
      + [Attempt(Account(caller.route, caller.account.value), rule.limit, rule.window, clock[0]),
         Attempt(Address(caller.route, caller.address), 20 * rule.limit, rule.window, clock[1])]
  }

  lemma {:induction false} HitsAreTimely(callers: seq<Caller>, rule: Rule, clocks: seq<seq<real>>, index: int)
    requires |clocks| <= |callers| && InOneWindow(clocks, rule.window, index)
    requires forall i :: 0 <= i < |clocks| ==> callers[i].account.Some?
    ensures Timely(HitsOf(callers, rule, clocks))
    decreases |clocks|
  {
    if clocks != [] {
      var n, init := |clocks| - 1, HitsOf(callers, rule, Init(clocks));
      HitsAreTimely(callers, rule, Init(clocks), index);
      assert n > 0 ==> Last(init).now == clocks[n - 1][1] <= clocks[n][0];
      assert forall i :: 0 <= i < |init| ==> init[i].now <= Last(init).now;
    }
  }

  lemma TwoHitsMore(store: Store, hs: seq<Attempt>, a: Attempt, c: Attempt, b: Bucket)
    ensures Spent(hs + [a, c], b) == Spent(hs + [a] + [c], b) && Asked(hs + [a, c], b) == Asked(hs + [a] + [c], b)
    ensures Init(hs + [a] + [c]) == hs + [a] && Init(hs + [a]) == hs
  {
    assert hs + [a, c] == hs + [a] + [c];
  }

  lemma {:induction false} HeldByAccount(store: Store, callers: seq<Caller>, route: string, address: string, rule: Rule,
                                         clocks: seq<seq<real>>, index: int, account: string)
    requires |clocks| <= |callers| && Together(callers, route, address) && InOneWindow(clocks, rule.window, index)
    requires TimesBy(callers, |clocks|, account) <= rule.limit
    ensures Held(store, HitsOf(callers, rule, clocks), Bucket(Account(route, account), rule.window, index))
         == TimesBy(callers, |clocks|, account)
    decreases |clocks|
  {
    if clocks != [] {
      var b, n := Bucket(Account(route, account), rule.window, index), |clocks| - 1;
      var hs := HitsOf(callers, rule, Init(clocks));
      HeldByAccount(store, callers, route, address, rule, Init(clocks), index, account);
      var all := HitsOf(callers, rule, clocks);
      TwoHitsMore(store, hs, all[2 * n], all[2 * n + 1], b);
      assert all == hs + [all[2 * n], all[2 * n + 1]];
    }
  }

  lemma {:induction false} HeldByAddress(store: Store, callers: seq<Caller>, route: string, address: string, rule: Rule,
                                         clocks: seq<seq<real>>, index: int)
    requires |clocks| <= |callers| && Together(callers, route, address) && InOneWindow(clocks, rule.window, index)
    requires |clocks| <= 20 * rule.limit
    ensures Held(store, HitsOf(callers, rule, clocks), Bucket(Address(route, address), rule.window, index)) == |clocks|
    decreases |clocks|
  {
    if clocks != [] {
      var b, n := Bucket(Address(route, address), rule.window, index), |clocks| - 1;
      var hs := HitsOf(callers, rule, Init(clocks));
      HeldByAddress(store, callers, route, address, rule, Init(clocks), index);
      var all := HitsOf(callers, rule, clocks);
      TwoHitsMore(store, hs, all[2 * n], all[2 * n + 1], b);
      assert all == hs + [all[2 * n], all[2 * n + 1]];
    }
  }

  lemma {:induction false} CallAddsItsHits(store: Store, hs: seq<Attempt>, caller: Caller, rule: Rule, clock: seq<real>)
    requires caller.account.Some? && |clock| == 2
    requires Called(store, map[caller.route := [rule]], After(store, hs), caller, clock).1.allowed
    ensures Called(store, map[caller.route := [rule]], After(store, hs), caller, clock).0
         == After(store, hs + [Attempt(Account(caller.route, caller.account.value), rule.limit, rule.window, clock[0]),
                               Attempt(Address(caller.route, caller.address), 20 * rule.limit, rule.window, clock[1])])
  {
    var hits := Timed(Plan(caller, [rule]), clock);
    TheHitsOfACall(caller, [rule], clock, 0);
    TimedAt(Plan(caller, [rule]), clock, 0);
    TimedAt(Plan(caller, [rule]), clock, 1);
    PlanPositions(caller, [rule], 0);
    SpendingReplaysAPrefix(store, After(store, hs), hits);
    ReplayExtendsHistory(store, hs, hits);
    assert hits[..|hits|] == hits;
    assert hits == [Attempt(Account(caller.route, caller.account.value), rule.limit, rule.window, clock[0]),
                    Attempt(Address(caller.route, caller.address), 20 * rule.limit, rule.window, clock[1])];
  }

  /** One of many from an address, its account not yet at the limit nor the address at twenty times it. */
  predicate Sharing(callers: seq<Caller>, route: string, address: string, rule: Rule, clocks: seq<seq<real>>,
                    index: int)
  {
    && |clocks| <= |callers| && Together(callers, route, address) && InOneWindow(clocks, rule.window, index)
    && (forall i :: 0 <= i < |callers| ==> TimesBy(callers, |callers|, callers[i].account.value) <= rule.limit)
    && |clocks| <= 20 * rule.limit
  }

  lemma {:induction false} TheNextComesAfter(callers: seq<Caller>, rule: Rule, clocks: seq<seq<real>>, index: int)
    requires clocks != [] && |clocks| <= |callers| && InOneWindow(clocks, rule.window, index)
    requires forall i :: 0 <= i < |clocks| ==> callers[i].account.Some?
    ensures Onward(HitsOf(callers, rule, Init(clocks)), Last(clocks))
  {
    var n, hs := |clocks| - 1, HitsOf(callers, rule, Init(clocks));
    HitsAreTimely(callers, rule, Init(clocks), index);
    assert n > 0 ==> Last(hs).now == clocks[n - 1][1] <= clocks[n][0];
  }

  lemma {:induction false} TheNextsBuckets(
      store: Store, callers: seq<Caller>, route: string, address: string, rule: Rule,
      clocks: seq<seq<real>>, index: int)
    requires clocks != [] && Sharing(callers, route, address, rule, clocks, index)
    ensures HasRoom(store, HitsOf(callers, rule, Init(clocks)), callers[|clocks| - 1], rule, Last(clocks), 0)
  {
    var n := |clocks| - 1;
    var account := callers[n].account.value;
    TimesGrow(callers, n + 1, account);
    assert TimesBy(callers, n + 1, account) == TimesBy(callers, n, account) + 1;
    HeldByAccount(store, callers, route, address, rule, Init(clocks), index, account);
    HeldByAddress(store, callers, route, address, rule, Init(clocks), index);
  }

  lemma {:induction false} TheNextHasRoom(
      store: Store, callers: seq<Caller>, route: string, address: string, rule: Rule,
      clocks: seq<seq<real>>, index: int)
    requires clocks != [] && Sharing(callers, route, address, rule, clocks, index)
    ensures var hs, caller := HitsOf(callers, rule, Init(clocks)), callers[|clocks| - 1];
            Called(store, map[route := [rule]], After(store, hs), caller, Last(clocks)).1.allowed
  {
    var hs, caller := HitsOf(callers, rule, Init(clocks)), callers[|clocks| - 1];
    TheNextComesAfter(callers, rule, clocks, index);
    TheNextsBuckets(store, callers, route, address, rule, clocks, index);
    RoomUnderTheOnlyRule(store, map[route := [rule]], hs, caller, rule, Last(clocks));
  }

  lemma {:induction false} RoomUnderTheOnlyRule(store: Store, rules: map<string, seq<Rule>>, hs: seq<Attempt>,
                                                caller: Caller, rule: Rule, clock: seq<real>)
    requires caller.route in rules && rules[caller.route] == [rule] && caller.account.Some?
    requires |clock| == 2 && Onward(hs, clock)
    ensures Called(store, rules, After(store, hs), caller, clock).1.allowed
       <==> HasRoom(store, hs, caller, rule, clock, 0)
  {
    LetThroughExactlyWhenRoom(store, rules, hs, caller, clock);
    assert rules[caller.route][0] == rule;
  }

  /** Signed-in calls from one address within one window, no account making more than the limit and
      all of them no more than twenty times that, are let through every one. */
  lemma {:induction false} EverybodyWithinTheirShareIsLetThrough(
      store: Store, callers: seq<Caller>, route: string, address: string, rule: Rule, clocks: seq<seq<real>>,
      index: int)
    requires Sharing(callers, route, address, rule, clocks, index)
    ensures EnoughReadings(map[route := [rule]], callers, clocks)
    ensures var served := Served(store, map[route := [rule]], callers, clocks);
            && (forall r :: 0 <= r < |clocks| ==> served.1[r].allowed)
            && served.0 == After(store, HitsOf(callers, rule, clocks))
    decreases |clocks|
  {
    if clocks != [] {
      var n := |clocks| - 1;
      EverybodyWithinTheirShareIsLetThrough(store, callers, route, address, rule, Init(clocks), index);
      TheNextHasRoom(store, callers, route, address, rule, clocks, index);
      CallAddsItsHits(store, HitsOf(callers, rule, Init(clocks)), callers[n], rule, clocks[n]);
    }
  }

  /** So many calls by each of these accounts, one account after another. */
  function Crowd(route: string, address: string, accounts: seq<string>, each: nat): seq<Caller> {
    if accounts == [] then []
    else
      Crowd(route, address, Init(accounts), each)
      + seq(each, _ => Caller(route, Some(Last(accounts)), address))
  }

  lemma {:induction false} CrowdIsTogether(route: string, address: string, accounts: seq<string>, each: nat)
    ensures Together(Crowd(route, address, accounts, each), route, address)
  {
    if accounts != [] { CrowdIsTogether(route, address, Init(accounts), each); }
  }

  lemma {:induction false} CrowdSize(route: string, address: string, accounts: seq<string>, each: nat)
    ensures |Crowd(route, address, accounts, each)| == |accounts| * each
  {
    if accounts != [] {
      CrowdSize(route, address, Init(accounts), each);
      assert |accounts| * each == |Init(accounts)| * each + each;
    }
  }

  lemma {:induction false} TimesSplit(a: seq<Caller>, b: seq<Caller>, n: nat, account: string)
    requires n <= |b|
    ensures TimesBy(a + b, |a| + n, account) == TimesBy(a, |a|, account) + TimesBy(b, n, account)
    decreases n
  {
    if n == 0 {
      TimesOfPrefix(a, b, |a|, account);
    } else {
      TimesSplit(a, b, n - 1, account);
      assert (a + b)[|a| + n - 1] == b[n - 1];
    }
  }

  lemma {:induction false} TimesOfPrefix(a: seq<Caller>, b: seq<Caller>, n: nat, account: string)
    requires n <= |a|
    ensures TimesBy(a + b, n, account) == TimesBy(a, n, account)
    decreases n
  {
    if n > 0 { TimesOfPrefix(a, b, n - 1, account); }
  }

  lemma {:induction false} TimesOfOne(callers: seq<Caller>, n: nat, name: string, account: string)
    requires n <= |callers| && forall i :: 0 <= i < n ==> callers[i].account == Some(name)
    ensures TimesBy(callers, n, account) == if name == account then n else 0
    decreases n
  {
    if n > 0 { TimesOfOne(callers, n - 1, name, account); }
  }

  lemma {:induction false} TimesInTheCrowd(
      route: string, address: string, accounts: seq<string>, each: nat, account: string)
    requires forall i, j :: 0 <= i < j < |accounts| ==> accounts[i] != accounts[j]
    ensures var crowd := Crowd(route, address, accounts, each);
            TimesBy(crowd, |crowd|, account) == if account in accounts then each else 0
  {
    if accounts != [] {
      var before := Crowd(route, address, Init(accounts), each);
      var last := seq(each, _ => Caller(route, Some(Last(accounts)), address));
      TimesInTheCrowd(route, address, Init(accounts), each, account);
      TimesSplit(before, last, each, account);
      TimesOfOne(last, each, Last(accounts), account);
      assert account in accounts <==> account in Init(accounts) || account == Last(accounts);
    }
  }

  /** Twenty accounts behind one address each get their whole limit within one window, and after that
      no account, of theirs or new, gets anything more from that address. */
  lemma {:induction false} TwentyAccountsGetTheirLimits(
      store: Store, route: string, address: string, accounts: seq<string>, rule: Rule, clocks: seq<seq<real>>,
      index: int,
      next: string, clock: seq<real>)
    requires |accounts| == 20 && forall i, j :: 0 <= i < j < 20 ==> accounts[i] != accounts[j]
    requires |clocks| == 20 * rule.limit && |clock| == 2 && InOneWindow(clocks + [clock], rule.window, index)
    ensures var callers, rules := Crowd(route, address, accounts, rule.limit), map[route := [rule]];
            && |callers| == 20 * rule.limit && EnoughReadings(rules, callers, clocks)
            && var served := Served(store, rules, callers, clocks);
               && (forall r :: 0 <= r < |clocks| ==> served.1[r].allowed)
               && !Called(store, rules, served.0, Caller(route, Some(next), address), clock).1.allowed
  {
    var callers, more := Crowd(route, address, accounts, rule.limit), Caller(route, Some(next), address);
    CrowdIsTogether(route, address, accounts, rule.limit);
    CrowdSize(route, address, accounts, rule.limit);
    forall i | 0 <= i < |callers|
      ensures TimesBy(callers, |callers|, callers[i].account.value) <= rule.limit
    {
      TimesInTheCrowd(route, address, accounts, rule.limit, callers[i].account.value);
    }
    WindowOfTheRest(clocks, clock, rule.window, index);
    EverybodyWithinTheirShareIsLetThrough(store, callers, route, address, rule, clocks, index);
    HeldByAddress(store, callers, route, address, rule, clocks, index);
    TheNextComesAfter(callers + [more], rule, clocks + [clock], index);
    SameHits(callers, [more], rule, clocks);
    assert Init(clocks + [clock]) == clocks;
    RoomUnderTheOnlyRule(store, map[route := [rule]], HitsOf(callers, rule, clocks), more, rule, clock);
  }

  lemma {:induction false} WindowOfTheRest(clocks: seq<seq<real>>, clock: seq<real>, window: Seconds, index: int)
    requires InOneWindow(clocks + [clock], window, index)
    ensures InOneWindow(clocks, window, index)
    ensures |clock| == 2 && clock[0] <= clock[1] && WindowOf(clock[0], window) == WindowOf(clock[1], window) == index
  {
    var all := clocks + [clock];
    assert forall i :: 0 <= i < |clocks| ==> all[i] == clocks[i];
    assert all[|clocks|] == clock;
  }

  lemma {:induction false} SameHits(callers: seq<Caller>, more: seq<Caller>, rule: Rule, clocks: seq<seq<real>>)
    requires |clocks| <= |callers| && forall i :: 0 <= i < |clocks| ==> |clocks[i]| == 2 && callers[i].account.Some?
    ensures HitsOf(callers + more, rule, clocks) == HitsOf(callers, rule, clocks)
    decreases |clocks|
  {
    if clocks != [] { SameHits(callers, more, rule, Init(clocks)); }
  }

  lemma {:induction false} TimesGrow(callers: seq<Caller>, n: nat, account: string)
    requires n <= |callers|
    ensures TimesBy(callers, n, account) <= TimesBy(callers, |callers|, account)
    decreases |callers| - n
  {
    if n < |callers| { TimesGrow(callers, n + 1, account); }
  }

  predicate ClockRuns(events: seq<(nat, real)>) {
    forall i, j :: 0 <= i <= j < |events| ==> events[i].1 <= events[j].1
  }

  predicate Passed(rules: map<string, seq<Rule>>, caller: Caller, p: Progress) {
    caller.route in rules ==> !p.refused && |p.clock| == |Plan(caller, rules[caller.route])|
  }

  /** This request has been let through `b` under a limit of at most `top`. */
  predicate Touched(rules: map<string, seq<Rule>>, caller: Caller, p: Progress, b: Bucket, top: nat) {
    && caller.route in rules
    && exists k :: 0 <= k < |p.clock| && (p.refused ==> k < |p.clock| - 1)
                   && TouchesAt(rules[caller.route], caller, p.clock, b, top, k)
  }

  predicate TouchesAt(rules: seq<Rule>, caller: Caller, clock: seq<real>, b: Bucket, top: nat, k: nat) {
    var plan := Plan(caller, rules);
    k < |plan| && k < |clock| && At(plan[k], clock[k]).In() == b && plan[k].limit <= top
  }

  function Touching(rules: map<string, seq<Rule>>, callers: seq<Caller>, t: Traffic, b: Bucket, top: nat): set<nat>
    requires |t.made| == |callers|
  {
    set r: nat | r < |callers| && Touched(rules, callers[r], t.made[r], b, top)
  }

  lemma {:induction false} StepTouches(
      store: Store, rules: map<string, seq<Rule>>, callers: seq<Caller>, t: Traffic, r: nat,
      now: real, b: Bucket, top: nat)
    requires |t.made| == |callers|
    ensures var after := Step(store, rules, callers, t, r, now);
            && Touching(rules, callers, after, b, top) <= Touching(rules, callers, t, b, top) + {r}
            && (LetThrough(store, after.hs, b, top) == LetThrough(store, t.hs, b, top) ==>
                  Touching(rules, callers, after, b, top) <= Touching(rules, callers, t, b, top))
            && LetThrough(store, t.hs, b, top) <= LetThrough(store, after.hs, b, top)
               <= LetThrough(store, t.hs, b, top) + 1
  {
    var after := Step(store, rules, callers, t, r, now);
    if after != t {
      var plan, p, p' := Plan(callers[r], rules[callers[r].route]), t.made[r], after.made[r];
      assert Init(after.hs) == t.hs;
      if Touched(rules, callers[r], p', b, top)
         && LetThrough(store, after.hs, b, top) == LetThrough(store, t.hs, b, top) {
        var k :| 0 <= k < |p'.clock| && (p'.refused ==> k < |p'.clock| - 1)
                 && TouchesAt(rules[callers[r].route], callers[r], p'.clock, b, top, k);
        assert k < |p.clock| && TouchesAt(rules[callers[r].route], callers[r], p.clock, b, top, k);
      }
    }
  }

  lemma {:induction false} TouchingIsCounted(store: Store, rules: map<string, seq<Rule>>, callers: seq<Caller>,
                                             events: seq<(nat, real)>, b: Bucket, top: nat)
    ensures var t := Flow(store, rules, callers, events);
            |Touching(rules, callers, t, b, top)| <= LetThrough(store, t.hs, b, top)
  {
    var t := Flow(store, rules, callers, events);
    if events == [] {
      assert Touching(rules, callers, t, b, top) == {};
    } else {
      var before := Flow(store, rules, callers, Init(events));
      var (r, now) := Last(events);
      TouchingIsCounted(store, rules, callers, Init(events), b, top);
      StepTouches(store, rules, callers, before, r, now, b, top);
      var old', new' := Touching(rules, callers, before, b, top), Touching(rules, callers, t, b, top);
      if new' <= old' {
        Fewer(new', old');
      } else {
        Fewer(new', old' + {r});
      }
    }
  }

  lemma {:induction false} Fewer<T>(a: set<T>, b: set<T>)
    requires a <= b
    ensures |a| <= |b|
  {
    if a != {} {
      var x :| x in a;
      Fewer(a - {x}, b - {x});
    }
  }

  predicate UpToDate(hs: seq<Attempt>, now: real) {
    Timely(hs) && (hs != [] ==> Last(hs).now <= now)
  }

  lemma {:induction false} StepIsTimely(
      store: Store, rules: map<string, seq<Rule>>, callers: seq<Caller>, t: Traffic, r: nat, now: real)
    requires |t.made| == |callers| && UpToDate(t.hs, now)
    ensures UpToDate(Step(store, rules, callers, t, r, now).hs, now)
  {
  }

  lemma {:induction false} FlowIsTimely(store: Store, rules: map<string, seq<Rule>>, callers: seq<Caller>,
                                        events: seq<(nat, real)>, now: real)
    requires ClockRuns(events) && (events != [] ==> Last(events).1 <= now)
    ensures UpToDate(Flow(store, rules, callers, events).hs, now)
  {
    if events != [] {
      var (r, at) := Last(events);
      FlowIsTimely(store, rules, callers, Init(events), at);
      StepIsTimely(store, rules, callers, Flow(store, rules, callers, Init(events)), r, at);
    }
  }

  /** However many requests are in flight and however their hits interleave, the requests let
      through one bucket in one window under a limit of at most `top` number at most `top`. */
  lemma BucketCeiling(store: Store, rules: map<string, seq<Rule>>, callers: seq<Caller>, events: seq<(nat, real)>,
                      b: Bucket, top: nat)
    requires ClockRuns(events)
    ensures |Touching(rules, callers, Flow(store, rules, callers, events), b, top)| <= top
  {
    FlowIsTimely(store, rules, callers, events, if events == [] then 0.0 else Last(events).1);
    TouchingIsCounted(store, rules, callers, events, b, top);
    WindowCeiling(store, Flow(store, rules, callers, events).hs, b, top);
  }

  /** The reading for charge `k` of this request fell in window `index`. */
  predicate CountedIn(p: Progress, k: nat, window: Seconds, index: int) {
    k < |p.clock| && WindowOf(p.clock[k], window) == index
  }

  /** Requests of one account that passed, by the window rule `j` counted their account in. */
  function ByAccount(rules: map<string, seq<Rule>>, callers: seq<Caller>, made: seq<Progress>,
                     route: string, j: nat, account: string, index: int): set<nat>
    requires |made| == |callers| && route in rules && j < |rules[route]|
  {
    set r: nat | r < |callers| && callers[r].route == route && callers[r].account == Some(account)
                 && Passed(rules, callers[r], made[r]) && CountedIn(made[r], 2 * j, rules[route][j].window, index)
  }

  /** Requests from one address that passed, by the window rule `j` counted their address in. */
  function ByAddress(rules: map<string, seq<Rule>>, callers: seq<Caller>, made: seq<Progress>,
                     route: string, j: nat, address: string, index: int): set<nat>
    requires |made| == |callers| && route in rules && j < |rules[route]|
  {
    set r: nat | r < |callers| && callers[r].route == route && callers[r].address == address
                 && Passed(rules, callers[r], made[r])
                 && CountedIn(made[r], if callers[r].account.Some? then 2 * j + 1 else j, rules[route][j].window, index)
  }

  function Anonymous(callers: seq<Caller>, rs: set<nat>): set<nat> {
    set r | r in rs && r < |callers| && callers[r].account == None
  }

  /** For every rule of a route at once, and in any interleaving: each of its aligned windows
      passes at most `limit` requests of one account, at most twenty times `limit` requests from
      one address, and at most `limit` anonymous requests from one address. */
  lemma EveryRuleHolds(store: Store, rules: map<string, seq<Rule>>, callers: seq<Caller>, events: seq<(nat, real)>,
                       route: string, j: nat, account: string, address: string, index: int)
    requires ClockRuns(events) && route in rules && j < |rules[route]|
    ensures var made, limit := Flow(store, rules, callers, events).made, rules[route][j].limit;
            && |ByAccount(rules, callers, made, route, j, account, index)| <= limit
            && |ByAddress(rules, callers, made, route, j, address, index)| <= limit * ADDRESS_FANOUT
            && |Anonymous(callers, ByAddress(rules, callers, made, route, j, address, index))| <= limit
  {
    var made, limit := Flow(store, rules, callers, events).made, rules[route][j].limit;
    var acct := Bucket(Account(route, account), rules[route][j].window, index);
    var addr := Bucket(Address(route, address), rules[route][j].window, index);
    var byAccount := ByAccount(rules, callers, made, route, j, account, index);
    var byAddress := ByAddress(rules, callers, made, route, j, address, index);
    forall r | r in byAccount
      ensures exists k :: TouchesAt(rules[callers[r].route], callers[r], made[r].clock, acct, limit, k)
    {
      PlanPositions(callers[r], rules[route], j);
      assert TouchesAt(rules[callers[r].route], callers[r], made[r].clock, acct, limit, 2 * j);
    }
    forall r | r in byAddress
      ensures exists k :: TouchesAt(rules[callers[r].route], callers[r], made[r].clock, addr, limit * ADDRESS_FANOUT, k)
    {
      PlanPositions(callers[r], rules[route], j);
      var k := if callers[r].account.Some? then 2 * j + 1 else j;
      assert TouchesAt(rules[callers[r].route], callers[r], made[r].clock, addr, limit * ADDRESS_FANOUT, k);
    }
    forall r | r in Anonymous(callers, byAddress)
      ensures exists k :: TouchesAt(rules[callers[r].route], callers[r], made[r].clock, addr, limit, k)
    {
      PlanPositions(callers[r], rules[route], j);
      assert TouchesAt(rules[callers[r].route], callers[r], made[r].clock, addr, limit, j);
    }
    Bounded(store, rules, callers, events, acct, limit, byAccount);
    Bounded(store, rules, callers, events, addr, limit * ADDRESS_FANOUT, byAddress);
    Bounded(store, rules, callers, events, addr, limit, Anonymous(callers, byAddress));
  }

  lemma Bounded(store: Store, rules: map<string, seq<Rule>>, callers: seq<Caller>, events: seq<(nat, real)>,
                b: Bucket, top: nat, rs: set<nat>)
    requires ClockRuns(events)
    requires var made := Flow(store, rules, callers, events).made;
             forall r | r in rs ::
               && r < |callers| && callers[r].route in rules && Passed(rules, callers[r], made[r])
               && exists k :: TouchesAt(rules[callers[r].route], callers[r], made[r].clock, b, top, k)
    ensures |rs| <= top
  {
    BucketCeiling(store, rules, callers, events, b, top);
    Fewer(rs, Touching(rules, callers, Flow(store, rules, callers, events), b, top));
  }
}
