/** Counting hits in clock-aligned windows, over two stores. Instants are exact reals. */
module RateLimit {

  datatype Decision = Decision(allowed: bool, retryAfter: int)

  // Whose hits are counted together: one account on one route, or one address on one route.
  datatype Key = Account(route: string, id: string) | Address(route: string, address: string)

  type Seconds = w: int | 0 < w witness 1

  datatype Bucket = Bucket(key: Key, window: Seconds, index: int)

  // One call of `hit`: which key, under what limit, and the clock it read.
  datatype Attempt = Attempt(key: Key, limit: int, window: Seconds, now: real) {
    function In(): Bucket { Bucket(key, window, WindowOf(now, window)) }
  }

  datatype Store = Memory | Redis

  // Both stores keep a number and a deadline per bucket: in memory the end of the window,
  // in Redis the instant the key expires.
  type Counts = map<Bucket, (nat, real)>

  /** `_window_of` */
  function WindowOf(now: real, window: Seconds): (index: int)
    ensures index as real * window as real <= now < EndsAt(index, window)
  {
    var index := (now / window as real).Floor;
    FloorBounds(now, window as real);
    index
  }

  lemma FloorBounds(now: real, w: real)
    requires 0.0 < w
    ensures (now / w).Floor as real * w <= now < (now / w).Floor as real * w + w
  {
    var q := now / w;
    var f := q.Floor as real;
    var next := f + 1.0;
    assert q * w == now;
    BoundariesGrow(f, q, w);
    BoundariesGrowStrictly(q, next, w);
    assert q * w < next * w;
    assert now < next * w;
    assert next * w == f * w + w;
    assert now < f * w + w;
  }

  lemma BoundariesGrowStrictly(a: real, b: real, w: real)
    requires a < b && 0.0 < w
    ensures a * w < b * w
  {
  }

  lemma BoundariesGrow(a: real, b: real, w: real)
    requires a <= b && 0.0 < w
    ensures a * w <= b * w
  {
  }

  function EndsAt(index: int, window: Seconds): (end: real)
    ensures end == index as real * window as real + window as real
  {
    var next := (index + 1) as real;
    assert next == index as real + 1.0;
    next * window as real
  }

  lemma EndsGrow(i: int, j: int, window: Seconds)
    ensures i <= j ==> EndsAt(i, window) <= EndsAt(j, window)
    ensures i < j ==> EndsAt(i, window) <= j as real * window as real
  {
  }

  function Ceil(x: real): (c: int)
    ensures c as real - 1.0 < x <= c as real
  {
    -((-x).Floor)
  }

  /** `_refusal`: never a wait of nothing. */
  function Refusal(now: real, endsAt: real): Decision {
    var wait := Ceil(endsAt - now);
    Decision(false, if wait < 1 then 1 else wait)
  }

  const ALLOWED := Decision(true, 0)

  function Sweep(counts: Counts, now: real): Counts {
    map b | b in counts && counts[b].1 > now :: counts[b]
  }

  /** What a store's entry for a bucket amounts to at an instant: nothing, once it has run out. */
  function Live(counts: Counts, b: Bucket, now: real): nat {
    if b in counts && counts[b].1 > now then counts[b].0 else 0
  }

  function MemoryHit(counts: Counts, h: Attempt): (Counts, Decision) {
    var swept, b, endsAt := Sweep(counts, h.now), h.In(), EndsAt(h.In().index, h.window);
    var count := if b in swept then swept[b].0 else 0;
    if count >= h.limit then (swept, Refusal(h.now, endsAt))
    else (swept[b := (count + 1, endsAt)], ALLOWED)
  }

  function RedisHit(counts: Counts, h: Attempt): (Counts, Decision) {
    var b, endsAt := h.In(), EndsAt(h.In().index, h.window);
    var count := Live(counts, b, h.now) + 1;
    (counts[b := (count, h.now + 2.0 * h.window as real)],
     if count > h.limit then Refusal(h.now, endsAt) else ALLOWED)
  }

  function StoreHit(store: Store, counts: Counts, h: Attempt): (Counts, Decision) {
    if store.Memory? then MemoryHit(counts, h) else RedisHit(counts, h)
  }

  // ── histories ──────────────────────────────────────────────────────────────

  function Init<T>(s: seq<T>): seq<T>
    requires s != []
  {
    s[..|s| - 1]
  }

  function Last<T>(s: seq<T>): T
    requires s != []
  {
    s[|s| - 1]
  }

  function After(store: Store, hs: seq<Attempt>): Counts {
    if hs == [] then map[] else StoreHit(store, After(store, Init(hs)), Last(hs)).0
  }

  /** What the store answered to the last hit of this history. */
  function Answer(store: Store, hs: seq<Attempt>): Decision
    requires hs != []
  {
    StoreHit(store, After(store, Init(hs)), Last(hs)).1
  }

  predicate Timely(hs: seq<Attempt>) {
    forall i, j :: 0 <= i <= j < |hs| ==> hs[i].now <= hs[j].now
  }

  /** A dictionary that never forgets: hits allowed so far in a bucket, when refusals are not counted. */
  function Spent(hs: seq<Attempt>, b: Bucket): nat {
    if hs == [] then 0
    else
      var before := Spent(Init(hs), b);
      if Last(hs).In() == b && before < Last(hs).limit then before + 1 else before
  }

  /** Every hit so far in a bucket, allowed or not. */
  function Asked(hs: seq<Attempt>, b: Bucket): nat {
    if hs == [] then 0 else Asked(Init(hs), b) + if Last(hs).In() == b then 1 else 0
  }

  function Held(store: Store, hs: seq<Attempt>, b: Bucket): nat {
    if store.Memory? then Spent(hs, b) else Asked(hs, b)
  }

  class Counter {
    const store: Store
    var counts: Counts

    constructor (store: Store)
      ensures this.store == store && counts == After(store, [])
    {
      this.store := store;
      counts := map[];
    }

    /** `hit`, on whichever store this counter was given: allowed exactly while fewer than `limit` count
        in this window; an allowed hit counts one, a refused one counts in Redis only, and what counts
        in any other bucket stands. */
    method Hit(key: Key, limit: int, window: Seconds, now: real) returns (d: Decision)
      modifies this`counts
      ensures var b := Bucket(key, window, WindowOf(now, window));
              && (d.allowed <==> Live(old(counts), b, now) < limit)
              && (!d.allowed ==> d.retryAfter >= 1)
              && Live(counts, b, now) == Live(old(counts), b, now) + (if d.allowed || store.Redis? then 1 else 0)
              && forall c :: c != b ==> Live(counts, c, now) == Live(old(counts), c, now)
      ensures (counts, d) == StoreHit(store, old(counts), Attempt(key, limit, window, now))
    {
      var index := WindowOf(now, window);
      var endsAt := EndsAt(index, window);
      var bucket := Bucket(key, window, index);
      if store.Memory? {
        counts := Sweep(counts, now);
        var count := if bucket in counts then counts[bucket].0 else 0;
        if count >= limit {
          return Refusal(now, endsAt);
        }
        counts := counts[bucket := (count + 1, endsAt)];
        return ALLOWED;
      } else {
        var count := (if bucket in counts && counts[bucket].1 > now then counts[bucket].0 else 0) + 1;
        counts := counts[bucket := (count, now + 2.0 * window as real)];
        return if count > limit then Refusal(now, endsAt) else ALLOWED;
      }
    }
  }

  // ── forgetting loses nothing ───────────────────────────────────────────────

  lemma SameWindowIsLive(h: Attempt, now: real)
    requires h.now <= now && WindowOf(now, h.window) == h.In().index
    ensures now < EndsAt(h.In().index, h.window) <= h.now + 2.0 * h.window as real
  {
  }

  /** At any instant no earlier than the last hit, what a store holds for the bucket of that
      instant is what a store that never swept and never expired a key would hold. */
  lemma {:induction false} ForgettingIsSafe(store: Store, hs: seq<Attempt>, b: Bucket, now: real)
    requires Timely(hs) && (hs != [] ==> Last(hs).now <= now) && WindowOf(now, b.window) == b.index
    ensures var counts := After(store, hs);
            Held(store, hs, b) == if b in counts && counts[b].1 > now then counts[b].0 else 0
    ensures var counts := After(store, hs);
            store.Memory? && b in counts ==> counts[b].1 == EndsAt(b.index, b.window)
  {
    if hs != [] {
      var h := Last(hs);
      var counts := After(store, Init(hs));
      if h.In() == b {
        SameWindowIsLive(h, now);
        ForgettingIsSafe(store, Init(hs), b, h.now);
      } else {
        ForgettingIsSafe(store, Init(hs), b, now);
      }
    }
  }

  /** So each store's verdict depends only on how often this window has been hit before. */
  lemma VerdictIsACount(store: Store, hs: seq<Attempt>)
    requires hs != [] && Timely(hs)
    ensures var h := Last(hs);
            && Answer(store, hs).allowed == (Held(store, Init(hs), h.In()) < h.limit)
            && (!Answer(store, hs).allowed ==> Answer(store, hs) == Refusal(h.now, EndsAt(h.In().index, h.window)))
  {
    var h, before := Last(hs), Init(hs);
    assert before != [] ==> Last(before) == hs[|hs| - 2];
    ForgettingIsSafe(store, before, h.In(), h.now);
  }

  // ── two stores, one rule ───────────────────────────────────────────────────

  lemma {:induction false} SpentIsAtMostAsked(hs: seq<Attempt>, b: Bucket)
    ensures Spent(hs, b) <= Asked(hs, b)
  {
    if hs != [] {
      SpentIsAtMostAsked(Init(hs), b);
    }
  }

  /** Whatever Redis admits, memory admits, however many limits one key is used with; and the
      two part company on a hit exactly when the limit lies above what has been spent in this
      window but not above what has been asked. */
  lemma StoresDifferExactlyWhen(hs: seq<Attempt>)
    requires hs != [] && Timely(hs)
    ensures Answer(Redis, hs).allowed ==> Answer(Memory, hs).allowed
    ensures var h, before := Last(hs), Init(hs);
            Answer(Redis, hs) != Answer(Memory, hs) <==> Spent(before, h.In()) < h.limit <= Asked(before, h.In())
  {
    VerdictIsACount(Memory, hs);
    VerdictIsACount(Redis, hs);
    SpentIsAtMostAsked(Init(hs), Last(hs).In());
    assert Answer(Redis, hs).allowed ==> Answer(Redis, hs) == ALLOWED;
    assert Answer(Memory, hs).allowed ==> Answer(Memory, hs) == ALLOWED;
  }

  predicate OneLimit(hs: seq<Attempt>, b: Bucket, limit: int) {
    forall i :: 0 <= i < |hs| && hs[i].In() == b ==> hs[i].limit == limit
  }

  lemma {:induction false} SpentUnderOneLimit(hs: seq<Attempt>, b: Bucket, limit: int)
    requires OneLimit(hs, b, limit)
    ensures Spent(hs, b) == if Asked(hs, b) <= limit then Asked(hs, b) else if limit >= 0 then limit else 0
  {
    if hs != [] {
      SpentUnderOneLimit(Init(hs), b, limit);
    }
  }

  /** A key always used with one limit gets the same answer, retry time included, from both stores. */
  lemma OneLimitMakesStoresAgree(hs: seq<Attempt>)
    requires hs != [] && Timely(hs) && OneLimit(hs, Last(hs).In(), Last(hs).limit)
    ensures Answer(Redis, hs) == Answer(Memory, hs)
  {
    StoresDifferExactlyWhen(hs);
    SpentUnderOneLimit(Init(hs), Last(hs).In(), Last(hs).limit);
  }

  /** An address used both anonymously (limit 1) and on an account (limit 2) is where they differ:
      the refusal in the middle costs a place in Redis and nothing in memory. */
  lemma MixedLimitsMakeStoresDisagree()
    ensures var k := Address("r", "a");
            var hs := [Attempt(k, 1, 60, 0.0), Attempt(k, 1, 60, 0.0), Attempt(k, 2, 60, 0.0)];
            Timely(hs) && Answer(Memory, hs).allowed && !Answer(Redis, hs).allowed
  {
  }

  // ── ceilings ───────────────────────────────────────────────────────────────

  /** Hits on a bucket that were let through under a limit of at most `top`. */
  function LetThrough(store: Store, hs: seq<Attempt>, b: Bucket, top: int): nat {
    if hs == [] then 0
    else
      LetThrough(store, Init(hs), b, top)
      + if Last(hs).In() == b && Last(hs).limit <= top && Answer(store, hs).allowed then 1 else 0
  }

  /** One aligned window lets through at most `top` of them, whatever else shares the bucket. */
  lemma {:induction false} WindowCeiling(store: Store, hs: seq<Attempt>, b: Bucket, top: nat)
    requires Timely(hs)
    ensures LetThrough(store, hs, b, top) <= top
    ensures LetThrough(store, hs, b, top) <= Held(store, hs, b)
  {
    if hs != [] {
      WindowCeiling(store, Init(hs), b, top);
      VerdictIsACount(store, hs);
    }
  }

  /** The same, counted over any stretch of time instead of an aligned window. */
  function LetThroughBetween(store: Store, hs: seq<Attempt>, key: Key, window: Seconds, top: int,
                             lo: real, hi: real): nat
  {
    if hs == [] then 0
    else
      var h := Last(hs);
      LetThroughBetween(store, Init(hs), key, window, top, lo, hi)
      + if h.key == key && h.window == window && h.limit <= top && lo <= h.now <= hi && Answer(store, hs).allowed
        then 1 else 0
  }

  lemma WindowOfIsUnique(now: real, window: Seconds, index: int)
    requires index as real * window as real <= now < EndsAt(index, window)
    ensures WindowOf(now, window) == index
  {
    var i := WindowOf(now, window);
    EndsGrow(i, index, window);
    EndsGrow(index, i, window);
  }

  lemma AStretchTouchesTwoWindows(lo: real, now: real, window: Seconds)
    requires lo <= now <= lo + window as real
    ensures WindowOf(lo, window) <= WindowOf(now, window) <= WindowOf(lo, window) + 1
  {
    var i := WindowOf(lo, window);
    assert EndsAt(i, window) == (i + 1) as real * window as real;
    WindowOfIsUnique(now, window, if now < EndsAt(i, window) then i else i + 1);
  }

  lemma {:induction false} StretchSplitsOverTwoWindows(
      store: Store, hs: seq<Attempt>, key: Key, window: Seconds, top: nat, lo: real)
    ensures var i := WindowOf(lo, window);
            LetThroughBetween(store, hs, key, window, top, lo, lo + window as real)
              <= LetThrough(store, hs, Bucket(key, window, i), top)
                 + LetThrough(store, hs, Bucket(key, window, i + 1), top)
  {
    if hs != [] {
      StretchSplitsOverTwoWindows(store, Init(hs), key, window, top, lo);
      if lo <= Last(hs).now <= lo + window as real {
        AStretchTouchesTwoWindows(lo, Last(hs).now, window);
      }
    }
  }

  /** Any stretch of one window's length, wherever it starts, lets through at most twice the limit. */
  lemma SlidingCeiling(store: Store, hs: seq<Attempt>, key: Key, window: Seconds, top: nat, lo: real)
    requires Timely(hs)
    ensures LetThroughBetween(store, hs, key, window, top, lo, lo + window as real) <= 2 * top
  {
    var i := WindowOf(lo, window);
    StretchSplitsOverTwoWindows(store, hs, key, window, top, lo);
    WindowCeiling(store, hs, Bucket(key, window, i), top);
    WindowCeiling(store, hs, Bucket(key, window, i + 1), top);
  }

  /** A refused caller who waits as long as they were told comes back in a later window, and
      was never told to wait longer than one window. */
  lemma WaitingLandsInALaterWindow(store: Store, hs: seq<Attempt>)
    requires hs != [] && Timely(hs) && !Answer(store, hs).allowed
    ensures var h, wait := Last(hs), Answer(store, hs).retryAfter;
            && 1 <= wait <= h.window
            && forall later :: later >= h.now + wait as real ==> WindowOf(later, h.window) > h.In().index
  {
    VerdictIsACount(store, hs);
    var h, wait := Last(hs), Answer(store, hs).retryAfter;
    WaitIsShort(h.now, h.window);
    forall later | later >= h.now + wait as real
      ensures WindowOf(later, h.window) > h.In().index
    {
      EndsGrow(WindowOf(later, h.window), h.In().index, h.window);
    }
  }

  lemma WaitIsShort(now: real, window: Seconds)
    ensures 0.0 < EndsAt(WindowOf(now, window), window) - now <= window as real
    ensures Ceil(EndsAt(WindowOf(now, window), window) - now) <= window
  {
  }
}
