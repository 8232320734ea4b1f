/** Refresh tokens: families that start at a sign-in, rotate, and die. A token's index stands for
    its secret. Where an operation reads the clock twice, `again` is the second reading. */
module Sessions {
  import opened Outcomes

  const REFRESH_LIFETIME: int := 30 * 86_400_000_000
  const GRACE: int := 60_000_000
  const DEAD: int := 61_000_000

  datatype Token = Token(user: nat, family: nat, expiresAt: int, revokedAt: Option<int>)

  type Tokens = seq<Token>

  datatype Refusal = InvalidSession

  function NewToken(user: nat, family: nat, at: int): Token { Token(user, family, at + REFRESH_LIFETIME, None) }

  function KilledIf(t: Token, kill: bool, at: int): Token { if kill then t.(revokedAt := Some(at - DEAD)) else t }

  /** `revoke_family` */
  function FamilyRevoked(ts: Tokens, family: nat, at: int): Tokens {
    seq(|ts|, i requires 0 <= i < |ts| => KilledIf(ts[i], ts[i].family == family, at))
  }

  /** `revoke_all` */
  function UserRevoked(ts: Tokens, user: nat, at: int): Tokens {
    seq(|ts|, i requires 0 <= i < |ts| => KilledIf(ts[i], ts[i].user == user, at))
  }

  /** `revoke_refresh` */
  function TokenRevoked(ts: Tokens, id: nat, at: int): Tokens {
    if id < |ts| then ts[id := KilledIf(ts[id], true, at)] else ts
  }

  /** Rotated away longer ago than the grace period. */
  predicate IsReplay(t: Token, now: int) { t.revokedAt.Some? && now - t.revokedAt.value > GRACE }

  /** The session's tokens when `rotate_refresh` returns or raises, and whether it raised. */
  function Rotated(ts: Tokens, id: nat, active: bool, now: int, again: int): (Tokens, Option<Refusal>) {
    if id >= |ts| || ts[id].expiresAt <= now then (ts, Some(InvalidSession))
    else if IsReplay(ts[id], now) then (FamilyRevoked(ts, ts[id].family, again), Some(InvalidSession))
    else if !active then (ts, Some(InvalidSession))
    else
      var revokedAt := if ts[id].revokedAt.Some? then ts[id].revokedAt.value else now;
      (ts[id := ts[id].(revokedAt := Some(revokedAt))] + [NewToken(ts[id].user, ts[id].family, again)], None)
  }

  class Sessions {
    var tokens: Tokens

    constructor ()
      ensures tokens == []
    {
      tokens := [];
    }

    /** The new token can be exchanged at any instant of the next thirty days; where nobody has had
        its family before, it is alone in it, and families still have one user each. */
    method IssueTokens(user: nat, family: nat, now: int)
      modifies this
      ensures |tokens| == |old(tokens)| + 1 && tokens[..|old(tokens)|] == old(tokens)
      ensures forall at, again :: at < now + REFRESH_LIFETIME ==>
                Rotated(tokens, |old(tokens)|, true, at, again).1.None?
      ensures !Used(old(tokens), family) ==>
                && (forall i :: 0 <= i < |tokens| && tokens[i].family == family ==> i == |old(tokens)|)
                && (OneUserPerFamily(old(tokens)) ==> OneUserPerFamily(tokens))
      ensures tokens == old(tokens) + [NewToken(user, family, now)]
    {
      tokens := tokens + [Token(user, family, now + REFRESH_LIFETIME, None)];
    }

    method RevokeFamily(family: nat, at: int)
      modifies this
      ensures tokens == FamilyRevoked(old(tokens), family, at)
    {
      var before := tokens;
      for i := 0 to |before|
        invariant |tokens| == |before|
        invariant forall k :: 0 <= k < i ==> tokens[k] == KilledIf(before[k], before[k].family == family, at)
        invariant forall k :: i <= k < |before| ==> tokens[k] == before[k]
      {
        if tokens[i].family == family {
          tokens := tokens[i := tokens[i].(revokedAt := Some(at - DEAD))];
        }
      }
    }

    method RevokeAll(user: nat, at: int)
      modifies this
      ensures tokens == UserRevoked(old(tokens), user, at)
    {
      var before := tokens;
      for i := 0 to |before|
        invariant |tokens| == |before|
        invariant forall k :: 0 <= k < i ==> tokens[k] == KilledIf(before[k], before[k].user == user, at)
        invariant forall k :: i <= k < |before| ==> tokens[k] == before[k]
      {
        if tokens[i].user == user {
          tokens := tokens[i := tokens[i].(revokedAt := Some(at - DEAD))];
        }
      }
    }

    /** From this instant on the token can never be exchanged, and no other token is touched. */
    method RevokeRefresh(id: nat, at: int)
      modifies this
      ensures forall active, now, again :: at <= now ==> Rotated(tokens, id, active, now, again).1.Some?
      ensures |tokens| == |old(tokens)| && forall i :: 0 <= i < |tokens| && i != id ==> tokens[i] == old(tokens)[i]
      ensures tokens == TokenRevoked(old(tokens), id, at)
    {
      if id < |tokens| {
        tokens := tokens[id := tokens[id].(revokedAt := Some(at - DEAD))];
      }
    }

    /** What the session holds when this returns or raises; whether that is kept is `get_db`'s. */
    method RotateRefresh(id: nat, active: bool, now: int, again: int) returns (refusal: Option<Refusal>)
      modifies this
      ensures (tokens, refusal) == Rotated(old(tokens), id, active, now, again)
    {
      if id >= |tokens| {
        return Some(InvalidSession);
      }
      var row := tokens[id];
      if row.expiresAt <= now {
        return Some(InvalidSession);
      }
      if row.revokedAt.Some? && now - row.revokedAt.value > GRACE {
        RevokeFamily(row.family, again);
        return Some(InvalidSession);
      }
      if !active {
        return Some(InvalidSession);
      }
      if row.revokedAt.None? {
        row := row.(revokedAt := Some(now));
      }
      tokens := tokens[id := row];
      tokens := tokens + [Token(row.user, row.family, again + REFRESH_LIFETIME, None)];
      refusal := None;
    }
  }

  // ── what is committed ─────────────────────────────────────────────────────

  datatype Op =
    | SignIn(user: nat, family: nat, now: int)
    | Refresh(id: nat, active: bool, now: int, again: int)
    | SignOut(id: nat, now: int)
    | SignOutEverywhere(user: nat, now: int)

  function Ends(op: Op): int { if op.Refresh? then op.again else op.now }

  /** A sign-in draws a family nobody has had, and a clock read twice does not go back. */
  predicate Legal(ts: Tokens, op: Op) {
    match op
    case SignIn(_, family, _) => forall i :: 0 <= i < |ts| ==> ts[i].family != family
    case Refresh(_, _, now, again) => now <= again
    case _ => true
  }

  /** One request: a refresh that raises is rolled back, whatever the session then held. */
  function Apply(ts: Tokens, op: Op): Tokens {
    match op
    case SignIn(user, family, now) => ts + [NewToken(user, family, now)]
    case Refresh(id, active, now, again) =>
      var (after, refusal) := Rotated(ts, id, active, now, again);
      if refusal.None? then after else ts
    case SignOut(id, now) => TokenRevoked(ts, id, now)
    case SignOutEverywhere(user, now) => UserRevoked(ts, user, now)
  }

  predicate LegalRun(ts: Tokens, clock: int, ops: seq<Op>)
    decreases |ops|
  {
    ops == [] || (clock <= ops[0].now && Legal(ts, ops[0]) && LegalRun(Apply(ts, ops[0]), Ends(ops[0]), ops[1..]))
  }

  function Run(ts: Tokens, ops: seq<Op>): Tokens
    decreases |ops|
  {
    if ops == [] then ts else Run(Apply(ts, ops[0]), ops[1..])
  }

  // ── families stay dead ────────────────────────────────────────────────────

  predicate IsDead(t: Token, clock: int) { t.revokedAt.Some? && clock - t.revokedAt.value > GRACE }

  predicate FamilyDead(ts: Tokens, family: nat, clock: int) {
    forall i :: 0 <= i < |ts| && ts[i].family == family ==> IsDead(ts[i], clock)
  }

  /** Whether a request put a token in this family. */
  predicate Joins(ts: Tokens, op: Op, family: nat) {
    |Apply(ts, op)| > |ts| && Apply(ts, op)[|ts|].family == family
  }

  function Joiners(ts: Tokens, ops: seq<Op>, family: nat): nat
    decreases |ops|
  {
    if ops == [] then 0 else (if Joins(ts, ops[0], family) then 1 else 0) + Joiners(Apply(ts, ops[0]), ops[1..], family)
  }

  predicate Used(ts: Tokens, family: nat) { exists i :: 0 <= i < |ts| && ts[i].family == family }

  lemma StepKeepsDead(ts: Tokens, clock: int, op: Op, family: nat)
    requires FamilyDead(ts, family, clock) && Used(ts, family) && clock <= op.now && Legal(ts, op)
    ensures FamilyDead(Apply(ts, op), family, Ends(op)) && Used(Apply(ts, op), family)
    ensures !Joins(ts, op, family)
  {
  }

  /** Once every token of a family is dead, no later rotation succeeds on one or adds a member,
      whatever else is signed in, refreshed or signed out. */
  lemma {:induction false} DeadFamiliesStayDead(ts: Tokens, clock: int, ops: seq<Op>, family: nat)
    requires FamilyDead(ts, family, clock) && Used(ts, family) && LegalRun(ts, clock, ops)
    ensures Joiners(ts, ops, family) == 0
    ensures forall now :: now >= (if ops == [] then clock else Ends(ops[|ops| - 1])) ==>
              FamilyDead(Run(ts, ops), family, now)
    decreases |ops|
  {
    if ops != [] {
      StepKeepsDead(ts, clock, ops[0], family);
      DeadFamiliesStayDead(Apply(ts, ops[0]), Ends(ops[0]), ops[1..], family);
    }
  }

  /** Signing out everywhere kills every family that has only this user's tokens. */
  lemma SigningOutEverywhereKills(ts: Tokens, user: nat, now: int, family: nat)
    requires forall i :: 0 <= i < |ts| && ts[i].family == family ==> ts[i].user == user
    ensures FamilyDead(UserRevoked(ts, user, now), family, now)
  {
  }

  predicate OneUserPerFamily(ts: Tokens) {
    forall i, j :: 0 <= i < |ts| && 0 <= j < |ts| && ts[i].family == ts[j].family ==> ts[i].user == ts[j].user
  }

  /** Which every family has. */
  lemma {:induction false} FamiliesHaveOneUser(ts: Tokens, clock: int, ops: seq<Op>)
    requires OneUserPerFamily(ts) && LegalRun(ts, clock, ops)
    ensures OneUserPerFamily(Run(ts, ops))
    decreases |ops|
  {
    if ops != [] {
      FamiliesHaveOneUser(Apply(ts, ops[0]), Ends(ops[0]), ops[1..]);
    }
  }

  // ── the grace period does not renew ───────────────────────────────────────

  predicate Accepts(ts: Tokens, op: Op, id: nat) {
    op.Refresh? && op.id == id && Rotated(ts, id, op.active, op.now, op.again).1.None?
  }

  /** When this token was exchanged. */
  function AcceptedAt(ts: Tokens, ops: seq<Op>, id: nat): seq<int>
    decreases |ops|
  {
    if ops == [] then []
    else
      var rest := AcceptedAt(Apply(ts, ops[0]), ops[1..], id);
      if Accepts(ts, ops[0], id) then [ops[0].now] + rest else rest
  }

  /** Revoked at `first`, or since then killed outright. */
  predicate Ending(t: Token, first: int, clock: int) {
    t.revokedAt.Some? && (t.revokedAt.value == first || clock - t.revokedAt.value > GRACE)
  }

  lemma {:induction false} EndsWithinGrace(ts: Tokens, clock: int, ops: seq<Op>, id: nat, first: int)
    requires id < |ts| && Ending(ts[id], first, clock) && LegalRun(ts, clock, ops)
    ensures forall s :: s in AcceptedAt(ts, ops, id) ==> clock <= s <= first + GRACE
    decreases |ops|
  {
    if ops != [] {
      var next := Apply(ts, ops[0]);
      assert id < |next| && Ending(next[id], first, Ends(ops[0]));
      EndsWithinGrace(next, Ends(ops[0]), ops[1..], id, first);
    }
  }

  lemma {:induction false} ExpiryBinds(ts: Tokens, ops: seq<Op>, id: nat)
    requires id < |ts|
    ensures forall s :: s in AcceptedAt(ts, ops, id) ==> s < ts[id].expiresAt
    decreases |ops|
  {
    if ops != [] {
      var next := Apply(ts, ops[0]);
      assert id < |next| && next[id].expiresAt == ts[id].expiresAt;
      ExpiryBinds(next, ops[1..], id);
    }
  }

  predicate WithinGraceOfTheFirst(at: seq<int>) { forall k :: 0 <= k < |at| ==> at[k] <= at[0] + GRACE }

  /** However often a token is presented, every exchange of it comes within sixty seconds of the
      first, and before it expires. */
  lemma {:induction false} GraceNeverRenews(ts: Tokens, clock: int, ops: seq<Op>, id: nat)
    requires LegalRun(ts, clock, ops) && (id < |ts| ==> ts[id].revokedAt.None?)
    ensures WithinGraceOfTheFirst(AcceptedAt(ts, ops, id))
    ensures id < |ts| ==> forall s :: s in AcceptedAt(ts, ops, id) ==> s < ts[id].expiresAt
    decreases |ops|
  {
    if ops != [] {
      var next := Apply(ts, ops[0]);
      assert id < |ts| ==> next[id].expiresAt == ts[id].expiresAt;
      if id < |next| && next[id].revokedAt.Some? {
        ExpiryBinds(next, ops[1..], id);
        EndsWithinGrace(next, Ends(ops[0]), ops[1..], id, next[id].revokedAt.value);
        var rest := AcceptedAt(next, ops[1..], id);
        assert forall k :: 0 <= k < |rest| ==> rest[k] in rest;
      } else {
        GraceNeverRenews(next, Ends(ops[0]), ops[1..], id);
        assert AcceptedAt(ts, ops, id) == AcceptedAt(next, ops[1..], id);
      }
    }
  }

  /** When this token was given out. */
  function IssuedAt(ts: Tokens, ops: seq<Op>, id: nat): int
    decreases |ops|
  {
    if ops == [] then 0
    else if |ts| <= id < |Apply(ts, ops[0])| then Ends(ops[0])
    else IssuedAt(Apply(ts, ops[0]), ops[1..], id)
  }

  /** Every token expires thirty days after it was given out, whatever is done with it since. */
  lemma {:induction false} TokensLastThirtyDays(ts: Tokens, ops: seq<Op>, id: nat)
    requires |ts| <= id < |Run(ts, ops)|
    ensures Run(ts, ops)[id].expiresAt == IssuedAt(ts, ops, id) + 30 * 86_400_000_000
    decreases |ops|
  {
    var next := Apply(ts, ops[0]);
    if id < |next| {
      assert id == |ts| && next[id].expiresAt == Ends(ops[0]) + 30 * 86_400_000_000;
      RunKeepsExpiry(next, ops[1..], id);
    } else {
      TokensLastThirtyDays(next, ops[1..], id);
    }
  }

  // ── what is accepted ──────────────────────────────────────────────────────

  /** This request signs the token's user out, of this session or of all. */
  predicate SignsOut(ts: Tokens, op: Op, id: nat) {
    id < |ts| && ((op.SignOut? && op.id == id) || (op.SignOutEverywhere? && op.user == ts[id].user))
  }

  predicate SignedOut(ts: Tokens, ops: seq<Op>, id: nat)
    decreases |ops|
  {
    ops != [] && (SignsOut(ts, ops[0], id) || SignedOut(Apply(ts, ops[0]), ops[1..], id))
  }

  function ClockAfter(clock: int, ops: seq<Op>): int { if ops == [] then clock else Ends(ops[|ops| - 1]) }

  predicate Exchanges(ts: Tokens, id: nat, active: bool, now: int, again: int) {
    Rotated(ts, id, active, now, again).1.None?
  }

  lemma {:induction false} DeadIsRefused(
      ts: Tokens, clock: int, ops: seq<Op>, id: nat, active: bool, now: int, again: int)
    requires id < |ts| && IsDead(ts[id], clock) && LegalRun(ts, clock, ops) && ClockAfter(clock, ops) <= now
    ensures !Exchanges(Run(ts, ops), id, active, now, again)
    decreases |ops|
  {
    if ops != [] {
      var next := Apply(ts, ops[0]);
      assert id < |next| && IsDead(next[id], Ends(ops[0]));
      DeadIsRefused(next, Ends(ops[0]), ops[1..], id, active, now, again);
    }
  }

  /** A token first exchanged at `first` and not signed out since. */
  lemma {:induction false} ExchangedAgainExactlyWhen(
      ts: Tokens, clock: int, ops: seq<Op>, id: nat, first: int, active: bool, now: int, again: int)
    requires id < |ts| && ts[id].revokedAt == Some(first) && LegalRun(ts, clock, ops) && ClockAfter(clock, ops) <= now
    ensures Exchanges(Run(ts, ops), id, active, now, again)
       <==> active && now < ts[id].expiresAt && !SignedOut(ts, ops, id) && now <= first + 60_000_000
    decreases |ops|
  {
    if ops != [] {
      var next := Apply(ts, ops[0]);
      assert id < |next| && next[id].expiresAt == ts[id].expiresAt;
      if SignsOut(ts, ops[0], id) {
        DeadIsRefused(next, Ends(ops[0]), ops[1..], id, active, now, again);
      } else {
        ExchangedAgainExactlyWhen(next, Ends(ops[0]), ops[1..], id, first, active, now, again);
      }
    }
  }

  /** Over every run, a token is exchanged exactly for a user who is active, before it expires, unless
      they have signed out since it was issued, and for as long as sixty seconds after the first
      exchange of it, if it has been exchanged at all. */
  lemma {:induction false} ExchangedExactlyWhen(
      ts: Tokens, clock: int, ops: seq<Op>, id: nat, active: bool, now: int, again: int)
    requires LegalRun(ts, clock, ops) && ClockAfter(clock, ops) <= now && (id < |ts| ==> ts[id].revokedAt.None?)
    ensures var after, at := Run(ts, ops), AcceptedAt(ts, ops, id);
            Exchanges(after, id, active, now, again)
            <==> && id < |after| && active && now < after[id].expiresAt && !SignedOut(ts, ops, id)
                 && (at != [] ==> now <= at[0] + 60_000_000)
    decreases |ops|
  {
    if ops != [] {
      var op, next := ops[0], Apply(ts, ops[0]);
      if id < |next| && next[id].revokedAt.Some? {
        RunKeepsExpiry(next, ops[1..], id);
        if SignsOut(ts, op, id) {
          DeadIsRefused(next, Ends(op), ops[1..], id, active, now, again);
        } else {
          ExchangedAgainExactlyWhen(next, Ends(op), ops[1..], id, next[id].revokedAt.value, active, now, again);
        }
      } else {
        ExchangedExactlyWhen(next, Ends(op), ops[1..], id, active, now, again);
        assert AcceptedAt(ts, ops, id) == AcceptedAt(next, ops[1..], id);
      }
    }
  }

  lemma {:induction false} RunKeepsExpiry(ts: Tokens, ops: seq<Op>, id: nat)
    requires id < |ts|
    ensures id < |Run(ts, ops)| && Run(ts, ops)[id].expiresAt == ts[id].expiresAt
    decreases |ops|
  {
    if ops != [] {
      var next := Apply(ts, ops[0]);
      assert id < |next| && next[id].expiresAt == ts[id].expiresAt;
      RunKeepsExpiry(next, ops[1..], id);
    }
  }

  // ── a replay ──────────────────────────────────────────────────────────────

  /** In the session that meets a replayed token the whole family dies; but that session raises,
      its work is rolled back, and every other token of the family answers exactly as before. */
  lemma ReplayKillsOnlyInItsSession(ts: Tokens, id: nat, active: bool, now: int, again: int)
    requires id < |ts| && ts[id].expiresAt > now && IsReplay(ts[id], now)
    ensures var (session, refusal) := Rotated(ts, id, active, now, again);
            && refusal == Some(InvalidSession) && FamilyDead(session, ts[id].family, again)
            && Apply(ts, Refresh(id, active, now, again)) == ts
  {
  }

  /** So a thief who refreshed in time keeps the family: a token replayed by its owner later leaves
      the thief's own token working. */
  lemma TheOtherTokenSurvivesAReplay(ts: Tokens, replayed: nat, kept: nat, now: int, later: int)
    requires replayed < |ts| && kept < |ts| && ts[replayed].family == ts[kept].family && now <= later
    requires ts[replayed].expiresAt > now && IsReplay(ts[replayed], now)
    requires ts[kept].revokedAt.None? && ts[kept].expiresAt > later
    ensures var after := Apply(ts, Refresh(replayed, true, now, now));
            Accepts(after, Refresh(kept, true, later, later), kept)
            && Joins(after, Refresh(kept, true, later, later), ts[replayed].family)
  {
  }

  /** A sign-in, a refresh, the replaced token presented again, and the new one refreshed. */
  function ReplayRun(user: nat, family: nat, at: int, first: int, replay: int, later: int): seq<Op> {
    [SignIn(user, family, at), Refresh(0, true, first, first), Refresh(0, true, replay, replay),
     Refresh(1, true, later, later)]
  }

  lemma RunFrom(ts: Tokens, clock: int, op: Op, rest: seq<Op>)
    requires clock <= op.now && Legal(ts, op) && LegalRun(Apply(ts, op), Ends(op), rest)
    ensures LegalRun(ts, clock, [op] + rest) && Run(ts, [op] + rest) == Run(Apply(ts, op), rest)
  {
    assert ([op] + rest)[1..] == rest;
  }

  /** From nothing: the token stolen and refreshed, its owner's replay refused more than a minute
      later, and the family lives on, its newest token exchangeable for thirty days more. */
  lemma AThiefKeepsTheFamily(user: nat, family: nat, at: int, first: int, replay: int, later: int)
    requires at <= first && first + GRACE < replay <= later
    requires replay < at + REFRESH_LIFETIME && later < first + REFRESH_LIFETIME
    ensures var ops := ReplayRun(user, family, at, first, replay, later);
            && LegalRun([], at, ops)
            && Rotated(Run([], ops[..2]), 0, true, replay, replay).1 == Some(InvalidSession)
            && FamilyDead(Rotated(Run([], ops[..2]), 0, true, replay, replay).0, family, replay)
            && |Run([], ops)| == 3 && Run([], ops)[2] == NewToken(user, family, later)
  {
    var ops := ReplayRun(user, family, at, first, replay, later);
    var signedIn := [NewToken(user, family, at)];
    var refreshed := [signedIn[0].(revokedAt := Some(first)), NewToken(user, family, first)];
    assert [] + signedIn == signedIn;
    assert Apply([], ops[0]) == signedIn && Apply(signedIn, ops[1]) == refreshed;
    ReplayKillsOnlyInItsSession(refreshed, 0, true, replay, replay);
    RunFrom(refreshed, replay, ops[3], []);
    RunFrom(refreshed, first, ops[2], [ops[3]]);
    RunFrom(signedIn, at, ops[1], [ops[2]] + [ops[3]]);
    RunFrom([], at, ops[0], [ops[1]] + ([ops[2]] + [ops[3]]));
    assert [ops[3]] + [] == [ops[3]];
    assert ops == [ops[0]] + ([ops[1]] + ([ops[2]] + [ops[3]]));
    RunFrom(signedIn, at, ops[1], []);
    RunFrom([], at, ops[0], [ops[1]] + []);
    assert ops[..2] == [ops[0]] + ([ops[1]] + []);
  }
}
