/** Asking the machine in a shop to do something: rows it claims over HTTP, once, before they
    expire. A row's index is its id. */
module DeviceCommands {
  import opened Outcomes

  const COMMAND_LIFETIME: int := 10 * 60_000_000

  datatype Kind = RestartAgent | RestartPrinting | UpdateAgent

  datatype State = Queued | Sent | Succeeded | Failed | Expired

  datatype Command = Command(
    kiosk: nat, kind: Kind, state: State, expiresAt: int, sentAt: Option<int>, finishedAt: Option<int>)

  datatype Refusal = NoDevice | NoSuchCommand | AlreadyFinished

  type Rows = seq<Command>

  predicate Open(c: Command) { c.state == Queued || c.state == Sent }

  predicate Waiting(c: Command, kiosk: nat, kind: Kind, now: int) {
    c.kiosk == kiosk && c.kind == kind && Open(c) && c.expiresAt > now
  }

  /** The newest command of this kind still waiting at this kiosk. */
  function FindWaiting(rows: Rows, kiosk: nat, kind: Kind, now: int): (k: Option<nat>)
    ensures k.Some? ==> k.value < |rows| && Waiting(rows[k.value], kiosk, kind, now)
    ensures k.Some? ==> forall i :: k.value < i < |rows| ==> !Waiting(rows[i], kiosk, kind, now)
    ensures k.None? ==> forall i :: 0 <= i < |rows| ==> !Waiting(rows[i], kiosk, kind, now)
  {
    if rows == [] then None
    else if Waiting(rows[|rows| - 1], kiosk, kind, now) then Some(|rows| - 1)
    else FindWaiting(rows[..|rows| - 1], kiosk, kind, now)
  }

  /** `request_command`: the rows, and the id of the command answered with. */
  function Requested(rows: Rows, kiosk: nat, enrolled: bool, kind: Kind, now: int): Result<(Rows, nat), Refusal> {
    if !enrolled then Refused(NoDevice)
    else
      var waiting := FindWaiting(rows, kiosk, kind, now);
      if waiting.Some? then Ok((rows, waiting.value))
      else Ok((rows + [Command(kiosk, kind, Queued, now + COMMAND_LIFETIME, None, None)], |rows|))
  }

  predicate Claimable(c: Command, kiosk: nat) { c.kiosk == kiosk && c.state == Queued }

  predicate HandedOut(c: Command, kiosk: nat, now: int) { Claimable(c, kiosk) && now < c.expiresAt }

  function AfterClaim(c: Command, kiosk: nat, now: int): Command {
    if !Claimable(c, kiosk) then c
    else if c.expiresAt <= now then c.(state := Expired, finishedAt := Some(now))
    else c.(state := Sent, sentAt := Some(now))
  }

  /** `claim_commands`: the rows afterwards. */
  function Claimed(rows: Rows, kiosk: nat, now: int): Rows {
    seq(|rows|, i requires 0 <= i < |rows| => AfterClaim(rows[i], kiosk, now))
  }

  /** `report_command`, from the machine at `kiosk`. */
  function Reported(rows: Rows, kiosk: nat, id: nat, succeeded: bool, now: int): Result<Rows, Refusal> {
    if id >= |rows| || rows[id].kiosk != kiosk then Refused(NoSuchCommand)
    else if !Open(rows[id]) then Refused(AlreadyFinished)
    else Ok(rows[id := rows[id].(state := if succeeded then Succeeded else Failed, finishedAt := Some(now))])
  }

  class Commands {
    var rows: Rows

    constructor ()
      ensures rows == []
    {
      rows := [];
    }

    /** Answers with a command of this kind that is waiting and than which none is newer; makes one only
        where none was waiting, touches no other row, and keeps commands of a kind in turn. */
    method RequestCommand(kiosk: nat, enrolled: bool, kind: Kind, now: int) returns (r: Result<nat, Refusal>)
      modifies this
      ensures r.Refused? <==> !enrolled
      ensures r.Ok? ==>
                && r.value < |rows| && Waiting(rows[r.value], kiosk, kind, now)
                && forall i :: r.value < i < |rows| ==> !Waiting(rows[i], kiosk, kind, now)
      ensures |old(rows)| <= |rows| <= |old(rows)| + 1 && rows[..|old(rows)|] == old(rows)
      ensures |rows| > |old(rows)| <==>
                enrolled && forall i :: 0 <= i < |old(rows)| ==> !Waiting(old(rows)[i], kiosk, kind, now)
      ensures AllInTurn(old(rows)) ==> AllInTurn(rows)
      ensures match Requested(old(rows), kiosk, enrolled, kind, now)
              case Ok(answer) => rows == answer.0 && r == Ok(answer.1)
              case Refused(why) => rows == old(rows) && r == Refused(why)
    {
      if !enrolled {
        return Refused(NoDevice);
      }
      var waiting := FindWaiting(rows, kiosk, kind, now);
      if waiting.Some? {
        return Ok(waiting.value);
      }
      r := Ok(|rows|);
      rows := rows + [Command(kiosk, kind, Queued, now + COMMAND_LIFETIME, None, None)];
      if AllInTurn(old(rows)) {
        StepKeepsTurns(old(rows), Request(kiosk, enrolled, kind, now));
      }
    }

    method ClaimCommands(kiosk: nat, now: int) returns (claimed: seq<nat>)
      modifies this
      ensures rows == Claimed(old(rows), kiosk, now)
      ensures forall i :: i in claimed <==> 0 <= i < |old(rows)| && HandedOut(old(rows)[i], kiosk, now)
      ensures forall i, j :: 0 <= i < j < |claimed| ==> claimed[i] < claimed[j]
    {
      claimed := [];
      var before := rows;
      for i := 0 to |before|
        invariant |rows| == |before|
        invariant forall k :: 0 <= k < i ==> rows[k] == AfterClaim(before[k], kiosk, now)
        invariant forall k :: i <= k < |before| ==> rows[k] == before[k]
        invariant forall k :: k in claimed <==> 0 <= k < i && HandedOut(before[k], kiosk, now)
        invariant forall a, b :: 0 <= a < b < |claimed| ==> claimed[a] < claimed[b]
      {
        var command := rows[i];
        if command.kiosk == kiosk && command.state == Queued {
          if command.expiresAt <= now {
            rows := rows[i := command.(state := Expired, finishedAt := Some(now))];
          } else {
            rows := rows[i := command.(state := Sent, sentAt := Some(now))];
            assert forall a :: 0 <= a < |claimed| ==> claimed[a] in claimed;
            claimed := claimed + [i];
          }
        }
      }
    }

    /** Finishes exactly an open command of the machine's own kiosk, and touches no other. */
    method ReportCommand(kiosk: nat, id: nat, succeeded: bool, now: int) returns (refusal: Option<Refusal>)
      modifies this
      ensures refusal.None? <==> id < |old(rows)| && old(rows)[id].kiosk == kiosk && Open(old(rows)[id])
      ensures |rows| == |old(rows)| && forall i :: 0 <= i < |rows| && i != id ==> rows[i] == old(rows)[i]
      ensures id < |rows| ==> Stepped(old(rows)[id], rows[id])
      ensures refusal.None? ==> !Open(rows[id]) && (rows[id].state == Succeeded <==> succeeded)
      ensures AllInTurn(old(rows)) ==> AllInTurn(rows)
      ensures match Reported(old(rows), kiosk, id, succeeded, now)
              case Ok(after) => rows == after && refusal == None
              case Refused(why) => rows == old(rows) && refusal == Some(why)
    {
      if id >= |rows| || rows[id].kiosk != kiosk {
        return Some(NoSuchCommand);
      }
      var command := rows[id];
      if command.state != Queued && command.state != Sent {
        return Some(AlreadyFinished);
      }
      command := command.(state := if succeeded then Succeeded else Failed);
      rows := rows[id := command.(finishedAt := Some(now))];
      if AllInTurn(old(rows)) {
        StepKeepsTurns(old(rows), Report(kiosk, id, succeeded, now));
      }
      refusal := None;
    }
  }

  /** A machine's claim hands it exactly its own kiosk's queued commands that have not run out, marks as
      expired exactly those that have, and touches nothing else. */
  lemma WhatAClaimDoes(rows: Rows, kiosk: nat, now: int, i: nat)
    requires i < |rows|
    ensures var c, after := rows[i], Claimed(rows, kiosk, now)[i];
            && (HandedOut(c, kiosk, now) <==> c.kiosk == kiosk && c.state == Queued && now < c.expiresAt)
            && (HandedOut(c, kiosk, now) ==> after == c.(state := Sent, sentAt := Some(now)))
            && (c.kiosk == kiosk && c.state == Queued && c.expiresAt <= now ==>
                  after == c.(state := Expired, finishedAt := Some(now)))
            && (c.kiosk != kiosk || c.state != Queued ==> after == c)
  {
  }

  // ── any interleaving ──────────────────────────────────────────────────────

  datatype Op =
    | Request(kiosk: nat, enrolled: bool, kind: Kind, now: int)
    | Claim(kiosk: nat, now: int)
    | Report(kiosk: nat, id: nat, succeeded: bool, now: int)

  function Apply(rows: Rows, op: Op): Rows {
    match op
    case Request(kiosk, enrolled, kind, now) =>
      var r := Requested(rows, kiosk, enrolled, kind, now);
      if r.Ok? then r.value.0 else rows
    case Claim(kiosk, now) => Claimed(rows, kiosk, now)
    case Report(kiosk, id, succeeded, now) =>
      var r := Reported(rows, kiosk, id, succeeded, now);
      if r.Ok? then r.value else rows
  }

  function Run(rows: Rows, ops: seq<Op>): Rows
    decreases |ops|
  {
    if ops == [] then rows else Run(Apply(rows, ops[0]), ops[1..])
  }

  /** The instants at which this command was handed to its machine. */
  function Handings(rows: Rows, ops: seq<Op>, id: nat): seq<int>
    decreases |ops|
  {
    if ops == [] then []
    else
      var rest := Handings(Apply(rows, ops[0]), ops[1..], id);
      if ops[0].Claim? && id < |rows| && HandedOut(rows[id], ops[0].kiosk, ops[0].now) then [ops[0].now] + rest
      else rest
  }

  /** One step in the life of a command: what it asks for and its deadline stand, a finished one
      never changes, and no step leads back to QUEUED. */
  predicate Stepped(a: Command, b: Command) {
    && a.kiosk == b.kiosk && a.kind == b.kind && a.expiresAt == b.expiresAt
    && (!Open(a) ==> b == a)
    && (b.state == Queued ==> b == a)
  }

  lemma EveryCommandSteps(rows: Rows, op: Op)
    ensures |rows| <= |Apply(rows, op)|
    ensures forall i :: 0 <= i < |rows| ==> Stepped(rows[i], Apply(rows, op)[i])
  {
  }

  /** Finished states are final over every run. */
  lemma {:induction false} FinishedIsFinal(rows: Rows, ops: seq<Op>, id: nat)
    requires id < |rows|
    ensures id < |Run(rows, ops)| && Stepped(rows[id], Run(rows, ops)[id])
    decreases |ops|
  {
    if ops != [] {
      EveryCommandSteps(rows, ops[0]);
      FinishedIsFinal(Apply(rows, ops[0]), ops[1..], id);
      assert Stepped(rows[id], Apply(rows, ops[0])[id]);
    }
  }

  /** In any interleaving a command is handed out at most once, and never at or after its expiry;
      one no longer queued is never handed out again. */
  lemma {:induction false} HandedOutAtMostOnce(rows: Rows, ops: seq<Op>, id: nat)
    ensures |Handings(rows, ops, id)| <= 1
    ensures id < |rows| && rows[id].state != Queued ==> Handings(rows, ops, id) == []
    ensures forall t :: t in Handings(rows, ops, id) ==>
              id < |Run(rows, ops)| && t < Run(rows, ops)[id].expiresAt
    decreases |ops|
  {
    if ops != [] {
      var next := Apply(rows, ops[0]);
      EveryCommandSteps(rows, ops[0]);
      HandedOutAtMostOnce(next, ops[1..], id);
      if id < |rows| {
        assert Stepped(rows[id], next[id]);
        FinishedIsFinal(next, ops[1..], id);
      }
    }
  }

  /** Of two open commands of a kind at a kiosk, the older had run out before the newer was made. */
  predicate InTurn(a: Command, b: Command) {
    a.kiosk == b.kiosk && a.kind == b.kind && Open(a) && Open(b) ==> a.expiresAt <= b.expiresAt - COMMAND_LIFETIME
  }

  predicate AllInTurn(rows: Rows) {
    forall i, j :: 0 <= i < j < |rows| ==> InTurn(rows[i], rows[j])
  }

  predicate MadeBy(rows: Rows, now: int) {
    forall i :: 0 <= i < |rows| ==> rows[i].expiresAt <= now + COMMAND_LIFETIME
  }

  lemma StepKeepsTurns(rows: Rows, op: Op)
    requires AllInTurn(rows)
    ensures AllInTurn(Apply(rows, op))
  {
  }

  predicate NonDecreasing(from: int, ops: seq<Op>)
    decreases |ops|
  {
    ops == [] || (from <= ops[0].now && NonDecreasing(ops[0].now, ops[1..]))
  }

  function Last(from: int, ops: seq<Op>): int { if ops == [] then from else ops[|ops| - 1].now }

  /** With a clock that never goes back, at most one open unexpired command of a kind exists at a
      kiosk, at the end of any run and ever after until the next request. */
  lemma {:induction false} OneOpenCommandOfAKind(rows: Rows, from: int, ops: seq<Op>)
    requires AllInTurn(rows) && MadeBy(rows, from) && NonDecreasing(from, ops)
    ensures var after, now := Run(rows, ops), Last(from, ops);
            && AllInTurn(after) && MadeBy(after, now)
            && forall i, j, at, kiosk, kind | 0 <= i < j < |after| && now <= at ::
                 !(Waiting(after[i], kiosk, kind, at) && Waiting(after[j], kiosk, kind, at))
    decreases |ops|
  {
    if ops == [] {
      forall i, j | 0 <= i < j < |rows| ensures InTurn(rows[i], rows[j]) {}
    } else {
      var next := Apply(rows, ops[0]);
      StepKeepsTurns(rows, ops[0]);
      EveryCommandSteps(rows, ops[0]);
      assert MadeBy(next, ops[0].now) by {
        forall i | 0 <= i < |next| ensures next[i].expiresAt <= ops[0].now + COMMAND_LIFETIME {
          assert i < |rows| ==> Stepped(rows[i], next[i]);
        }
      }
      OneOpenCommandOfAKind(next, ops[0].now, ops[1..]);
    }
  }
}
