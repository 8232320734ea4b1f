/** The stages of a kiosk's life, and everything that moves it between them: a person, its
    owner's billing, a change of type, and the machine saying its printer is stuck. */
module KioskStages {
  import opened Outcomes

  datatype Stage = Registered | Approved | Configured | Live | Maintenance | SuspendedBilling | Retired

  datatype KioskType = Platform | Sold | Saas

  datatype Refusal = NoSuchMove(from: Stage, to: Stage) | NotConnected | WalletIsThePlatforms

  /** `TRANSITIONS` */
  function Transitions(from: Stage): set<Stage> {
    match from
    case Registered => {Approved, Retired}
    case Approved => {Configured, Registered, Retired}
    case Configured => {Live, Approved, Retired}
    case Live => {Maintenance, SuspendedBilling, Retired}
    case Maintenance => {Live, SuspendedBilling, Retired}
    case SuspendedBilling => {Live, Maintenance, Retired}
    case Retired => {}
  }

  predicate SettingUp(from: Stage, to: Stage) {
    || (from == Registered && to == Approved)
    || (from == Approved && to == Configured)
  }

  predicate Opened(stage: Stage) { stage == Live || stage == Maintenance || stage == SuspendedBilling }

  /** Setting up goes a stage at a time, forth and back; a shop opens from CONFIGURED and is set up no
      more; once open, its stages change into one another; and it retires from anywhere, for good. */
  lemma TheTable(from: Stage, to: Stage)
    ensures to in Transitions(from)
       <==> && from != Retired && from != to
            && (|| to == Retired
                || SettingUp(from, to) || SettingUp(to, from)
                || (from == Configured && to == Live)
                || (Opened(from) && Opened(to)))
  {
  }

  predicate OwnerCollects(kind: KioskType) { kind == Sold || kind == Saas }

  // `stuckSince` is the device row's: when the machine closed this shop, if it holds that claim.
  datatype Kiosk = Kiosk(stage: Stage, kind: KioskType, acceptsWallet: bool, stuckSince: Option<int>)

  function New(kind: KioskType, acceptsWallet: bool): Kiosk { Kiosk(Registered, kind, acceptsWallet, None) }

  // ── what moves it ─────────────────────────────────────────────────────────

  /** `move_to`; `canCollect` is the billing check's answer at that moment. */
  function MovedTo(k: Kiosk, target: Stage, canCollect: bool): Result<Kiosk, Refusal> {
    if k.stage == target then Ok(k)
    else if target !in Transitions(k.stage) then Refused(NoSuchMove(k.stage, target))
    else if target == Live && OwnerCollects(k.kind) && !canCollect then Refused(NotConnected)
    else Ok(k.(stage := target))
  }

  /** `reconcile_billing_state` */
  function Reconciled(k: Kiosk, canCollect: bool): Kiosk {
    if !OwnerCollects(k.kind) then k
    else if !canCollect && (k.stage == Live || k.stage == Maintenance) then k.(stage := SuspendedBilling)
    else if canCollect && k.stage == SuspendedBilling then k.(stage := Live)
    else k
  }

  /** `change_type` */
  function Retyped(k: Kiosk, kind: KioskType): Kiosk {
    if k.kind == kind then k
    else if OwnerCollects(kind) && (k.stage == Live || k.stage == Maintenance || k.stage == Configured)
      then k.(kind := kind, stage := Approved)
    else k.(kind := kind)
  }

  /** `set_accepts_wallet` */
  function WalletSet(k: Kiosk, accepts: bool): Result<Kiosk, Refusal> {
    if accepts && OwnerCollects(k.kind) then Refused(WalletIsThePlatforms) else Ok(k.(acceptsWallet := accepts))
  }

  /** `report_stuck`: the kiosk afterwards, and whether this call closed the shop. */
  function Stuck(k: Kiosk, now: int, canCollect: bool): Result<(Kiosk, bool), Refusal> {
    if k.stuckSince.Some? || k.stage != Live then Ok((k, false))
    else
      var moved := MovedTo(k.(stuckSince := Some(now)), Maintenance, canCollect);
      if moved.Ok? then Ok((moved.value, true)) else Refused(moved.error)
  }

  /** `report_recovered`: the kiosk afterwards, and whether this call reopened the shop. */
  function Recovered(k: Kiosk, canCollect: bool): Result<(Kiosk, bool), Refusal> {
    if k.stuckSince.None? then Ok((k, false))
    else
      var released := k.(stuckSince := None);
      if released.stage != Maintenance then Ok((released, false))
      else
        var moved := MovedTo(released, Live, canCollect);
        if moved.Ok? then Ok((moved.value, true)) else Refused(moved.error)
  }

  class Shop {
    var stage: Stage
    var kind: KioskType
    var acceptsWallet: bool
    var stuckSince: Option<int>

    function Row(): Kiosk
      reads this
    {
      Kiosk(stage, kind, acceptsWallet, stuckSince)
    }

    predicate Answered(before: Kiosk, r: Result<Kiosk, Refusal>, refusal: Option<Refusal>)
      reads this
    {
      match r
      case Ok(after) => refusal == None && Row() == after
      case Refused(why) => refusal == Some(why) && Row() == before
    }

    constructor (kind: KioskType, acceptsWallet: bool)
      ensures Row() == New(kind, acceptsWallet)
    {
      stage, stuckSince := Registered, None;
      this.kind, this.acceptsWallet := kind, acceptsWallet;
    }

    /** Refused exactly off the transition table, or at LIVE for an owner who cannot collect; a
        refusal leaves the stage alone, and success is being where one asked to be. */
    method MoveTo(target: Stage, canCollect: bool) returns (refusal: Option<Refusal>)
      modifies `stage
      ensures refusal.None? <==>
                || old(stage) == target
                || (target in Transitions(old(stage)) && (target == Live && OwnerCollects(kind) ==> canCollect))
      ensures stage == if refusal.None? then target else old(stage)
      ensures old(stage) == Retired ==> stage == Retired
      ensures stage == Live && old(stage) != Live && OwnerCollects(kind) ==> canCollect
      ensures Answered(old(Row()), MovedTo(old(Row()), target, canCollect), refusal)
    {
      if stage == target {
        return None;
      }
      if target !in Transitions(stage) {
        return Some(NoSuchMove(stage, target));
      }
      if target == Live && OwnerCollects(kind) && !canCollect {
        return Some(NotConnected);
      }
      stage := target;
      refusal := None;
    }

    /** Afterwards an owner-collecting kiosk is LIVE only if its owner can collect and suspended only
        if not; no stage but these and MAINTENANCE is touched, and a platform kiosk never is. */
    method ReconcileBillingState(canCollect: bool)
      modifies `stage
      ensures OwnerCollects(kind) ==>
                && (stage == Live || stage == Maintenance ==> canCollect)
                && (stage == SuspendedBilling ==> !canCollect)
      ensures stage != old(stage) ==>
                && OwnerCollects(kind) && stage == (if canCollect then Live else SuspendedBilling)
                && old(stage) in {Live, Maintenance, SuspendedBilling}
      ensures Row() == Reconciled(old(Row()), canCollect)
    {
      if !OwnerCollects(kind) {
        return;
      }
      if !canCollect && (stage == Live || stage == Maintenance) {
        stage := SuspendedBilling;
      } else if canCollect && stage == SuspendedBilling {
        stage := Live;
      }
    }

    /** A kiosk that has just become owner-collecting is not selling and must be configured again; the
        stage moves for no other change of type, and the wallet flag for none. */
    method ChangeType(newKind: KioskType)
      modifies `stage, `kind
      ensures kind == newKind
      ensures OwnerCollects(newKind) && newKind != old(kind) ==> stage !in {Live, Maintenance, Configured}
      ensures stage != old(stage) ==> stage == Approved && OwnerCollects(newKind) && newKind != old(kind)
      ensures Row() == Retyped(old(Row()), newKind)
    {
      if kind == newKind {
        return;
      }
      var wasSelling := stage == Live || stage == Maintenance || stage == Configured;
      kind := newKind;
      if OwnerCollects(newKind) && wasSelling {
        stage := Approved;
      }
    }

    /** The flag can be turned off anywhere, and on only where the platform collects. */
    method SetAcceptsWallet(accepts: bool) returns (refusal: Option<Refusal>)
      modifies `acceptsWallet
      ensures refusal.Some? <==> accepts && OwnerCollects(kind)
      ensures acceptsWallet == if refusal.None? then accepts else old(acceptsWallet)
      ensures acceptsWallet && !old(acceptsWallet) ==> kind == Platform
      ensures Answered(old(Row()), WalletSet(old(Row()), accepts), refusal)
    {
      if accepts && OwnerCollects(kind) {
        return Some(WalletIsThePlatforms);
      }
      acceptsWallet := accepts;
      refusal := None;
    }

    /** Closes exactly a LIVE shop under no claim, and takes the claim exactly then. */
    method ReportStuck(now: int, canCollect: bool) returns (closed: bool)
      modifies `stage, `stuckSince
      ensures closed <==> old(stage) == Live && old(stuckSince).None?
      ensures closed ==> stage == Maintenance && stuckSince == Some(now)
      ensures !closed ==> Row() == old(Row())
      ensures Stuck(old(Row()), now, canCollect) == Ok((Row(), closed))
    {
      if stuckSince.Some? {
        return false;
      }
      if stage != Live {
        return false;
      }
      stuckSince := Some(now);
      var refusal := MoveTo(Maintenance, canCollect);
      closed := true;
    }

    /** Lets the claim go, and reopens a shop in MAINTENANCE; refused, it does neither. */
    method ReportRecovered(canCollect: bool) returns (r: Result<bool, Refusal>)
      modifies `stage, `stuckSince
      ensures r.Refused? <==>
                old(stuckSince).Some? && old(stage) == Maintenance && OwnerCollects(kind) && !canCollect
      ensures r.Refused? ==> Row() == old(Row())
      ensures r.Ok? ==> stuckSince.None?
      ensures r.Ok? ==> (r.value <==> old(stuckSince).Some? && old(stage) == Maintenance)
      ensures r.Ok? ==> stage == if r.value then Live else old(stage)
      ensures match Recovered(old(Row()), canCollect)
              case Ok(after) => r == Ok(after.1) && Row() == after.0
              case Refused(why) => r == Refused(why) && Row() == old(Row())
    {
      if stuckSince.None? {
        return Ok(false);
      }
      var claim := stuckSince;
      stuckSince := None;
      if stage != Maintenance {
        return Ok(false);
      }
      var refusal := MoveTo(Live, canCollect);
      if refusal.Some? {
        // The request fails, and the release of the claim is rolled back with it.
        stuckSince := claim;
        return Refused(refusal.value);
      }
      r := Ok(true);
    }
  }

  // ── whole runs ────────────────────────────────────────────────────────────

  datatype Op =
    | Move(target: Stage, canCollect: bool)
    | Reconcile(canCollect: bool)
    | Retype(kind: KioskType)
    | SetWallet(accepts: bool)
    | SayStuck(now: int, canCollect: bool)
    | SayRecovered(canCollect: bool)

  function Kept<T>(r: Result<T, Refusal>, else_: T): T { if r.Ok? then r.value else else_ }

  function Apply(k: Kiosk, op: Op): Kiosk {
    match op
    case Move(target, canCollect) => Kept(MovedTo(k, target, canCollect), k)
    case Reconcile(canCollect) => Reconciled(k, canCollect)
    case Retype(kind) => Retyped(k, kind)
    case SetWallet(accepts) => Kept(WalletSet(k, accepts), k)
    case SayStuck(now, canCollect) => Kept(Stuck(k, now, canCollect), (k, false)).0
    case SayRecovered(canCollect) => Kept(Recovered(k, canCollect), (k, false)).0
  }

  function Run(k: Kiosk, ops: seq<Op>): Kiosk {
    if ops == [] then k else Apply(Run(k, ops[..|ops| - 1]), ops[|ops| - 1])
  }

  /** The billing check's answer as this operation saw it. A change of type asks nobody. */
  function Asked(op: Op): bool {
    match op
    case Move(_, canCollect) => canCollect
    case Reconcile(canCollect) => canCollect
    case Retype(_) => false
    case SetWallet(_) => false
    case SayStuck(_, canCollect) => canCollect
    case SayRecovered(canCollect) => canCollect
  }

  // Under which type a kiosk last became LIVE, and whether its owner could then collect.
  datatype Entry = Entry(kind: KioskType, collected: bool)

  function LatestEntry(k: Kiosk, ops: seq<Op>): Option<Entry> {
    if ops == [] then None
    else
      var init, op := ops[..|ops| - 1], ops[|ops| - 1];
      var before := Run(k, init);
      var after := Apply(before, op);
      if before.stage != Live && after.stage == Live then Some(Entry(after.kind, Asked(op))) else LatestEntry(k, init)
  }

  /** However a kiosk's stage was moved, one that is LIVE and whose owner collects passed the
      billing check when it last became LIVE, under the type it has now. */
  lemma {:induction false} LiveOwnersWereChecked(k: Kiosk, ops: seq<Op>)
    requires k.stage != Live
    ensures var now := Run(k, ops);
            now.stage == Live ==>
              && LatestEntry(k, ops).Some?
              && (OwnerCollects(now.kind) ==> LatestEntry(k, ops) == Some(Entry(now.kind, true)))
  {
    if ops != [] {
      LiveOwnersWereChecked(k, ops[..|ops| - 1]);
    }
  }

  predicate Unconfigured(stage: Stage) { stage == Registered || stage == Approved || stage == Retired }

  /** Every path from REGISTERED or APPROVED to LIVE crosses CONFIGURED. */
  lemma {:induction false} NobodySkipsConfigured(k: Kiosk, ops: seq<Op>)
    requires k.stage == Registered || k.stage == Approved
    ensures Run(k, ops).stage == Live ==> exists i :: 0 <= i <= |ops| && Run(k, ops[..i]).stage == Configured
    ensures Unconfigured(Run(k, ops).stage) || exists i :: 0 <= i <= |ops| && Run(k, ops[..i]).stage == Configured
  {
    if ops != [] {
      var init := ops[..|ops| - 1];
      NobodySkipsConfigured(k, init);
      if i :| 0 <= i <= |init| && Run(k, init[..i]).stage == Configured {
        assert ops[..i] == init[..i];
      } else {
        assert ops[..|ops|] == ops;
      }
    }
  }

  lemma {:induction false} RetiredIsFinal(k: Kiosk, ops: seq<Op>)
    requires k.stage == Retired
    ensures Run(k, ops).stage == Retired
  {
    if ops != [] {
      RetiredIsFinal(k, ops[..|ops| - 1]);
    }
  }

  // ── the machine's claim on a closed shop ──────────────────────────────────

  // What a report from the machine did: closed the shop, reopened it, or only let its claim go.
  datatype Mark = Closed | Reopened | LetGo

  function Marks(k: Kiosk, op: Op): seq<Mark> {
    match op
    case SayStuck(now, canCollect) =>
      if Kept(Stuck(k, now, canCollect), (k, false)).1 then [Closed] else []
    case SayRecovered(canCollect) =>
      if Kept(Recovered(k, canCollect), (k, false)).1 then [Reopened]
      else if k.stuckSince.Some? && Apply(k, op).stuckSince.None? then [LetGo] else []
    case _ => []
  }

  function Log(k: Kiosk, ops: seq<Op>): seq<Mark> {
    if ops == [] then [] else Log(k, ops[..|ops| - 1]) + Marks(Run(k, ops[..|ops| - 1]), ops[|ops| - 1])
  }

  /** One report leaves at most one mark, and a mark is what takes the claim up or puts it down. */
  lemma MarksFollowTheClaim(k: Kiosk, op: Op)
    ensures var marks, after := Marks(k, op), Apply(k, op);
            && (marks == [] ==> (k.stuckSince.Some? <==> after.stuckSince.Some?))
            && (marks != [] ==>
                  && |marks| == 1 && (marks[0] == Closed <==> k.stuckSince.None?)
                  && (k.stuckSince.Some? <==> after.stuckSince.None?))
  {
  }

  /** Closures and recoveries alternate, a closure first: each reopening answers the closure just
      before it in the log, and the claim is held exactly while the last closure is unanswered. */
  lemma {:induction false} ClosuresAndRecoveriesAlternate(k: Kiosk, ops: seq<Op>)
    requires k.stuckSince == None
    ensures var log := Log(k, ops);
            && (forall i :: 0 <= i < |log| ==> (log[i] == Closed <==> i % 2 == 0))
            && (Run(k, ops).stuckSince.Some? <==> |log| % 2 == 1)
  {
    if ops != [] {
      var init := ops[..|ops| - 1];
      ClosuresAndRecoveriesAlternate(k, init);
      MarksFollowTheClaim(Run(k, init), ops[|ops| - 1]);
    }
  }

  /** A recovery is refused exactly when the shop it would reopen belongs to an owner who cannot
      collect, and then the machine still holds its claim. */
  lemma RefusedReopeningKeepsTheClaim(k: Kiosk, canCollect: bool)
    ensures Recovered(k, canCollect).Refused?
       <==> k.stuckSince.Some? && k.stage == Maintenance && OwnerCollects(k.kind) && !canCollect
    ensures Recovered(k, canCollect).Refused? ==> Apply(k, SayRecovered(canCollect)) == k
  {
  }

  predicate Shuts(k: Kiosk, op: Op) { k.stage != Maintenance && Apply(k, op).stage == Maintenance }

  /** The operation that last put this shop into MAINTENANCE. */
  function LastClosing(k: Kiosk, ops: seq<Op>): Option<Op> {
    if ops == [] then None
    else
      var init, op := ops[..|ops| - 1], ops[|ops| - 1];
      if Shuts(Run(k, init), op) then Some(op) else LastClosing(k, init)
  }

  /** A person puts a shop into MAINTENANCE while the machine still holds its claim on it: what a
      guard on the claim at `move_to` would see coming. */
  predicate ShutsUnderClaim(k: Kiosk, op: Op) {
    && op.Move? && op.target == Maintenance
    && k.stuckSince.Some? && k.stage != Maintenance && Maintenance in Transitions(k.stage)
  }

  predicate ClaimHeldSince(k: Kiosk, ops: seq<Op>, i: nat) {
    forall j :: i <= j <= |ops| ==> Run(k, ops[..j]).stuckSince.Some?
  }

  predicate ShutByHandAt(k: Kiosk, ops: seq<Op>, i: nat) {
    i < |ops| && ClaimHeldSince(k, ops, i) && ShutsUnderClaim(Run(k, ops[..i]), ops[i])
  }

  /** During the claim now held, a person has shut the shop. */
  predicate ShutByHand(k: Kiosk, ops: seq<Op>) {
    exists i :: 0 <= i < |ops| && ShutByHandAt(k, ops, i)
  }

  /** Only a person or the machine's own report shuts a shop, and a report under a claim does not. */
  lemma WhatShuts(k: Kiosk, op: Op)
    ensures Shuts(k, op) && k.stuckSince.Some? <==> ShutsUnderClaim(k, op)
    ensures Shuts(k, op) && k.stuckSince.None? && Apply(k, op).stuckSince.Some? ==> op.SayStuck?
    ensures k.stuckSince.None? && Apply(k, op).stuckSince.Some? ==> Shuts(k, op)
  {
  }

  lemma HeldOneMore(k: Kiosk, ops: seq<Op>, i: nat)
    requires i < |ops|
    ensures var init := ops[..|ops| - 1];
            ClaimHeldSince(k, ops, i) <==> ClaimHeldSince(k, init, i) && Run(k, ops).stuckSince.Some?
  {
    var init := ops[..|ops| - 1];
    assert ops[..|ops|] == ops;
    assert forall j :: 0 <= j <= |init| ==> ops[..j] == init[..j];
  }

  lemma ShutByHandOneMore(k: Kiosk, ops: seq<Op>)
    requires ops != []
    ensures var init, last := ops[..|ops| - 1], ops[|ops| - 1];
            ShutByHand(k, ops)
            <==> Run(k, ops).stuckSince.Some? && (ShutByHand(k, init) || ShutsUnderClaim(Run(k, init), last))
  {
    var n, init := |ops| - 1, ops[..|ops| - 1];
    forall i | 0 <= i < n
      ensures ShutByHandAt(k, ops, i) <==> ShutByHandAt(k, init, i) && Run(k, ops).stuckSince.Some?
    {
      HeldOneMore(k, ops, i);
      assert ops[..i] == init[..i];
    }
    HeldOneMore(k, ops, n);
    assert init[..n] == init;
    assert ShutByHandAt(k, ops, n) <==> Run(k, ops).stuckSince.Some? && ShutsUnderClaim(Run(k, init), ops[n]);
    if ShutByHand(k, init) && Run(k, ops).stuckSince.Some? {
      var i :| 0 <= i < n && ShutByHandAt(k, init, i);
      assert ShutByHandAt(k, ops, i);
    }
  }

  /** Over every run, while the machine holds its claim: what last shut the shop was the machine's
      own report exactly when nobody has shut it by hand since the claim was taken. */
  lemma {:induction false} MachineShutItExactlyWhen(k: Kiosk, ops: seq<Op>)
    requires k.stuckSince == None
    ensures Run(k, ops).stuckSince.Some? ==>
              && LastClosing(k, ops).Some?
              && (LastClosing(k, ops).value.SayStuck? <==> !ShutByHand(k, ops))
    ensures Run(k, ops).stuckSince.None? ==> !ShutByHand(k, ops)
  {
    if ops != [] {
      var init := ops[..|ops| - 1];
      MachineShutItExactlyWhen(k, init);
      WhatShuts(Run(k, init), ops[|ops| - 1]);
      ShutByHandOneMore(k, ops);
    }
  }

  /** Whether a recovery reopens the shop it is reported for. */
  predicate Reopens(k: Kiosk, canCollect: bool) {
    Recovered(k, canCollect).Ok? && Recovered(k, canCollect).value.1
  }

  /** A recovery reopens exactly a shop in MAINTENANCE under the machine's claim, where money can be
      taken; and the closing it then undoes is the machine's own exactly when nobody shut the shop
      by hand while that claim was held. */
  lemma RecoveryUndoesItsOwnClosingExactlyWhen(k: Kiosk, ops: seq<Op>, canCollect: bool)
    requires k.stuckSince == None
    ensures var now := Run(k, ops);
            Reopens(now, canCollect)
            <==> now.stuckSince.Some? && now.stage == Maintenance && (OwnerCollects(now.kind) ==> canCollect)
    ensures Reopens(Run(k, ops), canCollect) ==>
              && Apply(Run(k, ops), SayRecovered(canCollect)).stage == Live
              && LastClosing(k, ops).Some?
              && (LastClosing(k, ops).value.SayStuck? <==> !ShutByHand(k, ops))
  {
    MachineShutItExactlyWhen(k, ops);
  }

  lemma RunOneMore(k: Kiosk, ops: seq<Op>, op: Op)
    ensures Run(k, ops + [op]) == Apply(Run(k, ops), op)
    ensures LastClosing(k, ops + [op]) == if Shuts(Run(k, ops), op) then Some(op) else LastClosing(k, ops)
  {
    assert (ops + [op])[..|ops|] == ops;
  }

  /** It may not be: the machine closes the shop, a person reopens it and shuts it again, and
      the printer recovering hands it back to students. */
  lemma RecoveryCanUndoAPersonsClosing()
    ensures var k := New(Platform, false).(stage := Live);
            var byHand := [SayStuck(0, true)] + [Move(Live, true)] + [Move(Maintenance, true)];
            && LastClosing(k, byHand) == Some(Move(Maintenance, true)) && ShutByHand(k, byHand)
            && Reopens(Run(k, byHand), true)
            && Run(k, byHand + [SayRecovered(true)]).stage == Live
  {
    var k := New(Platform, false).(stage := Live);
    var a, b, c := [SayStuck(0, true)], Move(Live, true), Move(Maintenance, true);
    RunOneMore(k, [], SayStuck(0, true));
    assert [] + a == a;
    RunOneMore(k, a, b);
    RunOneMore(k, a + [b], c);
    RunOneMore(k, a + [b] + [c], SayRecovered(true));
    MachineShutItExactlyWhen(k, a + [b] + [c]);
  }

  // ── whose account collects ────────────────────────────────────────────────

  datatype Collector = PlatformGateway | OwnerGateway | NobodyCollects

  // What is known of the kiosk's owner: a subscription in force, and usable keys.
  datatype Owner = Owner(subscribed: bool, hasKeys: bool)

  /** `kiosk_payment_gate` */
  function PaymentGate(k: Kiosk, owner: Option<Owner>): Collector {
    if !OwnerCollects(k.kind) then PlatformGateway
    else if owner.None? || !owner.value.subscribed || !owner.value.hasKeys then NobodyCollects
    else OwnerGateway
  }

  /** At a sold kiosk or one rented out as a service its owner's account collects, exactly while they
      subscribe and have set their keys, and otherwise nobody's does; at any other the platform's. */
  lemma WhoCollects(k: Kiosk, owner: Option<Owner>)
    ensures PaymentGate(k, owner) == PlatformGateway <==> k.kind == Platform
    ensures PaymentGate(k, owner) == OwnerGateway
       <==> k.kind in {Sold, Saas} && owner.Some? && owner.value.subscribed && owner.value.hasKeys
    ensures PaymentGate(k, owner) == NobodyCollects
       <==> k.kind in {Sold, Saas} && (owner.None? || !owner.value.subscribed || !owner.value.hasKeys)
  {
  }

  /** `owner_can_collect` */
  predicate OwnerCanCollect(k: Kiosk, owner: Option<Owner>) { PaymentGate(k, owner) == OwnerGateway }

  /** So a shop that opens, or that billing has just been over, has somebody to take its money: nobody
      is charged where nobody collects. */
  lemma AnOpenShopHasACollector(k: Kiosk, owner: Option<Owner>)
    ensures var r := MovedTo(k, Live, OwnerCanCollect(k, owner));
            k.stage != Live && r.Ok? ==> PaymentGate(r.value, owner) != NobodyCollects
    ensures var after := Reconciled(k, OwnerCanCollect(k, owner));
            after.stage == Live ==> PaymentGate(after, owner) != NobodyCollects
    ensures var r := Recovered(k, OwnerCanCollect(k, owner));
            k.stage != Live && r.Ok? && r.value.0.stage == Live ==> PaymentGate(r.value.0, owner) != NobodyCollects
  {
  }

  /** `wallet_may_be_spent` */
  predicate WalletMayBeSpent(k: Kiosk, owner: Option<Owner>) {
    k.acceptsWallet && PaymentGate(k, owner) == PlatformGateway
  }

  /** A balance is spent exactly at a kiosk of the platform's own that accepts it. */
  lemma WalletSpentExactlyWhen(k: Kiosk, owner: Option<Owner>)
    ensures WalletMayBeSpent(k, owner) <==> k.acceptsWallet && k.kind == Platform
  {
  }

  /** The flag outlives a change of type, and a balance is still never spent where an owner
      collects: whatever was done before, selling the kiosk ends wallet payments there, and
      nothing done afterwards but making it the platform's again brings them back. */
  lemma {:induction false} SellingEndsWalletPayments(k: Kiosk, kind: KioskType, ops: seq<Op>, owner: Option<Owner>)
    requires OwnerCollects(kind) && forall i :: 0 <= i < |ops| ==> ops[i] != Retype(Platform)
    ensures !WalletMayBeSpent(Run(Apply(k, Retype(kind)), ops), owner)
    ensures OwnerCollects(Run(Apply(k, Retype(kind)), ops).kind)
  {
    if ops != [] {
      SellingEndsWalletPayments(k, kind, ops[..|ops| - 1], owner);
    }
  }

  predicate NeverTurnedOff(ops: seq<Op>, from: nat) { forall j :: from <= j < |ops| ==> ops[j] != SetWallet(false) }

  /** The flag was turned on here, by a request the kiosk's type allowed, and never off again. */
  predicate TurnedOnForGood(k: Kiosk, ops: seq<Op>, i: nat) {
    i < |ops| && ops[i] == SetWallet(true) && !OwnerCollects(Run(k, ops[..i]).kind) && NeverTurnedOff(ops, i + 1)
  }

  lemma {:induction false} NeverOffOneMore(ops: seq<Op>, from: nat)
    requires from < |ops|
    ensures NeverTurnedOff(ops, from)
       <==> NeverTurnedOff(ops[..|ops| - 1], from) && ops[|ops| - 1] != SetWallet(false)
  {
    var n, init := |ops| - 1, ops[..|ops| - 1];
    assert forall j :: 0 <= j < n ==> init[j] == ops[j];
    if NeverTurnedOff(init, from) && ops[n] != SetWallet(false) {
      forall j | from <= j < |ops| ensures ops[j] != SetWallet(false) {
        assert j < n ==> init[j] == ops[j];
      }
    }
  }

  lemma {:induction false} TurnedOnBefore(k: Kiosk, ops: seq<Op>, i: nat)
    requires i + 1 < |ops|
    ensures TurnedOnForGood(k, ops, i)
       <==> TurnedOnForGood(k, ops[..|ops| - 1], i) && ops[|ops| - 1] != SetWallet(false)
  {
    assert ops[..|ops| - 1][..i] == ops[..i];
    NeverOffOneMore(ops, i + 1);
  }

  /** Over every run: the flag stands exactly if it stood at first, or was turned on while the platform
      collected, and has not been turned off since, whoever came to collect meanwhile. */
  lemma {:induction false} TheFlagStandsExactlyWhen(k: Kiosk, ops: seq<Op>)
    ensures Run(k, ops).acceptsWallet
       <==> (k.acceptsWallet && NeverTurnedOff(ops, 0)) || exists i :: 0 <= i < |ops| && TurnedOnForGood(k, ops, i)
  {
    if ops != [] {
      var n, init := |ops| - 1, ops[..|ops| - 1];
      TheFlagStandsExactlyWhen(k, init);
      forall i | 0 <= i < n
        ensures TurnedOnForGood(k, ops, i) <==> TurnedOnForGood(k, init, i) && ops[n] != SetWallet(false)
      {
        TurnedOnBefore(k, ops, i);
      }
      NeverOffOneMore(ops, 0);
      assert TurnedOnForGood(k, ops, n) <==> ops[n] == SetWallet(true) && !OwnerCollects(Run(k, init).kind);
      if i :| 0 <= i < n && TurnedOnForGood(k, init, i) {
        assert TurnedOnForGood(k, ops, i) <==> ops[n] != SetWallet(false);
      }
    }
  }
}
