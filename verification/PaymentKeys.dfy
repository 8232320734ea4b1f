/** An owner's payment keys: set once, and after that replaced only on an approval, which is
    spent. Keys and secrets are given with the space around them already taken off. */
module PaymentKeys {
  import opened Outcomes

  datatype Keys = Keys(id: string, secret: string)

  // `keys` is what has been configured, if anything has; a webhook secret may be there without.
  datatype Config = Config(keys: Option<Keys>, webhook: Option<string>)

  datatype Status = Pending | Approved | Rejected | Used

  datatype Request = Request(user: nat, status: Status)

  datatype State = State(configs: map<nat, Config>, requests: seq<Request>)

  const NOTHING: State := State(map[], [])

  datatype Refusal =
    | BothRequired | AlreadyConfigured | SecretRequired | AlreadyAwaitingReview | AlreadyReviewed(status: Status)

  function ConfigOf(s: State, user: nat): Config {
    if user in s.configs then s.configs[user] else Config(None, None)
  }

  predicate IsConfigured(s: State, user: nat) { ConfigOf(s, user).keys.Some? }

  predicate HasStatus(r: Request, user: nat, status: Status) { r.user == user && r.status == status }

  /** The approved request the lookup may find: any of this owner's, or none when there is none. */
  predicate IsApprovedRequest(s: State, user: nat, choice: Option<nat>) {
    match choice
    case None => forall i :: 0 <= i < |s.requests| ==> !HasStatus(s.requests[i], user, Approved)
    case Some(k) => k < |s.requests| && HasStatus(s.requests[k], user, Approved)
  }

  /** `set_keys` */
  function KeysSet(s: State, user: nat, keys: Keys, choice: Option<nat>): Result<State, Refusal>
    requires choice.Some? ==> choice.value < |s.requests|
  {
    if keys.id == [] || keys.secret == [] then Refused(BothRequired)
    else if IsConfigured(s, user) && choice.None? then Refused(AlreadyConfigured)
    else
      var requests := if IsConfigured(s, user)
                      then s.requests[choice.value := s.requests[choice.value].(status := Used)] else s.requests;
      Ok(State(s.configs[user := ConfigOf(s, user).(keys := Some(keys))], requests))
  }

  /** `set_webhook_secret`: no approval asked for, and the keys not touched. */
  function WebhookSet(s: State, user: nat, secret: string): Result<State, Refusal> {
    if secret == [] then Refused(SecretRequired)
    else Ok(s.(configs := s.configs[user := ConfigOf(s, user).(webhook := Some(secret))]))
  }

  predicate AwaitsReview(s: State, user: nat) {
    exists i :: 0 <= i < |s.requests| && HasStatus(s.requests[i], user, Pending)
  }

  /** `request_change` */
  function ChangeRequested(s: State, user: nat): Result<State, Refusal> {
    if AwaitsReview(s, user) then Refused(AlreadyAwaitingReview)
    else Ok(s.(requests := s.requests + [Request(user, Pending)]))
  }

  /** `review_change` */
  function Reviewed(s: State, id: nat, approve: bool): Result<State, Refusal>
    requires id < |s.requests|
  {
    if s.requests[id].status != Pending then Refused(AlreadyReviewed(s.requests[id].status))
    else Ok(s.(requests := s.requests[id := s.requests[id].(status := if approve then Approved else Rejected)]))
  }

  class KeyStore {
    var configs: map<nat, Config>
    var requests: seq<Request>

    function Rows(): State
      reads this
    {
      State(configs, requests)
    }

    predicate Answered(before: State, r: Result<State, Refusal>, refusal: Option<Refusal>)
      reads this
    {
      match r
      case Ok(after) => refusal == None && Rows() == after
      case Refused(why) => refusal == Some(why) && Rows() == before
    }

    constructor ()
      ensures Rows() == NOTHING
    {
      configs, requests := map[], [];
    }

    method ApprovedRequest(user: nat) returns (choice: Option<nat>)
      ensures IsApprovedRequest(Rows(), user, choice)
    {
      choice := None;
      for i := 0 to |requests|
        invariant choice.None?
        invariant forall k :: 0 <= k < i ==> !HasStatus(requests[k], user, Approved)
      {
        if HasStatus(requests[i], user, Approved) {
          return Some(i);
        }
      }
    }

    method SetKeys(user: nat, keys: Keys) returns (refusal: Option<Refusal>, choice: Option<nat>)
      modifies this
      ensures IsApprovedRequest(old(Rows()), user, choice)
      ensures Answered(old(Rows()), KeysSet(old(Rows()), user, keys, choice), refusal)
    {
      choice := ApprovedRequest(user);
      if keys.id == [] || keys.secret == [] {
        return Some(BothRequired), choice;
      }
      if user in configs && configs[user].keys.Some? {
        if choice.None? {
          return Some(AlreadyConfigured), choice;
        }
        requests := requests[choice.value := requests[choice.value].(status := Used)];
      }
      if user !in configs {
        configs := configs[user := Config(None, None)];
      }
      configs := configs[user := configs[user].(keys := Some(keys))];
      refusal := None;
    }

    /** Needs no approval, spends none, and cannot change anybody's keys. */
    method SetWebhookSecret(user: nat, secret: string) returns (refusal: Option<Refusal>)
      modifies this
      ensures refusal.Some? <==> secret == []
      ensures requests == old(requests)
      ensures forall u :: ConfigOf(Rows(), u).keys == ConfigOf(old(Rows()), u).keys
      ensures forall u :: u != user ==> ConfigOf(Rows(), u) == ConfigOf(old(Rows()), u)
      ensures refusal.None? ==> ConfigOf(Rows(), user).webhook == Some(secret)
      ensures Answered(old(Rows()), WebhookSet(old(Rows()), user, secret), refusal)
    {
      if secret == [] {
        return Some(SecretRequired);
      }
      if user !in configs {
        configs := configs[user := Config(None, None)];
      }
      configs := configs[user := configs[user].(webhook := Some(secret))];
      refusal := None;
    }

    /** Refused exactly while a request awaits review; one awaits review afterwards either way, and
        only one. */
    method RequestChange(user: nat) returns (refusal: Option<Refusal>)
      modifies this
      ensures refusal.Some? <==> AwaitsReview(old(Rows()), user)
      ensures configs == old(configs)
      ensures |old(requests)| <= |requests| && requests[..|old(requests)|] == old(requests)
      ensures AwaitsReview(Rows(), user)
      ensures OnePending(old(requests)) ==> OnePending(requests)
      ensures Answered(old(Rows()), ChangeRequested(old(Rows()), user), refusal)
    {
      if exists i :: 0 <= i < |requests| && HasStatus(requests[i], user, Pending) {
        return Some(AlreadyAwaitingReview);
      }
      requests := requests + [Request(user, Pending)];
      assert HasStatus(requests[|old(requests)|], user, Pending);
      assert OnePending(old(requests)) ==> OnePending(requests) by {
        assert forall i :: 0 <= i < |old(requests)| ==> !HasStatus(old(requests)[i], user, Pending);
      }
      refusal := None;
    }

    /** Decides exactly a pending request, and no other; a decision writes no keys. */
    method ReviewChange(id: nat, approve: bool) returns (refusal: Option<Refusal>)
      requires id < |requests|
      modifies this
      ensures refusal.None? <==> old(requests)[id].status == Pending
      ensures configs == old(configs)
      ensures |requests| == |old(requests)|
      ensures forall i :: 0 <= i < |requests| && i != id ==> requests[i] == old(requests)[i]
      ensures requests[id].user == old(requests)[id].user && requests[id].status != Pending
      ensures refusal.None? ==> (requests[id].status == Approved <==> approve)
      ensures OnePending(old(requests)) ==> OnePending(requests)
      ensures Answered(old(Rows()), Reviewed(old(Rows()), id, approve), refusal)
    {
      var request := requests[id];
      if request.status != Pending {
        return Some(AlreadyReviewed(request.status));
      }
      requests := requests[id := request.(status := if approve then Approved else Rejected)];
      refusal := None;
    }
  }

  // ── whole histories ───────────────────────────────────────────────────────

  datatype Op =
    | SetKeys(user: nat, keys: Keys, choice: Option<nat>)
    | SetWebhook(user: nat, secret: string)
    | Ask(user: nat)
    | Review(id: nat, approve: bool)

  predicate Legal(s: State, op: Op) {
    match op
    case SetKeys(user, _, choice) => IsApprovedRequest(s, user, choice)
    case Review(id, _) => id < |s.requests|
    case _ => true
  }

  function Answer(s: State, op: Op): Result<State, Refusal>
    requires Legal(s, op)
  {
    match op
    case SetKeys(user, keys, choice) => KeysSet(s, user, keys, choice)
    case SetWebhook(user, secret) => WebhookSet(s, user, secret)
    case Ask(user) => ChangeRequested(s, user)
    case Review(id, approve) => Reviewed(s, id, approve)
  }

  function Apply(s: State, op: Op): State
    requires Legal(s, op)
  {
    if Answer(s, op).Ok? then Answer(s, op).value else s
  }

  predicate LegalRun(s: State, ops: seq<Op>)
    decreases |ops|
  {
    ops == [] || (Legal(s, ops[0]) && LegalRun(Apply(s, ops[0]), ops[1..]))
  }

  function Run(s: State, ops: seq<Op>): State
    requires LegalRun(s, ops)
    decreases |ops|
  {
    if ops == [] then s else Run(Apply(s, ops[0]), ops[1..])
  }

  predicate Writes(s: State, op: Op, user: nat)
    requires Legal(s, op)
  {
    op.SetKeys? && op.user == user && Answer(s, op).Ok?
  }

  predicate Approves(s: State, op: Op, user: nat)
    requires Legal(s, op)
  {
    op.Review? && op.approve && s.requests[op.id].user == user && Answer(s, op).Ok?
  }

  /** How often this owner's keys were written. */
  function KeyWrites(s: State, ops: seq<Op>, user: nat): nat
    requires LegalRun(s, ops)
    decreases |ops|
  {
    if ops == [] then 0
    else (if Writes(s, ops[0], user) then 1 else 0) + KeyWrites(Apply(s, ops[0]), ops[1..], user)
  }

  /** How many approvals this owner was given. */
  function Approvals(s: State, ops: seq<Op>, user: nat): nat
    requires LegalRun(s, ops)
    decreases |ops|
  {
    if ops == [] then 0
    else (if Approves(s, ops[0], user) then 1 else 0) + Approvals(Apply(s, ops[0]), ops[1..], user)
  }

  /** The keys this owner last managed to write, starting from these. */
  function LastWritten(s: State, ops: seq<Op>, user: nat, keys: Option<Keys>): Option<Keys>
    requires LegalRun(s, ops)
    decreases |ops|
  {
    if ops == [] then keys
    else LastWritten(Apply(s, ops[0]), ops[1..], user, if Writes(s, ops[0], user) then Some(ops[0].keys) else keys)
  }

  function CountOf(requests: seq<Request>, user: nat, status: Status): nat {
    if requests == [] then 0
    else
      CountOf(requests[..|requests| - 1], user, status)
      + (if HasStatus(requests[|requests| - 1], user, status) then 1 else 0)
  }

  lemma {:induction false} CountUpdate(requests: seq<Request>, k: nat, r: Request, user: nat, status: Status)
    requires k < |requests|
    ensures CountOf(requests[k := r], user, status)
         == CountOf(requests, user, status) - (if HasStatus(requests[k], user, status) then 1 else 0)
            + (if HasStatus(r, user, status) then 1 else 0)
  {
    var n, after := |requests| - 1, requests[k := r];
    if k < n {
      CountUpdate(requests[..n], k, r, user, status);
      assert after[..n] == requests[..n][k := r];
    } else {
      assert after[..n] == requests[..n];
    }
  }

  function ConfiguredOnce(s: State, user: nat): nat { if IsConfigured(s, user) then 1 else 0 }

  function UsedBy(s: State, user: nat): nat { CountOf(s.requests, user, Used) }

  function ApprovedFor(s: State, user: nat): nat { CountOf(s.requests, user, Approved) }

  function One(b: bool): nat { if b then 1 else 0 }

  lemma WritingUsesTheApproval(s: State, op: Op, user: nat)
    requires Legal(s, op) && op.SetKeys? && Answer(s, op).Ok?
    ensures var t := Apply(s, op);
            && UsedBy(t, user) == UsedBy(s, user) + One(op.user == user && IsConfigured(s, user))
            && ApprovedFor(t, user) + UsedBy(t, user)
               == ApprovedFor(s, user) + UsedBy(s, user)
  {
    if IsConfigured(s, op.user) {
      var used := s.requests[op.choice.value].(status := Used);
      CountUpdate(s.requests, op.choice.value, used, user, Used);
      CountUpdate(s.requests, op.choice.value, used, user, Approved);
    }
  }

  lemma ReviewingApproves(s: State, op: Op, user: nat)
    requires Legal(s, op) && op.Review? && Answer(s, op).Ok?
    ensures UsedBy(Apply(s, op), user) == UsedBy(s, user)
    ensures ApprovedFor(Apply(s, op), user) == ApprovedFor(s, user) + One(Approves(s, op, user))
  {
    var reviewed := Apply(s, op).requests[op.id];
    CountUpdate(s.requests, op.id, reviewed, user, Used);
    CountUpdate(s.requests, op.id, reviewed, user, Approved);
  }

  lemma AskingCountsNothing(s: State, op: Op, user: nat)
    requires Legal(s, op) && op.Ask? && Answer(s, op).Ok?
    ensures UsedBy(Apply(s, op), user) == UsedBy(s, user) && ApprovedFor(Apply(s, op), user) == ApprovedFor(s, user)
  {
  }

  lemma StepWritesKeys(s: State, op: Op, user: nat)
    requires Legal(s, op)
    ensures ConfigOf(Apply(s, op), user).keys == if Writes(s, op, user) then Some(op.keys) else ConfigOf(s, user).keys
  {
  }

  lemma StepCounts(s: State, op: Op, user: nat)
    requires Legal(s, op)
    ensures var t := Apply(s, op);
            && ConfiguredOnce(t, user) + UsedBy(t, user)
               == ConfiguredOnce(s, user) + UsedBy(s, user) + One(Writes(s, op, user))
            && ApprovedFor(t, user) + UsedBy(t, user)
               == ApprovedFor(s, user) + UsedBy(s, user) + One(Approves(s, op, user))
  {
    StepWritesKeys(s, op, user);
    if Answer(s, op).Ok? {
      match op {
        case SetKeys(_, _, _) => WritingUsesTheApproval(s, op, user);
        case SetWebhook(_, _) =>
        case Ask(_) => AskingCountsNothing(s, op, user);
        case Review(_, _) => ReviewingApproves(s, op, user);
      }
    }
  }

  lemma {:induction false} RunCounts(s: State, ops: seq<Op>, user: nat)
    requires LegalRun(s, ops)
    ensures var t := Run(s, ops);
            && ConfiguredOnce(t, user) + UsedBy(t, user)
               == ConfiguredOnce(s, user) + UsedBy(s, user) + KeyWrites(s, ops, user)
            && ApprovedFor(t, user) + UsedBy(t, user)
               == ApprovedFor(s, user) + UsedBy(s, user) + Approvals(s, ops, user)
            && ConfigOf(t, user).keys == LastWritten(s, ops, user, ConfigOf(s, user).keys)
    decreases |ops|
  {
    if ops != [] {
      StepCounts(s, ops[0], user);
      StepWritesKeys(s, ops[0], user);
      RunCounts(Apply(s, ops[0]), ops[1..], user);
    }
  }

  /** For each owner over every run: the keys were written once for the first setup and once more
      for each request used; every approval is either used or still waiting, so keys are written at
      most once more than they were approved; and the keys in force are the last ones so written,
      whatever was done to the webhook secret. */
  lemma OneApprovalOneChange(ops: seq<Op>, user: nat)
    requires LegalRun(NOTHING, ops)
    ensures var t := Run(NOTHING, ops);
            && KeyWrites(NOTHING, ops, user) == ConfiguredOnce(t, user) + UsedBy(t, user)
            && UsedBy(t, user) + ApprovedFor(t, user) == Approvals(NOTHING, ops, user)
            && KeyWrites(NOTHING, ops, user) <= 1 + Approvals(NOTHING, ops, user)
            && ConfigOf(t, user).keys == LastWritten(NOTHING, ops, user, None)
  {
    RunCounts(NOTHING, ops, user);
  }

  predicate OnePending(requests: seq<Request>) {
    forall i, j :: 0 <= i < j < |requests| && requests[i].status == Pending && requests[j].status == Pending ==>
      requests[i].user != requests[j].user
  }

  /** No owner ever has two requests awaiting review. */
  lemma {:induction false} NeverTwoAwaitingReview(s: State, ops: seq<Op>)
    requires LegalRun(s, ops) && OnePending(s.requests)
    ensures OnePending(Run(s, ops).requests)
    decreases |ops|
  {
    if ops != [] {
      NeverTwoAwaitingReview(Apply(s, ops[0]), ops[1..]);
    }
  }

  /** A set of keys is refused exactly when something is missing from it, or others are in force
      and no approval is waiting. */
  lemma KeysAreRefusedExactlyWhen(s: State, user: nat, keys: Keys, choice: Option<nat>)
    requires IsApprovedRequest(s, user, choice)
    ensures KeysSet(s, user, keys, choice).Refused?
       <==> keys.id == [] || keys.secret == [] || (IsConfigured(s, user) && ApprovedFor(s, user) == 0)
  {
    if choice.Some? {
      FoundIsCounted(s.requests, choice.value, user, Approved);
    } else {
      NoneFoundNoneCounted(s.requests, user, Approved);
    }
  }

  /** Keys that are taken are the ones given, and nothing else of anybody's is written: not the webhook
      secret beside them, and of the requests only the one approval they use, if others were in force. */
  lemma KeysChangeNothingElse(s: State, user: nat, keys: Keys, choice: Option<nat>)
    requires IsApprovedRequest(s, user, choice) && KeysSet(s, user, keys, choice).Ok?
    ensures var t := KeysSet(s, user, keys, choice).value;
            && ConfigOf(t, user) == Config(Some(keys), ConfigOf(s, user).webhook)
            && (forall other :: other != user ==> ConfigOf(t, other) == ConfigOf(s, other))
            && |t.requests| == |s.requests|
            && (ConfigOf(s, user).keys == None ==> t.requests == s.requests)
            && (ConfigOf(s, user).keys != None ==>
                  choice.Some? && forall i :: 0 <= i < |s.requests| ==>
                    t.requests[i] == if i == choice.value then Request(user, Used) else s.requests[i])
  {
  }

  lemma {:induction false} FoundIsCounted(requests: seq<Request>, k: nat, user: nat, status: Status)
    requires k < |requests| && HasStatus(requests[k], user, status)
    ensures CountOf(requests, user, status) > 0
  {
    if k < |requests| - 1 { FoundIsCounted(requests[..|requests| - 1], k, user, status); }
  }

  lemma {:induction false} NoneFoundNoneCounted(requests: seq<Request>, user: nat, status: Status)
    requires forall i :: 0 <= i < |requests| ==> !HasStatus(requests[i], user, status)
    ensures CountOf(requests, user, status) == 0
  {
    if requests != [] { NoneFoundNoneCounted(requests[..|requests| - 1], user, status); }
  }
}
