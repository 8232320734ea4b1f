/** Carrying the planned balances across, or only reporting what that would do. */
module MigrationRun {
  import opened WalletMigration

  // The accounts here by address, with what is in each wallet. No wallet yet is an empty one.
  type Accounts = map<string, int>

  function HeldBy(accounts: Accounts, email: string): int { if email in accounts then accounts[email] else 0 }

  /** `carry_balance` refuses a debt. */
  predicate Refuses(r: Recipient) { r.balance < 0 }

  /** `carry_balance`: the difference from what is there already. */
  function Gap(accounts: Accounts, r: Recipient): int {
    if Refuses(r) then 0 else r.balance - HeldBy(accounts, r.email)
  }

  function Opened(accounts: Accounts, r: Recipient): Accounts {
    if r.email in accounts then accounts else accounts[r.email := 0]
  }

  function Carried(accounts: Accounts, r: Recipient): Accounts {
    var ready := Opened(accounts, r);
    if Refuses(r) then ready else ready[r.email := HeldBy(ready, r.email) + Gap(accounts, r)]
  }

  /** The accounts once the first recipients have been dealt with. */
  function After(accounts: Accounts, rs: seq<Recipient>): Accounts {
    if rs == [] then accounts else Carried(After(accounts, rs[..|rs| - 1]), rs[|rs| - 1])
  }

  function MoneyCarried(accounts: Accounts, rs: seq<Recipient>): int {
    if rs == [] then 0
    else var init := rs[..|rs| - 1]; MoneyCarried(accounts, init) + Gap(After(accounts, init), rs[|rs| - 1])
  }

  function Credited(accounts: Accounts, rs: seq<Recipient>): nat {
    if rs == [] then 0
    else
      var init := rs[..|rs| - 1];
      Credited(accounts, init) + (if Gap(After(accounts, init), rs[|rs| - 1]) != 0 then 1 else 0)
  }

  function NotYetHere(accounts: Accounts, rs: seq<Recipient>): nat {
    if rs == [] then 0
    else NotYetHere(accounts, rs[..|rs| - 1]) + (if rs[|rs| - 1].email in accounts then 0 else 1)
  }

  function RefusedEmails(rs: seq<Recipient>): seq<string> {
    if rs == [] then []
    else
      var init, last := RefusedEmails(rs[..|rs| - 1]), rs[|rs| - 1];
      if Refuses(last) then init + [last.email] else init
  }

  lemma {:induction false} UntouchedUntilReached(accounts: Accounts, rs: seq<Recipient>, email: string)
    requires forall i :: 0 <= i < |rs| ==> rs[i].email != email
    ensures email in After(accounts, rs) <==> email in accounts
    ensures HeldBy(After(accounts, rs), email) == HeldBy(accounts, email)
  {
    if rs != [] { UntouchedUntilReached(accounts, rs[..|rs| - 1], email); }
  }

  class Migration {
    var accounts: Accounts

    constructor (existing: Accounts)
      ensures accounts == existing
    {
      accounts := existing;
    }

    /** `carry_balance` for one account. */
    method CarryBalance(email: string, balance: int) returns (carried: int, wrote: bool, refused: bool)
      requires email in accounts
      modifies this
      ensures refused <==> balance < 0
      ensures refused ==> accounts == old(accounts) && carried == 0 && !wrote
      ensures !refused ==> accounts == old(accounts)[email := balance] && carried == balance - old(accounts)[email]
      ensures wrote <==> carried != 0
    {
      if balance < 0 {
        return 0, false, true;
      }
      var gap := balance - accounts[email];
      if gap == 0 {
        return 0, false, false;
      }
      accounts := accounts[email := accounts[email] + gap];
      return gap, true, false;
    }

    /** One recipient's account, made if it is missing, and its balance carried. */
    method CarryOne(r: Recipient) returns (gap: int, no: bool)
      modifies this
      ensures accounts == Carried(old(accounts), r)
      ensures gap == Gap(old(accounts), r) && (no <==> Refuses(r))
    {
      if r.email !in accounts {
        accounts := accounts[r.email := 0];
      }
      var wrote;
      gap, wrote, no := CarryBalance(r.email, r.balance);
    }

    /** The loop of `migrate_wallets` over the planned recipients, and what it adds up. */
    method CarryAll(rs: seq<Recipient>, apply: bool)
      returns (created: nat, merged: nat, expected: int, carried: int, credited: nat, refused: seq<string>)
      requires Apart(rs)
      modifies this
      ensures created == NotYetHere(old(accounts), rs) && merged == MergedAway(rs) && expected == PlannedPaise(rs)
      ensures apply ==>
                && accounts == After(old(accounts), rs) && carried == MoneyCarried(old(accounts), rs)
                && credited == Credited(old(accounts), rs) && refused == RefusedEmails(rs)
      ensures !apply ==> accounts == old(accounts) && carried == 0 && credited == 0 && refused == []
    {
      created, merged, expected, carried, credited, refused := 0, 0, 0, 0, 0, [];
      var before := accounts;
      for i := 0 to |rs|
        invariant created == NotYetHere(before, rs[..i])
        invariant merged == MergedAway(rs[..i]) && expected == PlannedPaise(rs[..i])
        invariant accounts == if apply then After(before, rs[..i]) else before
        invariant carried == if apply then MoneyCarried(before, rs[..i]) else 0
        invariant credited == if apply then Credited(before, rs[..i]) else 0
        invariant refused == if apply then RefusedEmails(rs[..i]) else []
      {
        var r := rs[i];
        OneMore(before, rs, i);
        merged := merged + |r.mergedFrom|;
        expected := expected + r.balance;
        if r.email !in accounts {
          created := created + 1;
        }
        if apply {
          var gap, no := CarryOne(r);
          carried := carried + gap;
          if no {
            refused := refused + [r.email];
          } else if gap != 0 {
            credited := credited + 1;
          }
        }
      }
      assert rs[..|rs|] == rs;
    }

    /** `migrate_wallets` */
    method MigrateWallets(users: seq<LegacyUser>, apply: bool)
      returns (created: nat, matched: nat, merged: nat, expected: int, carried: int, credited: nat,
               refused: seq<string>)
      modifies this
      ensures var rs := PlanOf(users);
              && created == NotYetHere(old(accounts), rs) && matched == |rs| - created
              && merged == MergedAway(rs) && expected == PlannedPaise(rs)
              && (apply ==>
                    && accounts == After(old(accounts), rs) && carried == MoneyCarried(old(accounts), rs)
                    && credited == Credited(old(accounts), rs) && refused == RefusedEmails(rs))
              && (!apply ==> accounts == old(accounts) && carried == 0 && credited == 0 && refused == [])
    {
      var rs := Plan(users);
      EachAddressOnce(users);
      AtMostAll(accounts, rs);
      created, merged, expected, carried, credited, refused := CarryAll(rs, apply);
      matched := |rs| - created;
    }
  }

  lemma {:induction false} AtMostAll(accounts: Accounts, rs: seq<Recipient>)
    ensures NotYetHere(accounts, rs) <= |rs|
  {
    if rs != [] { AtMostAll(accounts, rs[..|rs| - 1]); }
  }

  /** One more recipient, whose account nothing before it has touched. */
  lemma OneMore(accounts: Accounts, rs: seq<Recipient>, i: nat)
    requires Apart(rs) && i < |rs|
    ensures var done, r := rs[..i], rs[i];
            && (r.email in After(accounts, done) <==> r.email in accounts)
            && After(accounts, rs[..i + 1]) == Carried(After(accounts, done), r)
            && MoneyCarried(accounts, rs[..i + 1]) == MoneyCarried(accounts, done) + Gap(After(accounts, done), r)
            && Credited(accounts, rs[..i + 1])
               == Credited(accounts, done) + (if Gap(After(accounts, done), r) != 0 then 1 else 0)
            && NotYetHere(accounts, rs[..i + 1]) == NotYetHere(accounts, done) + (if r.email in accounts then 0 else 1)
            && RefusedEmails(rs[..i + 1]) == RefusedEmails(done) + (if Refuses(r) then [r.email] else [])
            && MergedAway(rs[..i + 1]) == MergedAway(done) + |r.mergedFrom|
            && PlannedPaise(rs[..i + 1]) == PlannedPaise(done) + r.balance
  {
    assert rs[..i + 1][..i] == rs[..i];
    UntouchedUntilReached(accounts, rs[..i], rs[i].email);
  }

  /** The addresses refused are exactly those that owe. */
  lemma {:induction false} RefusedAreTheDebts(rs: seq<Recipient>, email: string)
    ensures email in RefusedEmails(rs) <==> exists i :: 0 <= i < |rs| && rs[i].email == email && rs[i].balance < 0
  {
    if rs != [] {
      var n, init := |rs| - 1, rs[..|rs| - 1];
      RefusedAreTheDebts(init, email);
      assert forall i :: 0 <= i < n ==> init[i] == rs[i];
    }
  }

  // ── what a run leaves behind ──────────────────────────────────────────────

  /** Every recipient not refused ends with exactly its legacy balance, whatever it held before. */
  lemma {:induction false} EveryWalletHoldsItsBalance(accounts: Accounts, rs: seq<Recipient>, i: nat)
    requires Apart(rs) && i < |rs|
    ensures rs[i].email in After(accounts, rs)
    ensures HeldBy(After(accounts, rs), rs[i].email)
         == if Refuses(rs[i]) then HeldBy(accounts, rs[i].email) else rs[i].balance
    decreases |rs|
  {
    var init := rs[..|rs| - 1];
    if i < |rs| - 1 {
      assert init[i] == rs[i] && rs[i].email != rs[|rs| - 1].email;
      EveryWalletHoldsItsBalance(accounts, init, i);
    } else {
      UntouchedUntilReached(accounts, init, rs[i].email);
    }
  }

  /** What stands between the money expected and the money carried: what wallets held already, and
      the debts that were refused. */
  function Shortfall(accounts: Accounts, rs: seq<Recipient>): int {
    if rs == [] then 0
    else
      var last := rs[|rs| - 1];
      Shortfall(accounts, rs[..|rs| - 1]) + (if Refuses(last) then last.balance else HeldBy(accounts, last.email))
  }

  lemma {:induction false} ExpectedIsCarriedAndShortfall(accounts: Accounts, rs: seq<Recipient>)
    requires Apart(rs)
    ensures PlannedPaise(rs) == MoneyCarried(accounts, rs) + Shortfall(accounts, rs)
  {
    if rs != [] {
      var init := rs[..|rs| - 1];
      ExpectedIsCarriedAndShortfall(accounts, init);
      UntouchedUntilReached(accounts, init, rs[|rs| - 1].email);
    }
  }

  predicate NoDebts(accounts: Accounts, rs: seq<Recipient>) {
    forall i :: 0 <= i < |rs| ==> rs[i].balance >= 0 && HeldBy(accounts, rs[i].email) >= 0
  }

  lemma {:induction false} ShortfallOfWallets(accounts: Accounts, rs: seq<Recipient>)
    requires NoDebts(accounts, rs)
    ensures Shortfall(accounts, rs) >= 0
    ensures Shortfall(accounts, rs) == 0 <==> forall i :: 0 <= i < |rs| ==> HeldBy(accounts, rs[i].email) == 0
  {
    if rs != [] {
      var n, init := |rs| - 1, rs[..|rs| - 1];
      assert forall i :: 0 <= i < n ==> init[i] == rs[i];
      ShortfallOfWallets(accounts, init);
      assert rs[n].balance >= 0;
    }
  }

  /** Where nobody owes anything, the report reconciles exactly when every wallet it carried to was
      empty before. */
  lemma ReconcilesExactlyWhen(accounts: Accounts, users: seq<LegacyUser>)
    requires NoDebts(accounts, PlanOf(users))
    ensures var rs := PlanOf(users);
            MoneyCarried(accounts, rs) == PlannedPaise(rs)
            <==> forall i :: 0 <= i < |rs| ==> HeldBy(accounts, rs[i].email) == 0
  {
    EachAddressOnce(users);
    ExpectedIsCarriedAndShortfall(accounts, PlanOf(users));
    ShortfallOfWallets(accounts, PlanOf(users));
  }

  /** A run writes nothing exactly when every wallet it would carry to already holds its balance:
      so one made again at once is harmless, and one made after a student has spent puts the
      spending back. */
  lemma {:induction false} WritesNothingExactlyWhen(accounts: Accounts, rs: seq<Recipient>)
    requires Apart(rs)
    ensures Credited(accounts, rs) == 0
       <==> forall i :: 0 <= i < |rs| ==> Refuses(rs[i]) || HeldBy(accounts, rs[i].email) == rs[i].balance
  {
    if rs != [] {
      var n, init := |rs| - 1, rs[..|rs| - 1];
      assert forall i :: 0 <= i < n ==> init[i] == rs[i];
      WritesNothingExactlyWhen(accounts, init);
      UntouchedUntilReached(accounts, init, rs[n].email);
    }
  }

  lemma RunningAgainWritesNothing(accounts: Accounts, users: seq<LegacyUser>)
    ensures var rs := PlanOf(users);
            Credited(After(accounts, rs), rs) == 0
  {
    var rs := PlanOf(users);
    EachAddressOnce(users);
    forall i | 0 <= i < |rs| ensures Refuses(rs[i]) || HeldBy(After(accounts, rs), rs[i].email) == rs[i].balance {
      EveryWalletHoldsItsBalance(accounts, rs, i);
    }
    WritesNothingExactlyWhen(After(accounts, rs), rs);
  }

  // ── carrying again after a student has spent ──────────────────────────────

  lemma {:induction false} WritingNothingMovesNothing(accounts: Accounts, rs: seq<Recipient>)
    requires Credited(accounts, rs) == 0
    ensures MoneyCarried(accounts, rs) == 0
  {
    if rs != [] { WritingNothingMovesNothing(accounts, rs[..|rs| - 1]); }
  }

  predicate Settled(accounts: Accounts, r: Recipient) { Refuses(r) || HeldBy(accounts, r.email) == r.balance }

  /** With every wallet but one as it was carried, a pass writes to that one alone. */
  lemma {:induction false} WritesToTheOneBehind(accounts: Accounts, rs: seq<Recipient>, i: nat)
    requires Apart(rs) && i < |rs| && !Settled(accounts, rs[i])
    requires forall j :: 0 <= j < |rs| && j != i ==> Settled(accounts, rs[j])
    ensures Credited(accounts, rs) == 1
    ensures MoneyCarried(accounts, rs) == rs[i].balance - HeldBy(accounts, rs[i].email)
    decreases |rs|
  {
    var n, init := |rs| - 1, rs[..|rs| - 1];
    assert forall j :: 0 <= j < n ==> init[j] == rs[j];
    UntouchedUntilReached(accounts, init, rs[n].email);
    if i < n {
      WritesToTheOneBehind(accounts, init, i);
    } else {
      assert forall j :: 0 <= j < n ==> Settled(accounts, init[j]);
      WritesNothingExactlyWhen(accounts, init);
      WritingNothingMovesNothing(accounts, init);
    }
  }

  lemma AfterAt(accounts: Accounts, rs: seq<Recipient>, email: string)
    requires Apart(rs)
    ensures email in After(accounts, rs) <==> email in accounts || exists i :: 0 <= i < |rs| && rs[i].email == email
    ensures (forall i :: 0 <= i < |rs| && rs[i].email == email ==> Refuses(rs[i])) ==>
              HeldBy(After(accounts, rs), email) == HeldBy(accounts, email)
  {
    if i :| 0 <= i < |rs| && rs[i].email == email {
      EveryWalletHoldsItsBalance(accounts, rs, i);
    } else {
      UntouchedUntilReached(accounts, rs, email);
    }
  }

  /** Carry, let one student spend, and carry again: the second pass writes one entry, for exactly what
      was spent, and leaves every wallet as the first pass did. */
  lemma SpendingComesBack(accounts: Accounts, users: seq<LegacyUser>, i: nat, spent: int)
    requires i < |PlanOf(users)| && 0 < spent <= PlanOf(users)[i].balance
    ensures var rs := PlanOf(users);
            var carried := After(accounts, rs);
            && rs[i].email in carried && carried[rs[i].email] == rs[i].balance
            && var after := carried[rs[i].email := rs[i].balance - spent];
               Credited(after, rs) == 1 && MoneyCarried(after, rs) == spent && After(after, rs) == carried
  {
    var rs := PlanOf(users);
    EachAddressOnce(users);
    EveryWalletHoldsItsBalance(accounts, rs, i);
    var carried := After(accounts, rs);
    var after := carried[rs[i].email := rs[i].balance - spent];
    forall j | 0 <= j < |rs| && j != i ensures Settled(after, rs[j]) {
      EveryWalletHoldsItsBalance(accounts, rs, j);
    }
    WritesToTheOneBehind(after, rs, i);
    forall email ensures email in After(after, rs) <==> email in carried
    {
      AfterAt(after, rs, email);
      AfterAt(accounts, rs, email);
    }
    forall email | email in carried ensures After(after, rs)[email] == carried[email] {
      AfterAt(after, rs, email);
      if j :| 0 <= j < |rs| && rs[j].email == email && !Refuses(rs[j]) {
        EveryWalletHoldsItsBalance(accounts, rs, j);
        EveryWalletHoldsItsBalance(after, rs, j);
      }
    }
  }
}
