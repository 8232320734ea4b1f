/** Attaching legacy wallet balances to accounts: one recipient per address, and no money lost
    on the way. Legacy balances are exact decimals; everything here is whole paise. */
module WalletMigration {
  import opened Outcomes
  import opened Money

  datatype LegacyUser = LegacyUser(
    id: nat, email: string, fullName: Option<string>, password: Option<string>, isActive: bool, balance: real)

  datatype Recipient = Recipient(
    email: string, fullName: Option<string>, password: Option<string>, isActive: bool, balance: int,
    legacyId: nat, mergedFrom: seq<nat>)

  // ── addresses ─────────────────────────────────────────────────────────────

  // The ASCII characters `strip` takes off: tab to carriage return, the four separators, and space.
  predicate Blank(c: char) { 9 <= c as int <= 13 || 28 <= c as int <= 32 }

  function StripLeft(s: string): string { if s != [] && Blank(s[0]) then StripLeft(s[1..]) else s }

  function StripRight(s: string): string {
    if s != [] && Blank(s[|s| - 1]) then StripRight(s[..|s| - 1]) else s
  }

  function LowerChar(c: char): char { if 'A' <= c <= 'Z' then c - 'A' + 'a' else c }

  function Lower(s: string): string { if s == [] then [] else Lower(s[..|s| - 1]) + [LowerChar(s[|s| - 1])] }

  /** `email.strip().lower()` */
  function Key(user: LegacyUser): string { Lower(StripRight(StripLeft(user.email))) }

  // What counts as blank around an address.
  const WHITESPACE: set<char> :=
    {'\t', '\n', '\U{B}', '\U{C}', '\r', '\U{1C}', '\U{1D}', '\U{1E}', '\U{1F}', ' '}

  lemma BlankIsWhitespace(c: char)
    ensures Blank(c) <==> c in WHITESPACE
  {
  }

  /** The same letter, or the two cases of one. */
  predicate SameLetter(c: char, d: char) {
    || c == d
    || ('A' <= c <= 'Z' && d as int == c as int + 32)
    || ('A' <= d <= 'Z' && c as int == d as int + 32)
  }

  /** What is left of this text between the blanks around it is `s[i..j]`. */
  predicate IsCore(s: string, i: nat, j: nat) {
    && i <= j <= |s|
    && (forall k :: 0 <= k < |s| && (k < i || j <= k) ==> s[k] in WHITESPACE)
    && (i < j ==> s[i] !in WHITESPACE && s[j - 1] !in WHITESPACE)
  }

  lemma {:induction false} StripsLeft(s: string, i: nat)
    requires i <= |s| && (forall k :: 0 <= k < i ==> Blank(s[k])) && (i < |s| ==> !Blank(s[i]))
    ensures StripLeft(s) == s[i..]
    decreases i
  {
    if i > 0 {
      StripsLeft(s[1..], i - 1);
      assert s[1..][i - 1..] == s[i..];
    }
  }

  lemma {:induction false} StripsRight(s: string, j: nat)
    requires j <= |s| && (forall k :: j <= k < |s| ==> Blank(s[k])) && (j > 0 ==> !Blank(s[j - 1]))
    ensures StripRight(s) == s[..j]
    decreases |s| - j
  {
    if j < |s| {
      StripsRight(s[..|s| - 1], j);
      assert s[..|s| - 1][..j] == s[..j];
    }
  }

  lemma {:induction false} LowersEach(s: string)
    ensures |Lower(s)| == |s| && forall k :: 0 <= k < |s| ==> Lower(s)[k] == LowerChar(s[k])
  {
    if s != [] { LowersEach(s[..|s| - 1]); }
  }

  lemma {:induction false} KeyIsTheCore(user: LegacyUser, i: nat, j: nat)
    requires IsCore(user.email, i, j)
    ensures Key(user) == Lower(user.email[i..j])
  {
    var s := user.email;
    forall k | 0 <= k < |s| ensures Blank(s[k]) <==> s[k] in WHITESPACE {
      BlankIsWhitespace(s[k]);
    }
    if i < j {
      StripsLeft(s, i);
      StripsRight(s[i..], j - i);
      assert s[i..][..j - i] == s[i..j];
    } else {
      StripsLeft(s, |s|);
      assert s[|s|..] == [] && s[i..j] == [];
    }
  }

  predicate SameLetters(x: string, y: string) {
    |x| == |y| && forall n :: 0 <= n < |x| ==> SameLetter(x[n], y[n])
  }

  lemma LoweredAlike(c: char, d: char)
    ensures LowerChar(c) == LowerChar(d) <==> SameLetter(c, d)
  {
  }

  lemma {:induction false} FoldedAlike(x: string, y: string)
    ensures Lower(x) == Lower(y) <==> SameLetters(x, y)
  {
    LowersEach(x);
    LowersEach(y);
    if |x| == |y| {
      forall n | 0 <= n < |x| ensures Lower(x)[n] == Lower(y)[n] <==> SameLetter(x[n], y[n]) {
        LoweredAlike(x[n], y[n]);
      }
    }
  }

  /** Two addresses are one recipient's exactly when, between the blanks around each, they have the same
      letters in whichever case. */
  lemma {:induction false} OneAddressExactlyWhen(a: LegacyUser, b: LegacyUser, i: nat, j: nat, k: nat, l: nat)
    requires IsCore(a.email, i, j) && IsCore(b.email, k, l)
    ensures Key(a) == Key(b) <==> SameLetters(a.email[i..j], b.email[k..l])
  {
    KeyIsTheCore(a, i, j);
    KeyIsTheCore(b, k, l);
    FoldedAlike(a.email[i..j], b.email[k..l]);
  }

  /** Every text has such a core. */
  lemma {:induction false} EveryTextHasACore(s: string) returns (i: nat, j: nat)
    ensures IsCore(s, i, j)
  {
    i, j := 0, |s|;
    while i < |s| && s[i] in WHITESPACE
      invariant i <= |s| && forall k :: 0 <= k < i ==> s[k] in WHITESPACE
    {
      i := i + 1;
    }
    while j > i && s[j - 1] in WHITESPACE
      invariant i <= j <= |s| && forall k :: j <= k < |s| ==> s[k] in WHITESPACE
    {
      j := j - 1;
    }
  }

  // ── the plan ──────────────────────────────────────────────────────────────

  predicate Truthy(name: Option<string>) { name.Some? && name.value != [] }

  function NewRecipient(user: LegacyUser): Recipient {
    Recipient(Key(user), user.fullName, user.password, user.isActive, AsPaise(user.balance), user.id, [])
  }

  function Merged(r: Recipient, user: LegacyUser): Recipient {
    r.(fullName := if Truthy(r.fullName) then r.fullName else user.fullName,
       balance := AsPaise(Rupees(r.balance) + user.balance),
       mergedFrom := r.mergedFrom + [user.id])
  }

  function Find(recipients: seq<Recipient>, key: string): (k: Option<nat>)
    ensures k.Some? ==> k.value < |recipients| && recipients[k.value].email == key
    ensures k.None? ==> forall i :: 0 <= i < |recipients| ==> recipients[i].email != key
  {
    if recipients == [] then None
    else
      var k := Find(recipients[..|recipients| - 1], key);
      if k.Some? then k
      else if recipients[|recipients| - 1].email == key then Some(|recipients| - 1) else None
  }

  function Add(recipients: seq<Recipient>, user: LegacyUser): seq<Recipient> {
    var k := Find(recipients, Key(user));
    if k.None? then recipients + [NewRecipient(user)]
    else recipients[k.value := Merged(recipients[k.value], user)]
  }

  function PlanOf(users: seq<LegacyUser>): seq<Recipient> {
    if users == [] then [] else Add(PlanOf(users[..|users| - 1]), users[|users| - 1])
  }

  /** The dictionary knows where each address is, and no other address. */
  ghost predicate Indexes(position: map<string, nat>, recipients: seq<Recipient>) {
    forall key :: Find(recipients, key) == if key in position then Some(position[key]) else None
  }

  /** `plan`: an ordered dictionary, as a list of recipients and the position of each address. */
  method Plan(users: seq<LegacyUser>) returns (recipients: seq<Recipient>)
    ensures recipients == PlanOf(users)
  {
    recipients := [];
    var position: map<string, nat> := map[];
    for i := 0 to |users|
      invariant recipients == PlanOf(users[..i])
      invariant Indexes(position, recipients)
    {
      assert users[..i + 1][..i] == users[..i];
      var user := users[i];
      var key := Key(user);
      assert Find(recipients, key).Some? <==> key in position;
      if key !in position {
        FindAppend(position, recipients, NewRecipient(user));
        position := position[key := |recipients|];
        recipients := recipients + [NewRecipient(user)];
      } else {
        var at := position[key];
        var merged := Merged(recipients[at], user);
        FindUpdate(recipients, at, merged);
        recipients := recipients[at := merged];
      }
    }
    assert users[..|users|] == users;
  }

  lemma FindAppend(position: map<string, nat>, recipients: seq<Recipient>, r: Recipient)
    requires Indexes(position, recipients) && r.email !in position
    ensures Indexes(position[r.email := |recipients|], recipients + [r])
  {
  }

  lemma {:induction false} FindUpdate(recipients: seq<Recipient>, k: nat, r: Recipient)
    requires k < |recipients| && r.email == recipients[k].email
    ensures forall key :: Find(recipients[k := r], key) == Find(recipients, key)
  {
    var n, after := |recipients| - 1, recipients[k := r];
    if k < n {
      FindUpdate(recipients[..n], k, r);
      assert after[..n] == recipients[..n][k := r];
    } else {
      assert after[..n] == recipients[..n];
    }
  }

  // ── what the plan must say, read off the legacy rows ──────────────────────

  /** The addresses, folded, in the order they are first seen. */
  function FirstSeen(users: seq<LegacyUser>): seq<string> {
    if users == [] then []
    else
      var init, key := FirstSeen(users[..|users| - 1]), Key(users[|users| - 1]);
      if key in init then init else init + [key]
  }

  /** The legacy ids at an address, in the order they are read. */
  function IdsAt(users: seq<LegacyUser>, key: string): seq<nat> {
    if users == [] then []
    else
      var init, last := IdsAt(users[..|users| - 1], key), users[|users| - 1];
      if Key(last) == key then init + [last.id] else init
  }

  /** The first account read at an address: the oldest. */
  function FirstAt(users: seq<LegacyUser>, key: string): Option<LegacyUser> {
    if users == [] then None
    else
      var init, last := FirstAt(users[..|users| - 1], key), users[|users| - 1];
      if init.Some? then init else if Key(last) == key then Some(last) else None
  }

  /** What the balances at an address come to, rounded at each one. */
  function HeldAt(users: seq<LegacyUser>, key: string): int {
    if users == [] then 0
    else
      var init, last := HeldAt(users[..|users| - 1], key), users[|users| - 1];
      if Key(last) == key then AsPaise(Rupees(init) + last.balance) else init
  }

  /** The money at an address: each balance rounded by itself. */
  function PaiseAt(users: seq<LegacyUser>, key: string): int {
    if users == [] then 0
    else
      var init, last := PaiseAt(users[..|users| - 1], key), users[|users| - 1];
      if Key(last) == key then init + AsPaise(last.balance) else init
  }

  /** The first name given at an address that is not empty. */
  function NameAt(users: seq<LegacyUser>, key: string): Option<string> {
    if users == [] then None
    else
      var init, last := NameAt(users[..|users| - 1], key), users[|users| - 1];
      if Truthy(init) then init else if Key(last) == key && Truthy(last.fullName) then last.fullName else None
  }

  function TotalPaise(users: seq<LegacyUser>): int {
    if users == [] then 0 else TotalPaise(users[..|users| - 1]) + AsPaise(users[|users| - 1].balance)
  }

  function Owns(r: Recipient): seq<nat> { [r.legacyId] + r.mergedFrom }

  predicate Faithful(r: Recipient, users: seq<LegacyUser>) {
    var first := FirstAt(users, r.email);
    && Owns(r) == IdsAt(users, r.email)
    && first.Some? && r.password == first.value.password && r.isActive == first.value.isActive
    && r.balance == HeldAt(users, r.email)
    && (Truthy(NameAt(users, r.email)) ==> r.fullName == NameAt(users, r.email))
    && (!Truthy(NameAt(users, r.email)) ==> !Truthy(r.fullName))
  }

  lemma {:induction false} NobodyAt(users: seq<LegacyUser>, key: string)
    requires key !in FirstSeen(users)
    ensures IdsAt(users, key) == [] && FirstAt(users, key) == None
    ensures HeldAt(users, key) == 0 && NameAt(users, key) == None
  {
    if users != [] {
      NobodyAt(users[..|users| - 1], key);
    }
  }

  function Emails(recipients: seq<Recipient>): (emails: seq<string>)
    ensures |emails| == |recipients|
    ensures forall i :: 0 <= i < |recipients| ==> emails[i] == recipients[i].email
  {
    if recipients == [] then [] else Emails(recipients[..|recipients| - 1]) + [recipients[|recipients| - 1].email]
  }

  lemma {:induction false} AddressesAreApart(users: seq<LegacyUser>)
    ensures forall i, j :: 0 <= i < j < |FirstSeen(users)| ==> FirstSeen(users)[i] != FirstSeen(users)[j]
  {
    if users != [] {
      AddressesAreApart(users[..|users| - 1]);
    }
  }

  lemma AddingAnAddress(recipients: seq<Recipient>, last: LegacyUser)
    ensures Find(recipients, Key(last)).None? <==> Key(last) !in Emails(recipients)
    ensures Emails(Add(recipients, last)) == if Key(last) in Emails(recipients) then Emails(recipients)
                                             else Emails(recipients) + [Key(last)]
  {
    var k, key := Find(recipients, Key(last)), Key(last);
    if k.Some? {
      assert Emails(recipients)[k.value] == key;
    } else {
      assert Add(recipients, last)[..|recipients|] == recipients;
    }
  }

  /** One recipient for each folded address, in the order the addresses are first seen. */
  lemma {:induction false} OneRecipientPerAddress(users: seq<LegacyUser>)
    ensures Emails(PlanOf(users)) == FirstSeen(users)
    ensures forall i, j :: 0 <= i < j < |FirstSeen(users)| ==> FirstSeen(users)[i] != FirstSeen(users)[j]
  {
    AddressesAreApart(users);
    if users != [] {
      var init := users[..|users| - 1];
      OneRecipientPerAddress(init);
      AddingAnAddress(PlanOf(init), users[|users| - 1]);
    }
  }

  lemma AddingToAnAddress(r: Recipient, users: seq<LegacyUser>, last: LegacyUser)
    requires Faithful(r, users)
    ensures Faithful(if Key(last) == r.email then Merged(r, last) else r, users + [last])
  {
    var all := users + [last];
    assert all[..|users|] == users && all[|users|] == last;
    if Key(last) == r.email {
      assert Owns(Merged(r, last)) == Owns(r) + [last.id];
    }
  }

  lemma StartingAnAddress(users: seq<LegacyUser>, last: LegacyUser)
    requires Key(last) !in FirstSeen(users)
    ensures Faithful(NewRecipient(last), users + [last])
  {
    var all := users + [last];
    assert all[..|users|] == users && all[|users|] == last;
    NobodyAt(users, Key(last));
  }

  predicate AllFaithful(recipients: seq<Recipient>, users: seq<LegacyUser>) {
    forall i :: 0 <= i < |recipients| ==> Faithful(recipients[i], users)
  }

  predicate Apart(rs: seq<Recipient>) {
    forall i, j :: 0 <= i < j < |rs| ==> rs[i].email != rs[j].email
  }

  lemma EachAddressOnce(users: seq<LegacyUser>)
    ensures Apart(PlanOf(users))
  {
    OneRecipientPerAddress(users);
    var rs := PlanOf(users);
    forall i, j | 0 <= i < j < |rs| ensures rs[i].email != rs[j].email {
      assert Emails(rs)[i] != Emails(rs)[j];
    }
  }

  lemma AddingIsFaithful(recipients: seq<Recipient>, users: seq<LegacyUser>, last: LegacyUser)
    requires AllFaithful(recipients, users)
    requires Emails(recipients) == FirstSeen(users) && Apart(recipients)
    ensures AllFaithful(Add(recipients, last), users + [last])
  {
    var k := Find(recipients, Key(last));
    var after := Add(recipients, last);
    if k.None? {
      assert forall i :: 0 <= i < |recipients| ==> Emails(recipients)[i] != Key(last);
      StartingAnAddress(users, last);
    }
    forall i | 0 <= i < |recipients| ensures Faithful(after[i], users + [last]) {
      assert Faithful(recipients[i], users);
      AddingToAnAddress(recipients[i], users, last);
      assert k.Some? && i != k.value ==> recipients[i].email != recipients[k.value].email;
    }
  }

  lemma PlanStaysFaithful(users: seq<LegacyUser>, last: LegacyUser)
    requires AllFaithful(PlanOf(users), users)
    ensures AllFaithful(PlanOf(users + [last]), users + [last])
  {
    OneRecipientPerAddress(users);
    EachAddressOnce(users);
    AddingIsFaithful(PlanOf(users), users, last);
    assert (users + [last])[..|users|] == users;
  }

  /** For every list: each recipient owns exactly the legacy accounts at its address, oldest first,
      is the oldest of them, holds what their balances come to, and goes by the first name any gave. */
  lemma {:induction false} PlanIsFaithful(users: seq<LegacyUser>)
    ensures AllFaithful(PlanOf(users), users)
  {
    if users != [] {
      var init, last := users[..|users| - 1], users[|users| - 1];
      PlanIsFaithful(init);
      PlanStaysFaithful(init, last);
      assert users == init + [last];
    }
  }

  // ── conservation ──────────────────────────────────────────────────────────

  function PlannedPaise(recipients: seq<Recipient>): int {
    if recipients == [] then 0 else PlannedPaise(recipients[..|recipients| - 1]) + recipients[|recipients| - 1].balance
  }

  function MergedAway(recipients: seq<Recipient>): nat {
    if recipients == [] then 0
    else MergedAway(recipients[..|recipients| - 1]) + |recipients[|recipients| - 1].mergedFrom|
  }

  function Occurs(ids: seq<nat>, id: nat): nat {
    if ids == [] then 0 else Occurs(ids[..|ids| - 1], id) + (if ids[|ids| - 1] == id then 1 else 0)
  }

  /** How often a legacy id appears in the plan, as an owner or as merged. */
  function PlannedTimes(recipients: seq<Recipient>, id: nat): nat {
    if recipients == [] then 0
    else PlannedTimes(recipients[..|recipients| - 1], id) + Occurs(Owns(recipients[|recipients| - 1]), id)
  }

  function ReadTimes(users: seq<LegacyUser>, id: nat): nat {
    if users == [] then 0 else ReadTimes(users[..|users| - 1], id) + (if users[|users| - 1].id == id then 1 else 0)
  }

  lemma {:induction false} PaiseUpdate(recipients: seq<Recipient>, k: nat, r: Recipient)
    requires k < |recipients|
    ensures PlannedPaise(recipients[k := r]) == PlannedPaise(recipients) - recipients[k].balance + r.balance
  {
    var n, after := |recipients| - 1, recipients[k := r];
    if k < n {
      PaiseUpdate(recipients[..n], k, r);
      assert after[..n] == recipients[..n][k := r];
    } else {
      assert after[..n] == recipients[..n];
    }
  }

  lemma {:induction false} MergedAwayUpdate(recipients: seq<Recipient>, k: nat, r: Recipient)
    requires k < |recipients|
    ensures MergedAway(recipients[k := r]) == MergedAway(recipients) - |recipients[k].mergedFrom| + |r.mergedFrom|
  {
    var n, after := |recipients| - 1, recipients[k := r];
    if k < n {
      MergedAwayUpdate(recipients[..n], k, r);
      assert after[..n] == recipients[..n][k := r];
    } else {
      assert after[..n] == recipients[..n];
    }
  }

  lemma {:induction false} TimesUpdate(recipients: seq<Recipient>, k: nat, r: Recipient, id: nat)
    requires k < |recipients|
    ensures PlannedTimes(recipients[k := r], id)
         == PlannedTimes(recipients, id) - Occurs(Owns(recipients[k]), id) + Occurs(Owns(r), id)
  {
    var n, after := |recipients| - 1, recipients[k := r];
    if k < n {
      TimesUpdate(recipients[..n], k, r, id);
      assert after[..n] == recipients[..n][k := r];
    } else {
      assert after[..n] == recipients[..n];
    }
  }

  lemma OwnsOneMore(r: Recipient, last: LegacyUser, id: nat)
    ensures Occurs(Owns(Merged(r, last)), id) == Occurs(Owns(r), id) + (if last.id == id then 1 else 0)
  {
    var all := Owns(r) + [last.id];
    assert Owns(Merged(r, last)) == all && all[..|all| - 1] == Owns(r);
  }

  lemma OwnsItself(last: LegacyUser, id: nat)
    ensures Occurs(Owns(NewRecipient(last)), id) == if last.id == id then 1 else 0
  {
  }

  /** Every legacy id appears in the plan exactly as often as it was read. */
  lemma {:induction false} EveryIdOnce(users: seq<LegacyUser>, id: nat)
    ensures PlannedTimes(PlanOf(users), id) == ReadTimes(users, id)
  {
    if users != [] {
      var init, last := users[..|users| - 1], users[|users| - 1];
      EveryIdOnce(init, id);
      var before, after := PlanOf(init), PlanOf(users);
      var k := Find(before, Key(last));
      if k.None? {
        assert after[..|before|] == before;
        OwnsItself(last, id);
      } else {
        TimesUpdate(before, k.value, Merged(before[k.value], last), id);
        OwnsOneMore(before[k.value], last, id);
      }
    }
  }

  /** As many rows were merged away as there were beyond the distinct addresses. */
  lemma {:induction false} MergedAreTheRepeats(users: seq<LegacyUser>)
    ensures MergedAway(PlanOf(users)) == |users| - |FirstSeen(users)|
    ensures |PlanOf(users)| == |FirstSeen(users)|
  {
    if users != [] {
      var init, last := users[..|users| - 1], users[|users| - 1];
      MergedAreTheRepeats(init);
      OneRecipientPerAddress(init);
      OneRecipientPerAddress(users);
      var before, after := PlanOf(init), PlanOf(users);
      assert |Emails(after)| == |after|;
      var k := Find(before, Key(last));
      if k.None? {
        assert after[..|before|] == before;
      } else {
        MergedAwayUpdate(before, k.value, Merged(before[k.value], last));
      }
    }
  }

  // ── to the paisa ──────────────────────────────────────────────────────────

  /** What merging the last account makes of the money, over its balance rounded by itself. */
  function LastDrift(users: seq<LegacyUser>): int
    requires users != []
  {
    var last := users[|users| - 1];
    Drift(HeldAt(users[..|users| - 1], Key(last)), last.balance)
  }

  /** How many debts ending in half a paisa were merged into money that covered them. */
  function CarriedUp(users: seq<LegacyUser>): nat {
    if users == [] then 0 else CarriedUp(users[..|users| - 1]) + (if LastDrift(users) > 0 then 1 else 0)
  }

  /** How many balances ending in half a paisa were merged into a debt they did not clear. */
  function CarriedDown(users: seq<LegacyUser>): nat {
    if users == [] then 0 else CarriedDown(users[..|users| - 1]) + (if LastDrift(users) < 0 then 1 else 0)
  }

  lemma {:induction false} BalanceAtItsAddress(users: seq<LegacyUser>, key: string)
    ensures var k := Find(PlanOf(users), key);
            HeldAt(users, key) == if k.Some? then PlanOf(users)[k.value].balance else 0
  {
    var recipients := PlanOf(users);
    var k := Find(recipients, key);
    OneRecipientPerAddress(users);
    if k.None? {
      assert forall i :: 0 <= i < |recipients| ==> Emails(recipients)[i] != key;
      NobodyAt(users, key);
    } else {
      PlanIsFaithful(users);
      assert Faithful(recipients[k.value], users);
    }
  }

  lemma {:induction false} AddingPaise(recipients: seq<Recipient>, last: LegacyUser)
    ensures var k := Find(recipients, Key(last));
            PlannedPaise(Add(recipients, last)) == PlannedPaise(recipients) + AsPaise(last.balance)
              + Drift(if k.Some? then recipients[k.value].balance else 0, last.balance)
  {
    var k := Find(recipients, Key(last));
    if k.None? {
      assert Add(recipients, last)[..|recipients|] == recipients;
      TranslatingDrifts(0, last.balance);
    } else {
      PaiseUpdate(recipients, k.value, Merged(recipients[k.value], last));
      TranslatingDrifts(recipients[k.value].balance, last.balance);
    }
  }

  lemma {:induction false} AddingDrifts(users: seq<LegacyUser>, last: LegacyUser)
    ensures var all := users + [last];
            PlannedPaise(PlanOf(all)) == PlannedPaise(PlanOf(users)) + AsPaise(last.balance) + LastDrift(all)
  {
    assert (users + [last])[..|users|] == users;
    BalanceAtItsAddress(users, Key(last));
    AddingPaise(PlanOf(users), last);
  }

  lemma {:induction false} OneMoreCarried(users: seq<LegacyUser>, last: LegacyUser)
    ensures var all := users + [last];
            && CarriedUp(all) - CarriedDown(all) == CarriedUp(users) - CarriedDown(users) + LastDrift(all)
            && TotalPaise(all) == TotalPaise(users) + AsPaise(last.balance)
  {
    assert (users + [last])[..|users|] == users;
  }

  /** For every list, the money planned is the legacy money, each balance rounded by itself, and one
      paisa more for each tie carried up across zero and one less for each carried down. */
  lemma {:induction false} MoneyIsPlannedExactly(users: seq<LegacyUser>)
    ensures PlannedPaise(PlanOf(users)) == TotalPaise(users) + CarriedUp(users) - CarriedDown(users)
  {
    if users != [] {
      var init, last := users[..|users| - 1], users[|users| - 1];
      MoneyIsPlannedExactly(init);
      AddingDrifts(init, last);
      OneMoreCarried(init, last);
      assert users == init + [last];
    }
  }

  /** So no paisa is made or lost exactly when as many ties are carried up as down. */
  lemma NoPaisaIsLostExactlyWhen(users: seq<LegacyUser>)
    ensures PlannedPaise(PlanOf(users)) == TotalPaise(users) <==> CarriedUp(users) == CarriedDown(users)
  {
    MoneyIsPlannedExactly(users);
  }

  /** Either no balance is below zero, or none falls halfway between two paise. */
  predicate Clean(users: seq<LegacyUser>) {
    || (forall i :: 0 <= i < |users| ==> users[i].balance >= 0.0)
    || (forall i :: 0 <= i < |users| ==> !IsTie(users[i].balance))
  }

  lemma CleanBefore(users: seq<LegacyUser>)
    requires users != [] && Clean(users)
    ensures Clean(users[..|users| - 1])
  {
  }

  lemma {:induction false} MoneyAtIsNonNegative(users: seq<LegacyUser>, key: string)
    requires forall i :: 0 <= i < |users| ==> users[i].balance >= 0.0
    ensures HeldAt(users, key) >= 0
  {
    if users != [] {
      MoneyAtIsNonNegative(users[..|users| - 1], key);
    }
  }

  lemma CleanNeverDrifts(users: seq<LegacyUser>)
    requires users != [] && Clean(users)
    ensures LastDrift(users) == 0
  {
    var n := |users| - 1;
    if forall i :: 0 <= i < |users| ==> users[i].balance >= 0.0 {
      MoneyAtIsNonNegative(users[..n], Key(users[n]));
    } else {
      assert !IsTie(users[n].balance);
    }
  }

  lemma {:induction false} CleanNeverCarries(users: seq<LegacyUser>)
    requires Clean(users)
    ensures CarriedUp(users) == 0 && CarriedDown(users) == 0
  {
    if users != [] {
      CleanBefore(users);
      CleanNeverCarries(users[..|users| - 1]);
      CleanNeverDrifts(users);
    }
  }

  /** The lists the migration is given hold no debt, so nothing is made or lost. */
  lemma NoPaisaIsLost(users: seq<LegacyUser>)
    requires Clean(users)
    ensures PlannedPaise(PlanOf(users)) == TotalPaise(users)
  {
    MoneyIsPlannedExactly(users);
    CleanNeverCarries(users);
  }

  /** Nor at any one address. */
  lemma {:induction false} EachAddressHoldsItsMoney(users: seq<LegacyUser>, key: string)
    requires Clean(users)
    ensures HeldAt(users, key) == PaiseAt(users, key)
  {
    if users != [] {
      var init, last := users[..|users| - 1], users[|users| - 1];
      CleanBefore(users);
      EachAddressHoldsItsMoney(init, key);
      CleanNeverDrifts(users);
      TranslatingDrifts(HeldAt(init, key), last.balance);
    }
  }

  /** A paisa, and then a debt of half a paisa at the same address: the plan holds a paisa nobody had. */
  lemma MergingADebtCanMakeAPaisa(first: LegacyUser, debt: LegacyUser)
    requires Key(first) == Key(debt) && first.balance == 0.01 && debt.balance == -0.005
    ensures PlannedPaise(PlanOf([first, debt])) == TotalPaise([first, debt]) + 1
  {
    TwoAtOneAddress(first, debt);
  }

  /** The other way about, a paisa goes. */
  lemma MergingIntoADebtCanLoseAPaisa(debt: LegacyUser, second: LegacyUser)
    requires Key(debt) == Key(second) && debt.balance == -0.01 && second.balance == 0.005
    ensures PlannedPaise(PlanOf([debt, second])) == TotalPaise([debt, second]) - 1
  {
    TwoAtOneAddress(debt, second);
  }

  lemma TwoAtOneAddress(a: LegacyUser, b: LegacyUser)
    requires Key(a) == Key(b)
    ensures PlannedPaise(PlanOf([a, b])) == TotalPaise([a, b]) + Drift(AsPaise(a.balance), b.balance)
  {
    assert [a, b][..1] == [a] && [a][..0] == [] && [] + [a] == [a] && [a] + [b] == [a, b];
    assert HeldAt([a], Key(b)) == AsPaise(a.balance);
    AddingDrifts([], a);
    assert LastDrift([a]) == 0 && TotalPaise([a]) == AsPaise(a.balance);
    AddingDrifts([a], b);
    assert LastDrift([a, b]) == Drift(AsPaise(a.balance), b.balance);
    assert TotalPaise([a, b]) == AsPaise(a.balance) + AsPaise(b.balance);
  }
}
