/** Telling an operator once: one open row per condition, counted, and one round of messages each
    time it opens. A row's index is its id, and rows are never deleted. */
module Alerts {
  import opened Outcomes

  const LOW_PAPER_SHEETS: int := 50
  const SERIOUS_AFTER: int := 3_600_000_000

  datatype Severity = Info | Warning | Critical

  function Rank(s: Severity): int {
    match s
    case Info => 0
    case Warning => 1
    case Critical => 2
  }

  // The dedupe keys: the two watchers' own, and anything else that is reported.
  datatype Key = Offline(kiosk: nat) | Paper(kiosk: nat) | Other(name: nat)

  datatype Alert = Alert(key: Key, severity: Severity, resolved: bool, occurrences: nat, lastSeen: int)

  type Rows = seq<Alert>

  predicate OpenFor(a: Alert, key: Key) { a.key == key && !a.resolved }

  function FirstOpen(rows: Rows, key: Key): (k: Option<nat>)
    ensures k.Some? ==> k.value < |rows| && OpenFor(rows[k.value], key)
    ensures k.None? ==> forall i :: 0 <= i < |rows| ==> !OpenFor(rows[i], key)
  {
    if rows == [] then None
    else
      var k := FirstOpen(rows[..|rows| - 1], key);
      if k.Some? then k else if OpenFor(rows[|rows| - 1], key) then Some(|rows| - 1) else None
  }

  function Bumped(a: Alert, severity: Severity, now: int): Alert {
    a.(occurrences := a.occurrences + 1, lastSeen := now,
       severity := if Rank(severity) > Rank(a.severity) then severity else a.severity)
  }

  /** `raise_alert`: the rows afterwards, and the row answered with. */
  function Raised(rows: Rows, key: Key, severity: Severity, now: int): (r: (Rows, nat))
    ensures r.1 < |r.0|
  {
    var k := FirstOpen(rows, key);
    if k.Some? then (rows[k.value := Bumped(rows[k.value], severity, now)], k.value)
    else (rows + [Alert(key, severity, false, 1, now)], |rows|)
  }

  /** `resolve`: closing a closed alert is nothing, and not an error. */
  function Resolved(rows: Rows, id: nat): Rows {
    if id < |rows| then rows[id := rows[id].(resolved := true)] else rows
  }

  /** `resolve_by_key` */
  function Cleared(rows: Rows, key: Key): Rows {
    var k := FirstOpen(rows, key);
    if k.Some? then rows[k.value := rows[k.value].(resolved := true)] else rows
  }

  // ── the sweeps ────────────────────────────────────────────────────────────

  // What one pass finds of one kiosk: nothing wrong, or how bad it is.
  datatype Finding = Finding(key: Key, problem: Option<Severity>)

  // What the console holds, and every round of messages ever sent, by its key.
  datatype Desk = Desk(rows: Rows, told: seq<Key>)

  /** What both watchers do about one kiosk: clear the alert, or raise it and write only if it is new. */
  function Watched(d: Desk, f: Finding, now: int): Desk {
    if f.problem.None? then Desk(Cleared(d.rows, f.key), d.told)
    else
      var (rows, id) := Raised(d.rows, f.key, f.problem.value, now);
      Desk(rows, if rows[id].occurrences == 1 then d.told + [f.key] else d.told)
  }

  function Swept(d: Desk, fs: seq<Finding>, now: int): Desk {
    if fs == [] then d else Watched(Swept(d, fs[..|fs| - 1], now), fs[|fs| - 1], now)
  }

  // A selling kiosk's device: none, never heard from, or last heard from at an instant.
  datatype Device = NoDevice | NeverSeen | LastSeen(at: int, online: bool)

  /** What `watch_offline_kiosks` makes of a kiosk. */
  function OfflineFinding(kiosk: nat, device: Device, now: int): Finding {
    match device
    case LastSeen(at, online) =>
      Finding(Offline(kiosk), if online then None
                               else if now - at >= SERIOUS_AFTER then Some(Critical) else Some(Warning))
    case _ => Finding(Offline(kiosk), Some(Critical))
  }

  datatype Shop = Shop(kiosk: nat, device: Device)

  function OfflineFindings(shops: seq<Shop>, now: int): seq<Finding> {
    if shops == [] then []
    else
      var last := shops[|shops| - 1];
      OfflineFindings(shops[..|shops| - 1], now) + [OfflineFinding(last.kiosk, last.device, now)]
  }

  /** What `watch_paper` makes of a tray. */
  function PaperFinding(kiosk: nat, remaining: int): Finding {
    Finding(Paper(kiosk), if remaining > LOW_PAPER_SHEETS then None
                          else if remaining == 0 then Some(Critical) else Some(Warning))
  }

  datatype Tray = Tray(kiosk: nat, remaining: int)

  function PaperFindings(trays: seq<Tray>): seq<Finding> {
    if trays == [] then []
    else PaperFindings(trays[..|trays| - 1]) + [PaperFinding(trays[|trays| - 1].kiosk, trays[|trays| - 1].remaining)]
  }

  /** A shop is well exactly while its machine is online; out of sight for less than an hour is a warning,
      and for an hour, or always, critical. */
  lemma HowAShopIsFound(kiosk: nat, device: Device, now: int)
    ensures var found := OfflineFinding(kiosk, device, now);
            && found.key == Offline(kiosk)
            && (found.problem == None <==> device.LastSeen? && device.online)
            && (found.problem == Some(Warning)
                <==> device.LastSeen? && !device.online && now - device.at < 3_600_000_000)
            && found.problem != Some(Info)
  {
  }

  /** A tray is well exactly above fifty sheets, and empty is worse than low. */
  lemma HowATrayIsFound(kiosk: nat, remaining: int)
    ensures var found := PaperFinding(kiosk, remaining);
            && found.key == Paper(kiosk)
            && (found.problem == None <==> remaining > 50)
            && (found.problem == Some(Critical) <==> remaining == 0)
            && found.problem != Some(Info)
  {
  }

  lemma SweptOneMore(d: Desk, fs: seq<Finding>, f: Finding, now: int)
    ensures Swept(d, fs + [f], now) == Watched(Swept(d, fs, now), f, now)
  {
  }

  class Console {
    var rows: Rows
    var told: seq<Key>

    constructor ()
      ensures rows == [] && told == []
    {
      rows, told := [], [];
    }

    /** The row answered with is open for the key, seen once more, and no milder than either what it was
        or what was reported; it is new exactly where none was open, and no other row is touched. */
    method RaiseAlert(key: Key, severity: Severity, now: int) returns (id: nat)
      modifies `rows
      ensures id < |rows| && OpenFor(rows[id], key) && Rank(rows[id].severity) >= Rank(severity)
      ensures rows[id].lastSeen == now
      ensures id == |old(rows)| <==> !IsOpen(old(rows), key)
      ensures id == |old(rows)| ==> rows[id].occurrences == 1 && rows[id].severity == severity
      ensures id < |old(rows)| ==>
                && OpenFor(old(rows)[id], key)
                && rows[id].occurrences == old(rows)[id].occurrences + 1
                && Rank(rows[id].severity) >= Rank(old(rows)[id].severity)
                && rows[id].severity in {severity, old(rows)[id].severity}
      ensures |old(rows)| <= |rows| && forall i :: 0 <= i < |old(rows)| && i != id ==> rows[i] == old(rows)[i]
      ensures OnePerKey(old(rows)) ==> OnePerKey(rows)
      ensures (rows, id) == Raised(old(rows), key, severity, now)
    {
      var existing := FirstOpen(rows, key);
      if existing.Some? {
        id := existing.value;
        var alert := rows[id];
        alert := alert.(occurrences := alert.occurrences + 1, lastSeen := now);
        if Rank(severity) > Rank(alert.severity) {
          alert := alert.(severity := severity);
        }
        rows := rows[id := alert];
      } else {
        id := |rows|;
        rows := rows + [Alert(key, severity, false, 1, now)];
      }
    }

    /** Closed it is, and stays if it was; every other row is as it was. */
    method Resolve(id: nat)
      modifies `rows
      ensures |rows| == |old(rows)| && (id < |rows| ==> rows[id] == old(rows)[id].(resolved := true))
      ensures forall i :: 0 <= i < |rows| && i != id ==> rows[i] == old(rows)[i]
      ensures rows == Resolved(old(rows), id)
    {
      if id < |rows| && !rows[id].resolved {
        rows := rows[id := rows[id].(resolved := true)];
      }
    }

    /** Nothing is open for the key afterwards, and every other row is as it was. */
    method ResolveByKey(key: Key)
      modifies `rows
      ensures OnePerKey(old(rows)) ==> OnePerKey(rows) && !IsOpen(rows, key)
      ensures |rows| == |old(rows)|
      ensures forall i :: 0 <= i < |rows| ==>
                rows[i] == old(rows)[i] || (OpenFor(old(rows)[i], key) && rows[i] == old(rows)[i].(resolved := true))
      ensures rows == Cleared(old(rows), key)
    {
      var existing := FirstOpen(rows, key);
      if existing.Some? {
        rows := rows[existing.value := rows[existing.value].(resolved := true)];
      }
    }

    /** One shop of `watch_offline_kiosks`. */
    method WatchShop(shop: Shop, now: int)
      modifies this
      ensures Desk(rows, told) == Watched(old(Desk(rows, told)), OfflineFinding(shop.kiosk, shop.device, now), now)
    {
      if shop.device.LastSeen? && shop.device.online {
        ResolveByKey(Offline(shop.kiosk));
        return;
      }
      var severity := Critical;
      if shop.device.LastSeen? && now - shop.device.at < SERIOUS_AFTER {
        severity := Warning;
      }
      var id := RaiseAlert(Offline(shop.kiosk), severity, now);
      // Only when the alert is new.
      if rows[id].occurrences == 1 {
        told := told + [Offline(shop.kiosk)];
      }
    }

    method WatchOfflineKiosks(shops: seq<Shop>, now: int)
      modifies this
      ensures Desk(rows, told) == Swept(old(Desk(rows, told)), OfflineFindings(shops, now), now)
    {
      for i := 0 to |shops|
        invariant Desk(rows, told) == Swept(old(Desk(rows, told)), OfflineFindings(shops[..i], now), now)
      {
        assert shops[..i + 1][..i] == shops[..i];
        SweptOneMore(old(Desk(rows, told)), OfflineFindings(shops[..i], now),
                     OfflineFinding(shops[i].kiosk, shops[i].device, now), now);
        WatchShop(shops[i], now);
      }
      assert shops[..|shops|] == shops;
    }

    /** One tray of `watch_paper`. */
    method WatchTray(tray: Tray, now: int)
      modifies this
      ensures Desk(rows, told) == Watched(old(Desk(rows, told)), PaperFinding(tray.kiosk, tray.remaining), now)
    {
      if tray.remaining > LOW_PAPER_SHEETS {
        ResolveByKey(Paper(tray.kiosk));
        return;
      }
      var severity := if tray.remaining == 0 then Critical else Warning;
      var id := RaiseAlert(Paper(tray.kiosk), severity, now);
      if rows[id].occurrences == 1 {
        told := told + [Paper(tray.kiosk)];
      }
    }

    method WatchPaper(trays: seq<Tray>, now: int)
      modifies this
      ensures Desk(rows, told) == Swept(old(Desk(rows, told)), PaperFindings(trays), now)
    {
      for i := 0 to |trays|
        invariant Desk(rows, told) == Swept(old(Desk(rows, told)), PaperFindings(trays[..i]), now)
      {
        assert trays[..i + 1][..i] == trays[..i];
        SweptOneMore(old(Desk(rows, told)), PaperFindings(trays[..i]),
                     PaperFinding(trays[i].kiosk, trays[i].remaining), now);
        WatchTray(trays[i], now);
      }
      assert trays[..|trays|] == trays;
    }
  }

  // ── whole histories ───────────────────────────────────────────────────────

  // A watcher looks, somebody else reports, a person resolves, or a detector clears its own key.
  datatype Op =
    | Watch(finding: Finding, now: int)
    | Report(name: nat, severity: Severity, now: int)
    | Close(id: nat)
    | Clear(key: Key)

  function Apply(d: Desk, op: Op): Desk {
    match op
    case Watch(finding, now) => Watched(d, finding, now)
    case Report(name, severity, now) => d.(rows := Raised(d.rows, Other(name), severity, now).0)
    case Close(id) => d.(rows := Resolved(d.rows, id))
    case Clear(key) => d.(rows := Cleared(d.rows, key))
  }

  function Run(d: Desk, ops: seq<Op>): Desk {
    if ops == [] then d else Apply(Run(d, ops[..|ops| - 1]), ops[|ops| - 1])
  }

  /** A sweep is its findings, one after another. */
  function Watches(fs: seq<Finding>, now: int): seq<Op> {
    if fs == [] then [] else Watches(fs[..|fs| - 1], now) + [Watch(fs[|fs| - 1], now)]
  }

  lemma {:induction false} SweepIsItsFindings(d: Desk, fs: seq<Finding>, now: int)
    ensures Swept(d, fs, now) == Run(d, Watches(fs, now))
  {
    if fs != [] {
      var init := Watches(fs[..|fs| - 1], now);
      SweepIsItsFindings(d, fs[..|fs| - 1], now);
      assert (init + [Watch(fs[|fs| - 1], now)])[..|init|] == init;
    }
  }

  /** What this operation reports about a key, if it reports anything. */
  function Reports(op: Op, key: Key): Option<Severity> {
    match op
    case Watch(finding, _) => if finding.key == key then finding.problem else None
    case Report(name, severity, _) => if Other(name) == key then Some(severity) else None
    case _ => None
  }

  predicate IsOpen(rows: Rows, key: Key) { exists i :: 0 <= i < |rows| && OpenFor(rows[i], key) }

  /** The severities reported about a key since its alert opened; nothing while none is open. */
  function Episode(ops: seq<Op>, key: Key): seq<Severity> {
    if ops == [] then []
    else
      var init, op := ops[..|ops| - 1], ops[|ops| - 1];
      if Reports(op, key).Some? then Episode(init, key) + [Reports(op, key).value]
      else if IsOpen(Run(Desk([], []), ops).rows, key) then Episode(init, key) else []
  }

  function Worst(ss: seq<Severity>): Severity
    requires ss != []
  {
    if |ss| == 1 then ss[0]
    else var w := Worst(ss[..|ss| - 1]); if Rank(ss[|ss| - 1]) > Rank(w) then ss[|ss| - 1] else w
  }

  lemma {:induction false} WorstIsTheMaximum(ss: seq<Severity>)
    requires ss != []
    ensures Worst(ss) in ss && forall i :: 0 <= i < |ss| ==> Rank(ss[i]) <= Rank(Worst(ss))
  {
    if |ss| > 1 {
      WorstIsTheMaximum(ss[..|ss| - 1]);
    }
  }

  predicate OnePerKey(rows: Rows) {
    forall i, j :: 0 <= i < j < |rows| && !rows[i].resolved && !rows[j].resolved ==> rows[i].key != rows[j].key
  }

  predicate Tells(a: Alert, episode: seq<Severity>) {
    episode != [] && a.occurrences == |episode| && a.severity == Worst(episode)
  }

  /** The open row of a key counts its reports since it opened, and wears the worst of them. */
  predicate EpisodeTold(rows: Rows, key: Key, episode: seq<Severity>) {
    && (forall i :: 0 <= i < |rows| && OpenFor(rows[i], key) ==> Tells(rows[i], episode))
    && (!IsOpen(rows, key) ==> episode == [])
  }

  lemma StepKeepsOnePerKey(d: Desk, op: Op)
    requires OnePerKey(d.rows)
    ensures OnePerKey(Apply(d, op).rows)
  {
  }

  lemma RaisingTells(rows: Rows, key: Key, severity: Severity, now: int, episode: seq<Severity>)
    requires OnePerKey(rows) && EpisodeTold(rows, key, episode)
    ensures EpisodeTold(Raised(rows, key, severity, now).0, key, episode + [severity])
  {
    var all := episode + [severity];
    assert all[..|episode|] == episode;
    var k := FirstOpen(rows, key);
    if k.Some? {
      assert OpenFor(Raised(rows, key, severity, now).0[k.value], key);
      assert Tells(rows[k.value], episode);
    } else {
      assert OpenFor(Raised(rows, key, severity, now).0[|rows|], key);
    }
  }

  /** An operation that reports nothing about a key leaves its open alert alone, or closes it. */
  lemma OthersLeaveItAlone(d: Desk, op: Op, key: Key)
    requires OnePerKey(d.rows) && Reports(op, key).None?
    ensures var after := Apply(d, op).rows;
            && (forall i :: 0 <= i < |after| && OpenFor(after[i], key) ==> i < |d.rows| && after[i] == d.rows[i])
            && (forall key' :: Reports(op, key').Some? ==> key' != key)
  {
  }

  lemma ReportingIsRaising(d: Desk, op: Op, key: Key)
    requires Reports(op, key).Some?
    ensures exists now :: Apply(d, op).rows == Raised(d.rows, key, Reports(op, key).value, now).0
  {
    var now := if op.Watch? then op.now else if op.Report? then op.now else 0;
    assert Apply(d, op).rows == Raised(d.rows, key, Reports(op, key).value, now).0;
  }

  /** Over every history: at most one alert is open per key; its occurrences are the reports since
      it opened, and its severity the worst of them. */
  lemma {:induction false} AlertsTellTheirEpisode(ops: seq<Op>, key: Key)
    ensures OnePerKey(Run(Desk([], []), ops).rows)
    ensures EpisodeTold(Run(Desk([], []), ops).rows, key, Episode(ops, key))
  {
    if ops != [] {
      var init, op := ops[..|ops| - 1], ops[|ops| - 1];
      var before := Run(Desk([], []), init);
      AlertsTellTheirEpisode(init, key);
      StepKeepsOnePerKey(before, op);
      if Reports(op, key).Some? {
        ReportingIsRaising(before, op, key);
        var now :| Apply(before, op).rows == Raised(before.rows, key, Reports(op, key).value, now).0;
        RaisingTells(before.rows, key, Reports(op, key).value, now, Episode(init, key));
      } else {
        OthersLeaveItAlone(before, op, key);
        var after := Apply(before, op).rows;
        forall i | 0 <= i < |after| && OpenFor(after[i], key) ensures Tells(after[i], Episode(ops, key)) {
          assert IsOpen(after, key);
          assert OpenFor(before.rows[i], key);
        }
      }
    }
  }

  function RowsFor(rows: Rows, key: Key): nat {
    if rows == [] then 0 else RowsFor(rows[..|rows| - 1], key) + (if rows[|rows| - 1].key == key then 1 else 0)
  }

  function TimesTold(told: seq<Key>, key: Key): nat {
    if told == [] then 0 else TimesTold(told[..|told| - 1], key) + (if told[|told| - 1] == key then 1 else 0)
  }

  lemma {:induction false} SameKeysSameCount(a: Rows, b: Rows, key: Key)
    requires |a| == |b| && forall i :: 0 <= i < |a| ==> a[i].key == b[i].key
    ensures RowsFor(a, key) == RowsFor(b, key)
  {
    if a != [] { SameKeysSameCount(a[..|a| - 1], b[..|b| - 1], key); }
  }

  predicate Counted(rows: Rows) { forall i :: 0 <= i < |rows| ==> rows[i].occurrences >= 1 }

  lemma RaisingCounts(rows: Rows, key: Key, severity: Severity, now: int, other: Key)
    requires Counted(rows)
    ensures var (after, id) := Raised(rows, key, severity, now);
            && Counted(after)
            && RowsFor(after, other)
               == RowsFor(rows, other) + (if after[id].occurrences == 1 && other == key then 1 else 0)
  {
    var (after, id) := Raised(rows, key, severity, now);
    if FirstOpen(rows, key).Some? {
      SameKeysSameCount(rows, after, other);
    } else {
      assert after[..|rows|] == rows;
    }
  }

  lemma ToldOneMore(told: seq<Key>, key: Key, other: Key)
    ensures TimesTold(told + [key], other) == TimesTold(told, other) + (if key == other then 1 else 0)
  {
  }

  lemma WatchingTellsOnce(d: Desk, f: Finding, now: int, key: Key)
    requires Counted(d.rows) && TimesTold(d.told, key) == RowsFor(d.rows, key)
    ensures Counted(Watched(d, f, now).rows)
    ensures TimesTold(Watched(d, f, now).told, key) == RowsFor(Watched(d, f, now).rows, key)
  {
    if f.problem.Some? {
      RaisingCounts(d.rows, f.key, f.problem.value, now, key);
      ToldOneMore(d.told, f.key, key);
    } else {
      SameKeysSameCount(d.rows, Watched(d, f, now).rows, key);
    }
  }

  lemma StepTellsOnce(d: Desk, op: Op, key: Key)
    requires Counted(d.rows) && !key.Other? && TimesTold(d.told, key) == RowsFor(d.rows, key)
    ensures Counted(Apply(d, op).rows)
    ensures TimesTold(Apply(d, op).told, key) == RowsFor(Apply(d, op).rows, key)
  {
    match op {
      case Watch(finding, now) => WatchingTellsOnce(d, finding, now, key);
      case Report(name, severity, now) => RaisingCounts(d.rows, Other(name), severity, now, key);
      case Close(id) => SameKeysSameCount(d.rows, Resolved(d.rows, id), key);
      case Clear(k) => SameKeysSameCount(d.rows, Cleared(d.rows, k), key);
    }
  }

  /** Over every run of sweeps, reports and resolutions, a shop's people are written to exactly as
      often as an alert about it was opened: once per episode. */
  lemma {:induction false} ToldOncePerEpisode(ops: seq<Op>, key: Key)
    requires !key.Other?
    ensures var d := Run(Desk([], []), ops);
            Counted(d.rows) && TimesTold(d.told, key) == RowsFor(d.rows, key)
  {
    if ops != [] {
      ToldOncePerEpisode(ops[..|ops| - 1], key);
      StepTellsOnce(Run(Desk([], []), ops[..|ops| - 1]), ops[|ops| - 1], key);
    }
  }

  // ── histories of whole sweeps ─────────────────────────────────────────────

  // A watcher's pass over all it watches, or one operation of anybody else.
  datatype Round = Sweep(findings: seq<Finding>, now: int) | Single(op: Op)

  function Rounds(d: Desk, rounds: seq<Round>): Desk {
    if rounds == [] then d
    else
      var before := Rounds(d, rounds[..|rounds| - 1]);
      match rounds[|rounds| - 1]
      case Sweep(findings, now) => Swept(before, findings, now)
      case Single(op) => Apply(before, op)
  }

  /** The same history, finding by finding. */
  function Spelled(rounds: seq<Round>): seq<Op> {
    if rounds == [] then []
    else
      var before := Spelled(rounds[..|rounds| - 1]);
      match rounds[|rounds| - 1]
      case Sweep(findings, now) => before + Watches(findings, now)
      case Single(op) => before + [op]
  }

  lemma {:induction false} RunJoins(d: Desk, a: seq<Op>, b: seq<Op>)
    ensures Run(d, a + b) == Run(Run(d, a), b)
  {
    if b == [] {
      assert a + b == a;
    } else {
      assert (a + b)[..|a + b| - 1] == a + b[..|b| - 1];
      RunJoins(d, a, b[..|b| - 1]);
    }
  }

  lemma {:induction false} RoundsAreRuns(d: Desk, rounds: seq<Round>)
    ensures Rounds(d, rounds) == Run(d, Spelled(rounds))
  {
    if rounds != [] {
      var init, last := rounds[..|rounds| - 1], rounds[|rounds| - 1];
      RoundsAreRuns(d, init);
      match last {
        case Sweep(findings, now) =>
          RunJoins(d, Spelled(init), Watches(findings, now));
          SweepIsItsFindings(Rounds(d, init), findings, now);
        case Single(op) =>
          assert (Spelled(init) + [op])[..|Spelled(init)|] == Spelled(init);
      }
    }
  }

  /** Over every history of whole sweeps with anything else between them: one alert at most is open
      per key and tells its episode, and a shop's people are written to once per alert opened. */
  lemma WholeSweepsTellOnce(rounds: seq<Round>, key: Key)
    ensures var d := Rounds(Desk([], []), rounds);
            && OnePerKey(d.rows) && EpisodeTold(d.rows, key, Episode(Spelled(rounds), key))
            && (!key.Other? ==> TimesTold(d.told, key) == RowsFor(d.rows, key))
  {
    RoundsAreRuns(Desk([], []), rounds);
    AlertsTellTheirEpisode(Spelled(rounds), key);
    if !key.Other? {
      ToldOncePerEpisode(Spelled(rounds), key);
    }
  }
}
