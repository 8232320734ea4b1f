/** What was taken and what went back: one filter, read as one total, by kiosk and by day.
    Amounts are paise; the columns hold whole paise, so rounding a sum changes nothing. */
module Earnings {
  import opened Outcomes

  const DAY: int := 86_400_000_000
  // Asia/Kolkata is five and a half hours ahead, all year.
  const OFFSET: int := 19_800_000_000

  datatype Kind = PrintOrder | WalletTopUp | Subscription

  datatype Status = Created | Captured | Failed | FullyRefunded | PartiallyRefunded

  datatype Payment = Payment(
    kind: Kind,
    kiosk: Option<nat>,
    byWallet: bool,
    amount: int,
    refunded: int,
    status: Status,
    capturedAt: Option<int>)

  // The window is half open; `None` leaves an end open.
  datatype Query = Query(kiosks: seq<nat>, since: Option<int>, until: Option<int>, includeWallet: bool)

  // The three figures that are added up. Net is the first less the second, and may be negative.
  datatype Column = Gross | Refunded | Count

  function Figure(p: Payment, c: Column): int {
    match c
    case Gross => p.amount
    case Refunded => p.refunded
    case Count => 1
  }

  predicate IsSettled(p: Payment) { p.status == Captured || p.status == PartiallyRefunded || p.status == FullyRefunded }

  /** The one filter. A payment never captured is in no bounded window. */
  predicate Counts(p: Payment, q: Query) {
    && IsSettled(p) && p.kind == PrintOrder
    && p.kiosk.Some? && p.kiosk.value in q.kiosks
    && (q.includeWallet || !p.byWallet)
    && (q.since.Some? ==> p.capturedAt.Some? && p.capturedAt.value >= q.since.value)
    && (q.until.Some? ==> p.capturedAt.Some? && p.capturedAt.value < q.until.value)
  }

  /** The sum of a column over the payments a query counts. */
  function Total(ps: seq<Payment>, q: Query, c: Column): int {
    if ps == [] then 0
    else Total(ps[..|ps| - 1], q, c) + (if Counts(ps[|ps| - 1], q) then Figure(ps[|ps| - 1], c) else 0)
  }

  /** A payment that came in later adds its own figures exactly if it bought prints, was settled and has not
      failed since, was taken at one of the kiosks, by a means asked about, within the window; and
      otherwise nothing. */
  lemma OnePaymentMore(ps: seq<Payment>, p: Payment, q: Query, c: Column)
    ensures var counted :=
              && p.kind == PrintOrder && p.status != Created && p.status != Failed
              && p.kiosk.Some? && p.kiosk.value in q.kiosks
              && (p.byWallet ==> q.includeWallet)
              && (q.since.Some? ==> p.capturedAt.Some? && q.since.value <= p.capturedAt.value)
              && (q.until.Some? ==> p.capturedAt.Some? && p.capturedAt.value < q.until.value);
            Total(ps + [p], q, c) == Total(ps, q, c)
              + (if !counted then 0
                 else if c == Gross then p.amount else if c == Refunded then p.refunded else 1)
  {
    assert (ps + [p])[..|ps|] == ps;
  }

  /** `earnings_for_kiosks` */
  function ForKiosks(ps: seq<Payment>, q: Query, c: Column): int {
    if q.kiosks == [] then 0 else Total(ps, q, c)
  }

  /** Windows that meet add up: nothing is counted twice and nothing lost at the boundary. */
  lemma {:induction false} AdjoiningWindowsAddUp(ps: seq<Payment>, q: Query, middle: int, c: Column)
    requires q.since.Some? ==> q.since.value <= middle
    requires q.until.Some? ==> middle <= q.until.value
    requires forall i :: 0 <= i < |ps| ==> ps[i].capturedAt.Some?
    ensures Total(ps, q.(until := Some(middle)), c) + Total(ps, q.(since := Some(middle)), c) == Total(ps, q, c)
    decreases |ps|
  {
    if ps != [] {
      AdjoiningWindowsAddUp(ps[..|ps| - 1], q, middle, c);
    }
  }

  // ── by kiosk ──────────────────────────────────────────────────────────────

  /** One kiosk's group. */
  function KioskTotal(ps: seq<Payment>, q: Query, kiosk: nat, c: Column): int {
    if ps == [] then 0
    else
      var last := ps[|ps| - 1];
      KioskTotal(ps[..|ps| - 1], q, kiosk, c)
      + (if Counts(last, q) && last.kiosk == Some(kiosk) then Figure(last, c) else 0)
  }

  /** `earnings_by_kiosk`: grouped, and every kiosk asked about present. */
  function ByKiosk(ps: seq<Payment>, q: Query, c: Column): map<nat, int> {
    map k | k in q.kiosks :: KioskTotal(ps, q, k, c)
  }

  /** A kiosk's share is what the same query totals when asked about it alone. */
  lemma {:induction false} AKioskIsAQuery(ps: seq<Payment>, q: Query, kiosk: nat, c: Column)
    requires kiosk in q.kiosks
    ensures KioskTotal(ps, q, kiosk, c) == Total(ps, q.(kiosks := [kiosk]), c)
  {
    if ps != [] { AKioskIsAQuery(ps[..|ps| - 1], q, kiosk, c); }
  }

  /** The kiosks asked about, each once. */
  function Distinct(ks: seq<nat>): (ds: seq<nat>)
    ensures forall k :: k in ds <==> k in ks
    ensures forall i, j :: 0 <= i < j < |ds| ==> ds[i] != ds[j]
  {
    if ks == [] then []
    else
      var init, last := Distinct(ks[..|ks| - 1]), ks[|ks| - 1];
      if last in init then init else init + [last]
  }

  function SumOver(split: map<nat, int>, ks: seq<nat>): int
    requires forall i :: 0 <= i < |ks| ==> ks[i] in split
  {
    if ks == [] then 0 else SumOver(split, ks[..|ks| - 1]) + split[ks[|ks| - 1]]
  }

  function KioskSums(ps: seq<Payment>, q: Query, ks: seq<nat>, c: Column): int {
    if ks == [] then 0 else KioskSums(ps, q, ks[..|ks| - 1], c) + KioskTotal(ps, q, ks[|ks| - 1], c)
  }

  /** The last payment is in the group of its own kiosk alone. */
  lemma {:induction false} OneMoreAtAKiosk(ps: seq<Payment>, q: Query, ks: seq<nat>, c: Column)
    requires ps != [] && forall i, j :: 0 <= i < j < |ks| ==> ks[i] != ks[j]
    ensures var p := ps[|ps| - 1];
            KioskSums(ps, q, ks, c)
            == KioskSums(ps[..|ps| - 1], q, ks, c) + (if Counts(p, q) && p.kiosk.value in ks then Figure(p, c) else 0)
    decreases |ks|
  {
    if ks != [] {
      OneMoreAtAKiosk(ps, q, ks[..|ks| - 1], c);
    }
  }

  lemma {:induction false} NothingAtKiosks(q: Query, ks: seq<nat>, c: Column)
    ensures KioskSums([], q, ks, c) == 0
  {
    if ks != [] { NothingAtKiosks(q, ks[..|ks| - 1], c); }
  }

  lemma {:induction false} KiosksPartition(ps: seq<Payment>, q: Query, ks: seq<nat>, c: Column)
    requires forall i, j :: 0 <= i < j < |ks| ==> ks[i] != ks[j]
    requires forall k :: k in ks <==> k in q.kiosks
    ensures KioskSums(ps, q, ks, c) == Total(ps, q, c)
    decreases |ps|
  {
    if ps == [] {
      NothingAtKiosks(q, ks, c);
    } else {
      KiosksPartition(ps[..|ps| - 1], q, ks, c);
      OneMoreAtAKiosk(ps, q, ks, c);
    }
  }

  lemma {:induction false} SplitIsKioskSums(ps: seq<Payment>, q: Query, ks: seq<nat>, c: Column)
    requires forall i :: 0 <= i < |ks| ==> ks[i] in q.kiosks
    ensures forall i :: 0 <= i < |ks| ==> ks[i] in ByKiosk(ps, q, c)
    ensures SumOver(ByKiosk(ps, q, c), ks) == KioskSums(ps, q, ks, c)
    decreases |ks|
  {
    if ks != [] { SplitIsKioskSums(ps, q, ks[..|ks| - 1], c); }
  }

  /** The split covers the kiosks asked about and no other, and over them, each taken once, every
      column adds up to the total. */
  lemma KiosksAddUp(ps: seq<Payment>, q: Query, c: Column)
    ensures ByKiosk(ps, q, c).Keys == set k | k in q.kiosks
    ensures forall i :: 0 <= i < |Distinct(q.kiosks)| ==> Distinct(q.kiosks)[i] in ByKiosk(ps, q, c)
    ensures SumOver(ByKiosk(ps, q, c), Distinct(q.kiosks)) == ForKiosks(ps, q, c)
  {
    var ks := Distinct(q.kiosks);
    SplitIsKioskSums(ps, q, ks, c);
    KiosksPartition(ps, q, ks, c);
    if q.kiosks == [] {
      assert ks == [];
    }
  }

  // ── by day ────────────────────────────────────────────────────────────────

  /** The date in the shop when a UTC instant falls, counted in days. */
  function DayOf(at: int): int { (at + OFFSET) / DAY }

  // What the query reads of a counted payment: its date, if it was ever captured, and its figures.
  datatype Row = Row(day: Option<int>, payment: Payment)

  function RowOf(p: Payment): Row {
    Row(if p.capturedAt.Some? then Some(DayOf(p.capturedAt.value)) else None, p)
  }

  function Rows(ps: seq<Payment>, q: Query): seq<Row> {
    if ps == [] then []
    else
      var init, last := Rows(ps[..|ps| - 1], q), ps[|ps| - 1];
      if Counts(last, q) then init + [RowOf(last)] else init
  }

  function RowsTotal(rows: seq<Row>, c: Column): int {
    if rows == [] then 0 else RowsTotal(rows[..|rows| - 1], c) + Figure(rows[|rows| - 1].payment, c)
  }

  /** One day's group. */
  function DayTotal(rows: seq<Row>, day: int, c: Column): int {
    if rows == [] then 0
    else
      var last := rows[|rows| - 1];
      DayTotal(rows[..|rows| - 1], day, c) + (if last.day == Some(day) then Figure(last.payment, c) else 0)
  }

  predicate AllDated(rows: seq<Row>) { forall i :: 0 <= i < |rows| ==> rows[i].day.Some? }

  predicate HasTakings(rows: seq<Row>, day: int) { exists i :: 0 <= i < |rows| && rows[i].day == Some(day) }

  // One bar of the chart.
  datatype DayEarnings = DayEarnings(day: int, gross: int, refunded: int, count: int)

  function Shown(d: DayEarnings, c: Column): int {
    match c
    case Gross => d.gross
    case Refunded => d.refunded
    case Count => d.count
  }

  /** The groups the query returns, by day. */
  function Grouped(rows: seq<Row>): map<int, DayEarnings> {
    map i | 0 <= i < |rows| && rows[i].day.Some? :: rows[i].day.value := Bar(rows, rows[i].day.value)
  }

  function Bar(rows: seq<Row>, day: int): DayEarnings {
    DayEarnings(day, DayTotal(rows, day, Gross), DayTotal(rows, day, Refunded), DayTotal(rows, day, Count))
  }

  // `min` and `max` cannot order a missing date, alone or among dates.
  datatype TypeError = TypeError

  function At(found: map<int, DayEarnings>, day: int): DayEarnings {
    if day in found then found[day] else DayEarnings(day, 0, 0, 0)
  }

  function Least(rows: seq<Row>): int
    requires rows != [] && AllDated(rows)
  {
    var last := rows[|rows| - 1].day.value;
    if |rows| == 1 then last else var rest := Least(rows[..|rows| - 1]); if last < rest then last else rest
  }

  function Greatest(rows: seq<Row>): int
    requires rows != [] && AllDated(rows)
  {
    var last := rows[|rows| - 1].day.value;
    if |rows| == 1 then last else var rest := Greatest(rows[..|rows| - 1]); if last > rest then last else rest
  }

  lemma {:induction false} DaysLieBetween(rows: seq<Row>)
    requires rows != [] && AllDated(rows)
    ensures HasTakings(rows, Least(rows)) && HasTakings(rows, Greatest(rows))
    ensures forall i :: 0 <= i < |rows| ==> Least(rows) <= rows[i].day.value <= Greatest(rows)
  {
    var n := |rows| - 1;
    assert rows[n].day == Some(rows[n].day.value);
    if n > 0 {
      var init := rows[..n];
      DaysLieBetween(init);
      var i :| 0 <= i < |init| && init[i].day == Some(Least(init));
      var j :| 0 <= j < |init| && init[j].day == Some(Greatest(init));
      assert rows[i] == init[i] && rows[j] == init[j];
    }
  }

  /** The unbroken series from one day to another. */
  function Series(found: map<int, DayEarnings>, first: int, last: int): seq<DayEarnings>
    decreases last - first + 1
  {
    if first > last then [] else Series(found, first, last - 1) + [At(found, last)]
  }

  /** What the chart shows: nothing when nothing counts, and no answer when a counted payment has
      no date. */
  function DaySeries(ps: seq<Payment>, q: Query): Result<seq<DayEarnings>, TypeError> {
    var rows := Rows(ps, q);
    if q.kiosks == [] || rows == [] then Ok([])
    else if !AllDated(rows) then Refused(TypeError)
    else Ok(Series(Grouped(rows), Least(rows), Greatest(rows)))
  }

  function SumSeries(series: seq<DayEarnings>, c: Column): int {
    if series == [] then 0 else SumSeries(series[..|series| - 1], c) + Shown(series[|series| - 1], c)
  }

  function DaySums(rows: seq<Row>, first: int, last: int, c: Column): int
    decreases last - first + 1
  {
    if first > last then 0 else DaySums(rows, first, last - 1, c) + DayTotal(rows, last, c)
  }

  /** The last row is in the group of its own day alone. */
  lemma {:induction false} OneMoreOnADay(rows: seq<Row>, first: int, last: int, c: Column)
    requires rows != [] && rows[|rows| - 1].day.Some?
    ensures var row := rows[|rows| - 1];
            DaySums(rows, first, last, c)
            == DaySums(rows[..|rows| - 1], first, last, c)
               + (if first <= row.day.value <= last then Figure(row.payment, c) else 0)
    decreases last - first + 1
  {
    if first <= last {
      OneMoreOnADay(rows, first, last - 1, c);
    }
  }

  lemma {:induction false} NothingOnDays(first: int, last: int, c: Column)
    ensures DaySums([], first, last, c) == 0
    decreases last - first + 1
  {
    if first <= last { NothingOnDays(first, last - 1, c); }
  }

  lemma {:induction false} DaysPartition(rows: seq<Row>, first: int, last: int, c: Column)
    requires AllDated(rows) && forall i :: 0 <= i < |rows| ==> first <= rows[i].day.value <= last
    ensures DaySums(rows, first, last, c) == RowsTotal(rows, c)
    decreases |rows|
  {
    if rows == [] {
      NothingOnDays(first, last, c);
    } else {
      DaysPartition(rows[..|rows| - 1], first, last, c);
      OneMoreOnADay(rows, first, last, c);
    }
  }

  lemma {:induction false} QuietDayIsZero(rows: seq<Row>, day: int, c: Column)
    requires !HasTakings(rows, day)
    ensures DayTotal(rows, day, c) == 0
  {
    if rows != [] {
      var init := rows[..|rows| - 1];
      forall i | 0 <= i < |init| ensures init[i].day != Some(day) {
        assert rows[i].day != Some(day);
      }
      QuietDayIsZero(init, day, c);
    }
  }

  /** The window cut down to one day as the shop keeps it, five and a half hours ahead of UTC. */
  function OnDay(q: Query, day: int): Query {
    var midnight := day * 86_400_000_000 - 19_800_000_000;
    var next := midnight + 86_400_000_000;
    q.(since := Some(if q.since.Some? && q.since.value > midnight then q.since.value else midnight),
       until := Some(if q.until.Some? && q.until.value < next then q.until.value else next))
  }

  lemma DayOfIsItsDay(at: int, day: int)
    ensures DayOf(at) == day
       <==> day * 86_400_000_000 - 19_800_000_000 <= at < day * 86_400_000_000 - 19_800_000_000 + 86_400_000_000
  {
  }

  lemma CountsOnItsDay(p: Payment, q: Query, day: int)
    ensures Counts(p, OnDay(q, day)) <==> Counts(p, q) && RowOf(p).day == Some(day)
  {
    if p.capturedAt.Some? {
      DayOfIsItsDay(p.capturedAt.value, day);
    }
  }

  lemma {:induction false} OneRowMore(ps: seq<Payment>, q: Query, day: int, c: Column)
    requires ps != []
    ensures var init, last := ps[..|ps| - 1], ps[|ps| - 1];
            DayTotal(Rows(ps, q), day, c) == DayTotal(Rows(init, q), day, c)
              + (if Counts(last, q) && RowOf(last).day == Some(day) then Figure(last, c) else 0)
  {
    var init, row := Rows(ps[..|ps| - 1], q), RowOf(ps[|ps| - 1]);
    assert (init + [row])[..|init|] == init;
  }

  /** What a day shows is what the same query totals over that day alone. */
  lemma {:induction false} ADayIsAWindow(ps: seq<Payment>, q: Query, day: int, c: Column)
    ensures DayTotal(Rows(ps, q), day, c) == Total(ps, OnDay(q, day), c)
  {
    if ps != [] {
      ADayIsAWindow(ps[..|ps| - 1], q, day, c);
      CountsOnItsDay(ps[|ps| - 1], q, day);
      OneRowMore(ps, q, day, c);
    }
  }

  /** Whether it is grouped or filled in, a day holds the sums of its own payments. */
  lemma EachDayIsItsOwn(rows: seq<Row>, day: int)
    ensures At(Grouped(rows), day) == Bar(rows, day)
  {
    if day !in Grouped(rows) {
      forall i | 0 <= i < |rows| ensures rows[i].day != Some(day) {}
      QuietDayIsZero(rows, day, Gross);
      QuietDayIsZero(rows, day, Refunded);
      QuietDayIsZero(rows, day, Count);
    }
  }

  lemma {:induction false} SeriesShape(rows: seq<Row>, first: int, last: int, series: seq<DayEarnings>)
    requires first <= last + 1 && series == Series(Grouped(rows), first, last)
    ensures |series| == last - first + 1
    ensures forall i :: 0 <= i < |series| ==> series[i] == At(Grouped(rows), first + i)
    decreases last - first + 1
  {
    if first <= last {
      SeriesShape(rows, first, last - 1, series[..|series| - 1]);
    }
  }

  lemma {:induction false} SeriesSums(rows: seq<Row>, first: int, last: int, c: Column)
    ensures SumSeries(Series(Grouped(rows), first, last), c) == DaySums(rows, first, last, c)
    decreases last - first + 1
  {
    if first <= last {
      var init := Series(Grouped(rows), first, last - 1);
      SeriesSums(rows, first, last - 1, c);
      EachDayIsItsOwn(rows, last);
      assert Series(Grouped(rows), first, last)[..|init|] == init;
    }
  }

  lemma {:induction false} RowsTotalIsTotal(ps: seq<Payment>, q: Query, c: Column)
    ensures RowsTotal(Rows(ps, q), c) == Total(ps, q, c)
  {
    if ps != [] {
      var init := Rows(ps[..|ps| - 1], q);
      RowsTotalIsTotal(ps[..|ps| - 1], q, c);
      assert (init + [RowOf(ps[|ps| - 1])])[..|init|] == init;
    }
  }

  /** Whenever the series can be drawn, an empty one included, every column of it adds up to the
      total of the window. */
  lemma DaysAddUp(ps: seq<Payment>, q: Query)
    ensures DaySeries(ps, q).Ok? ==> forall c :: SumSeries(DaySeries(ps, q).value, c) == ForKiosks(ps, q, c)
  {
    var rows := Rows(ps, q);
    if DaySeries(ps, q).Ok? {
      forall c ensures SumSeries(DaySeries(ps, q).value, c) == ForKiosks(ps, q, c) {
        RowsTotalIsTotal(ps, q, c);
        if q.kiosks != [] && rows != [] {
          DaysLieBetween(rows);
          SeriesSums(rows, Least(rows), Greatest(rows), c);
          DaysPartition(rows, Least(rows), Greatest(rows), c);
        }
      }
    }
  }

  lemma {:induction false} BusyDayHasTakings(rows: seq<Row>, day: int)
    ensures DayTotal(rows, day, Count) >= 0
    ensures HasTakings(rows, day) ==> DayTotal(rows, day, Count) > 0
  {
    if rows != [] {
      var init := rows[..|rows| - 1];
      BusyDayHasTakings(init, day);
      if rows[|rows| - 1].day != Some(day) {
        forall i | 0 <= i < |rows| && rows[i].day == Some(day) ensures init[i].day == Some(day) {}
      }
    }
  }

  /** The series is unbroken, shows for each day the sums of that day's own payments, and begins
      and ends on days with takings. */
  lemma {:induction false} SeriesIsUnbroken(rows: seq<Row>, series: seq<DayEarnings>)
    requires rows != [] && AllDated(rows)
    requires series == Series(Grouped(rows), Least(rows), Greatest(rows))
    ensures |series| == Greatest(rows) - Least(rows) + 1 > 0
    ensures forall i :: 0 <= i < |series| ==> series[i] == Bar(rows, Least(rows) + i)
    ensures series[0].count > 0 && series[|series| - 1].count > 0
  {
    DaysLieBetween(rows);
    SeriesShape(rows, Least(rows), Greatest(rows), series);
    forall i | 0 <= i < |series| ensures series[i] == Bar(rows, Least(rows) + i) {
      EachDayIsItsOwn(rows, Least(rows) + i);
    }
    BusyDayHasTakings(rows, Least(rows));
    BusyDayHasTakings(rows, Greatest(rows));
  }

  lemma {:induction false} DatedRows(ps: seq<Payment>, q: Query)
    ensures AllDated(Rows(ps, q)) <==> forall i :: 0 <= i < |ps| && Counts(ps[i], q) ==> ps[i].capturedAt.Some?
    ensures q.kiosks == [] ==> Rows(ps, q) == []
  {
    if ps != [] {
      var n, init := |ps| - 1, ps[..|ps| - 1];
      DatedRows(init, q);
      var before, after := Rows(init, q), Rows(ps, q);
      assert AllDated(after) <==> AllDated(before) && (Counts(ps[n], q) ==> ps[n].capturedAt.Some?) by {
        if Counts(ps[n], q) {
          assert after == before + [RowOf(ps[n])];
          assert after[|before|] == RowOf(ps[n]) && forall i :: 0 <= i < |before| ==> after[i] == before[i];
        }
      }
      assert forall i :: 0 <= i < n ==> ps[i] == init[i];
    }
  }

  /** There is no series exactly when some counted payment was never captured; a window with either
      end given always has one. */
  lemma UndatedExactlyWhenNeverCaptured(ps: seq<Payment>, q: Query)
    ensures DaySeries(ps, q).Refused? <==> exists i :: 0 <= i < |ps| && Counts(ps[i], q) && ps[i].capturedAt.None?
    ensures q.since.Some? || q.until.Some? ==> DaySeries(ps, q).Ok?
  {
    DatedRows(ps, q);
  }

  /** `earnings_by_day` */
  method ByDay(ps: seq<Payment>, q: Query) returns (r: Result<seq<DayEarnings>, TypeError>)
    ensures r == DaySeries(ps, q)
    ensures r.Ok? ==> forall c :: SumSeries(r.value, c) == ForKiosks(ps, q, c)
    ensures r.Refused? <==> exists i :: 0 <= i < |ps| && Counts(ps[i], q) && ps[i].capturedAt.None?
  {
    DaysAddUp(ps, q);
    UndatedExactlyWhenNeverCaptured(ps, q);
    if q.kiosks == [] {
      return Ok([]);
    }
    var rows := Rows(ps, q);
    if rows == [] {
      return Ok([]);
    }
    if exists i :: 0 <= i < |rows| && rows[i].day.None? {
      return Refused(TypeError);
    }
    assert AllDated(rows);
    var found := Grouped(rows);
    DaysLieBetween(rows);
    var cursor, last := Least(rows), Greatest(rows);
    var series: seq<DayEarnings> := [];
    while cursor <= last
      invariant Least(rows) <= cursor <= last + 1
      invariant series == Series(found, Least(rows), cursor - 1)
    {
      series := series + [At(found, cursor)];
      cursor := cursor + 1;
    }
    r := Ok(series);
  }
}
