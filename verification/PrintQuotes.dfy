/** What a print costs: sheets from pages, an amount from sheets, a total with its fee. */
module PrintQuotes {
  import opened Outcomes
  import opened Money
  import opened KioskPricing

  datatype PrintOptions = PrintOptions(colour: bool, duplex: bool, copies: nat)

  // `selected` is how many pages the page range picks out of the document.
  datatype Workload = Workload(impressions: nat, bothSides: nat, oneSide: nat) {
    function Sheets(): nat { bothSides + oneSide }
  }

  /** `workload`: each copy rounds its own odd page up to a sheet printed on one side. */
  function WorkloadOf(options: PrintOptions, selected: nat): Workload {
    var impressions := selected * options.copies;
    if options.duplex
    then Workload(impressions, (selected / 2) * options.copies, (selected % 2) * options.copies)
    else Workload(impressions, 0, impressions)
  }

  /** `quote_line`: priced by the sheet. */
  function LineAmount(options: PrintOptions, selected: nat, prices: Prices): int {
    var load := WorkloadOf(options, selected);
    Effective(prices, Double(options.colour)) * load.bothSides
    + Effective(prices, Single(options.colour)) * load.oneSide
  }

  lemma EverySideIsOnASheet(options: PrintOptions, selected: nat)
    ensures var load := WorkloadOf(options, selected);
            && 2 * load.bothSides + load.oneSide == load.impressions
            && load.Sheets() <= load.impressions <= 2 * load.Sheets()
  {
  }

  // ── what was asked for, read off the request ──────────────────────────────

  /** What a kiosk charges for one sheet: its own price, or what the platform charges by default. */
  function SheetPrice(prices: Prices, colour: bool, bothSides: bool): int {
    var own := if colour then (if bothSides then ColorDouble else ColorSingle)
               else (if bothSides then BwDouble else BwSingle);
    if own in prices then prices[own]
    else if colour then (if bothSides then 2000 else 1000) else (if bothSides then 300 else 200)
  }

  /** The paper one copy takes: two pages to a sheet, or one. */
  function SheetsPerCopy(duplex: bool, pages: nat): nat { if duplex then (pages + 1) / 2 else pages }

  /** What one copy costs: its full sheets, and the page left over. */
  function CopyAmount(colour: bool, duplex: bool, pages: nat, prices: Prices): int {
    if duplex then pages / 2 * SheetPrice(prices, colour, true) + pages % 2 * SheetPrice(prices, colour, false)
    else pages * SheetPrice(prices, colour, false)
  }

  function SheetsFor(options: PrintOptions, pages: nat): nat { options.copies * SheetsPerCopy(options.duplex, pages) }

  function AskedAmount(options: PrintOptions, pages: nat, prices: Prices): int {
    options.copies * CopyAmount(options.colour, options.duplex, pages, prices)
  }

  lemma Regrouped(copies: int, a: int, b: int, p: int, q: int)
    ensures p * (a * copies) + q * (b * copies) == copies * (a * p + b * q)
    ensures a * copies + b * copies == copies * (a + b)
  {
    assert p * (a * copies) == copies * (a * p) && q * (b * copies) == copies * (b * q);
  }

  /** Pages, copies and sides are all paid for and all on paper, at the kiosk's own rates. */
  lemma WorkIsWhatWasAsked(options: PrintOptions, pages: nat, prices: Prices)
    ensures WorkloadOf(options, pages).impressions == pages * options.copies
    ensures WorkloadOf(options, pages).Sheets() == SheetsFor(options, pages)
    ensures LineAmount(options, pages, prices) == AskedAmount(options, pages, prices)
  {
    var double, single := SheetPrice(prices, options.colour, true), SheetPrice(prices, options.colour, false);
    if options.duplex {
      Regrouped(options.copies, pages / 2, pages % 2, double, single);
      assert pages / 2 + pages % 2 == SheetsPerCopy(true, pages);
    } else {
      Regrouped(options.copies, 0, pages, double, single);
    }
  }

  /** Each copy is a job of its own: pages and paper add up over copies. */
  lemma CopiesAddUp(options: PrintOptions, pages: nat, m: nat, n: nat)
    ensures var all := WorkloadOf(options.(copies := m + n), pages);
            var some, others := WorkloadOf(options.(copies := m), pages), WorkloadOf(options.(copies := n), pages);
            && all.impressions == some.impressions + others.impressions
            && all.bothSides == some.bothSides + others.bothSides
            && all.oneSide == some.oneSide + others.oneSide
  {
    Distributes(m, n, pages);
    Distributes(m, n, pages / 2);
    Distributes(m, n, pages % 2);
  }

  lemma Distributes(m: int, n: int, x: int)
    ensures x * (m + n) == x * m + x * n
  {
  }

  /** And so does the price. */
  lemma PricesAddUp(options: PrintOptions, pages: nat, prices: Prices, m: nat, n: nat)
    ensures LineAmount(options.(copies := m + n), pages, prices)
         == LineAmount(options.(copies := m), pages, prices) + LineAmount(options.(copies := n), pages, prices)
  {
    var double, single := Effective(prices, Double(options.colour)), Effective(prices, Single(options.colour));
    var some, others := WorkloadOf(options.(copies := m), pages), WorkloadOf(options.(copies := n), pages);
    CopiesAddUp(options, pages, m, n);
    Distributes(some.bothSides, others.bothSides, double);
    Distributes(some.oneSide, others.oneSide, single);
  }

  /** One copy on both sides wastes at most the back of its last sheet; on one side it takes a sheet a
      page. A page costs the kiosk's single price, and two on one sheet its double price. */
  lemma OneCopy(colour: bool, pages: nat, prices: Prices)
    ensures var both := WorkloadOf(PrintOptions(colour, true, 1), pages);
            2 * both.bothSides + both.oneSide == pages && both.oneSide <= 1
    ensures var one := WorkloadOf(PrintOptions(colour, false, 1), pages);
            one.bothSides == 0 && one.oneSide == pages
    ensures LineAmount(PrintOptions(colour, false, 1), 1, prices) == SheetPrice(prices, colour, false)
    ensures LineAmount(PrintOptions(colour, true, 1), 2, prices) == SheetPrice(prices, colour, true)
  {
  }

  lemma BetweenRates(single: int, double: int, both: nat, one: nat)
    requires single <= double <= 2 * single
    ensures single * (both + one) <= double * both + single * one <= single * (2 * both + one)
  {
  }

  /** Wherever prices are sane, asking for both sides costs at least the one-side rate for
      the sheets it uses and never more than printing the same pages on one side. */
  lemma DuplexSitsBetween(options: PrintOptions, selected: nat, prices: Prices)
    requires Sane(prices)
    ensures var duplex := options.(duplex := true);
            var simplex := options.(duplex := false);
            var single := Effective(prices, Single(options.colour));
            single * WorkloadOf(duplex, selected).Sheets()
              <= LineAmount(duplex, selected, prices)
              <= LineAmount(simplex, selected, prices)
  {
    var single, double := Effective(prices, Single(options.colour)), Effective(prices, Double(options.colour));
    var load := WorkloadOf(options.(duplex := true), selected);
    EverySideIsOnASheet(options.(duplex := true), selected);
    BetweenRates(single, double, load.bothSides, load.oneSide);
  }

  lemma SanePricesChargeNobodyLessThanNothing(options: PrintOptions, selected: nat, prices: Prices)
    requires Sane(prices)
    ensures LineAmount(options, selected, prices) >= 0
  {
  }

  /** `gateway_fee`: two per cent of the subtotal, capped at two rupees. */
  function GatewayFee(subtotal: int): int {
    var share := Rupees(subtotal) * 0.02;
    AsPaise(if share <= 2.0 then share else 2.0)
  }

  datatype OrderQuote = OrderQuote(subtotal: int, fee: int, total: int)

  datatype EmptyOrder = EmptyOrder

  /** `OrderQuote.build` */
  function Build(lines: seq<int>, paysByWallet: bool): Result<OrderQuote, EmptyOrder> {
    if lines == [] then Refused(EmptyOrder)
    else
      var subtotal := AsPaise(Total(seq(|lines|, i requires 0 <= i < |lines| => Rupees(lines[i]))));
      var fee := if paysByWallet then 0 else GatewayFee(subtotal);
      Ok(OrderQuote(subtotal, fee, AsPaise(Rupees(subtotal) + Rupees(fee))))
  }

  /** Two rupees, or the paisa nearest to a fiftieth of the subtotal, halves upward. */
  predicate IsFee(fee: int, subtotal: int) {
    if subtotal >= 9975 then fee == 200 else 50 * fee - 25 <= subtotal < 50 * fee + 25
  }

  lemma FeeIsCapped(subtotal: nat)
    ensures IsFee(GatewayFee(subtotal), subtotal)
    ensures 0 <= GatewayFee(subtotal) <= 200
    ensures GatewayFee(subtotal) == 200 <==> subtotal >= 9975
    ensures GatewayFee(subtotal) <= subtotal
  {
  }

  /** What a student agrees to is the sum of the lines plus a fee of at most two rupees,
      nothing at all from a wallet, and no step of the arithmetic drops a paisa. */
  lemma TotalsAreExact(lines: seq<int>, paysByWallet: bool)
    requires lines != []
    requires forall i :: 0 <= i < |lines| ==> 0 <= lines[i]
    ensures var q := Build(lines, paysByWallet).value;
            && q.subtotal == SumPaise(lines) >= 0
            && q.total == q.subtotal + q.fee
            && 0 <= q.fee <= 200
            && (if paysByWallet then q.fee == 0 else IsFee(q.fee, q.subtotal))
  {
    SummingWholePaiseIsExact(lines);
    SumIsNonNegative(lines);
    var subtotal := SumPaise(lines);
    var fee := if paysByWallet then 0 else GatewayFee(subtotal);
    FeeIsCapped(subtotal);
    assert Rupees(subtotal) + Rupees(fee) == Rupees(subtotal + fee);
    PaiseRoundTrip(subtotal + fee);
  }

  lemma {:induction false} SumIsNonNegative(lines: seq<int>)
    requires forall i :: 0 <= i < |lines| ==> 0 <= lines[i]
    ensures SumPaise(lines) >= 0
  {
    if lines != [] {
      SumIsNonNegative(lines[..|lines| - 1]);
    }
  }
}
