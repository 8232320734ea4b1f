/** What a sheet costs at a kiosk, and the one writer of those prices. */
module KioskPricing {
  import opened Outcomes
  import opened Money

  datatype Field = BwSingle | BwDouble | ColorSingle | ColorDouble

  // `None` on either side means unbounded there.
  datatype PriceBand = PriceBand(
    floorBw: Option<int>, ceilingBw: Option<int>, floorColor: Option<int>, ceilingColor: Option<int>)
  {
    function BoundsFor(field: Field): (Option<int>, Option<int>) {
      if field.ColorSingle? || field.ColorDouble? then (floorColor, ceilingColor) else (floorBw, ceilingBw)
    }
  }

  datatype Refusal =
    | NothingToSet
    | Negative(field: Field)
    | BelowFloor(field: Field)
    | AboveCeiling(field: Field)
    | DoubleBelowSingle(colour: bool)
    | DoubleAboveTwoSingles(colour: bool)

  // The prices a kiosk has set for itself, in paise; an absent field falls back to the default.
  type Prices = map<Field, int>

  function Default(field: Field): int {
    match field
    case BwSingle => 200
    case BwDouble => 300
    case ColorSingle => 1000
    case ColorDouble => 2000
  }

  function Effective(prices: Prices, field: Field): int {
    if field in prices then prices[field] else Default(field)
  }

  function Single(colour: bool): Field { if colour then ColorSingle else BwSingle }

  function Double(colour: bool): Field { if colour then ColorDouble else BwDouble }

  /** A sheet printed on both sides costs no less than one printed on one side,
      and no more than two of them. */
  predicate Sane(prices: Prices) {
    forall colour ::
      Effective(prices, Single(colour)) <= Effective(prices, Double(colour)) <= 2 * Effective(prices, Single(colour))
  }

  predicate AtLeast(money: int, floor: Option<int>) { floor.Some? ==> floor.value <= money }

  predicate AtMost(money: int, ceiling: Option<int>) { ceiling.Some? ==> money <= ceiling.value }

  predicate WithinBand(field: Field, money: int, band: PriceBand) {
    && 0 <= money
    && (if field == ColorSingle || field == ColorDouble
        then AtLeast(money, band.floorColor) && AtMost(money, band.ceilingColor)
        else AtLeast(money, band.floorBw) && AtMost(money, band.ceilingBw))
  }

  /** `_check_within_band`: the refusal it raises, if it raises one. */
  function CheckWithinBand(field: Field, money: int, band: PriceBand): (refusal: Option<Refusal>)
    ensures refusal.None? <==> WithinBand(field, money, band)
  {
    var (floor, ceiling) := band.BoundsFor(field);
    if money < 0 then Some(Negative(field))
    else if floor.Some? && money < floor.value then Some(BelowFloor(field))
    else if ceiling.Some? && money > ceiling.value then Some(AboveCeiling(field))
    else None
  }

  /** The non-null prices of a request, rounded; where a field repeats, the last one stands. */
  function Supplied(request: seq<(Field, Option<real>)>): (supplied: Prices) {
    if request == [] then map[]
    else
      var init, (field, value) := Supplied(request[..|request| - 1]), request[|request| - 1];
      if value.Some? then init[field := AsPaise(value.value)] else init
  }

  predicate AllWithinBand(request: seq<(Field, Option<real>)>, band: PriceBand) {
    forall i :: 0 <= i < |request| && request[i].1.Some? ==>
      WithinBand(request[i].0, AsPaise(request[i].1.value), band)
  }

  // One request to change prices, and the band in force when it is made.
  datatype Change = Change(request: seq<(Field, Option<real>)>, band: PriceBand)

  /** A request that sets something, sits in the band, and leaves the combined picture sane. */
  predicate Accepts(prices: Prices, change: Change) {
    && Supplied(change.request) != map[]
    && AllWithinBand(change.request, change.band)
    && Sane(prices + Supplied(change.request))
  }

  function After(prices: Prices, change: Change): Prices {
    if Accepts(prices, change) then prices + Supplied(change.request) else prices
  }

  class Kiosk {
    var prices: Prices

    constructor ()
      ensures Sane(prices)
    {
      prices := map[];
    }

    /** `set_pricing`: everything is checked before anything is written, so a refused
        request leaves the kiosk as it was. */
    method SetPricing(request: seq<(Field, Option<real>)>, band: PriceBand) returns (refusal: Option<Refusal>)
      modifies this
      ensures refusal.None? <==> Accepts(old(prices), Change(request, band))
      ensures prices == After(old(prices), Change(request, band))
    {
      var normalised: Prices := map[];
      for i := 0 to |request|
        invariant normalised == Supplied(request[..i])
        invariant AllWithinBand(request[..i], band)
        invariant prices == old(prices)
      {
        assert request[..i + 1][..i] == request[..i];
        var (field, value) := request[i];
        if value.Some? {
          var money := AsPaise(value.value);
          var outside := CheckWithinBand(field, money, band);
          if outside.Some? {
            return outside;
          }
          normalised := normalised[field := money];
        }
      }
      assert request[..|request|] == request;
      if normalised == map[] {
        return Some(NothingToSet);
      }
      var combined := prices + normalised;
      var colours := [false, true];
      for c := 0 to 2
        invariant forall d :: 0 <= d < c ==>
          Effective(combined, Single(colours[d])) <= Effective(combined, Double(colours[d]))
            <= 2 * Effective(combined, Single(colours[d]))
        invariant prices == old(prices)
      {
        var oneSide, bothSides := Effective(combined, Single(colours[c])), Effective(combined, Double(colours[c]));
        if bothSides < oneSide {
          assert !Sane(combined);
          return Some(DoubleBelowSingle(colours[c]));
        }
        if bothSides > oneSide * 2 {
          assert !Sane(combined);
          return Some(DoubleAboveTwoSingles(colours[c]));
        }
      }
      assert colours[0] == false && colours[1] == true;
      prices := combined;
      return None;
    }
  }

  function Run(prices: Prices, changes: seq<Change>): Prices
    decreases |changes|
  {
    if changes == [] then prices else Run(After(prices, changes[0]), changes[1..])
  }

  /** With `SetPricing` the only writer, every kiosk's prices stay sane, and a set price
      stays non-negative, whatever anybody asks for and whatever the band becomes. */
  lemma {:induction false} PricesStaySane(prices: Prices, changes: seq<Change>)
    requires Sane(prices) && forall f :: f in prices ==> 0 <= prices[f]
    ensures Sane(Run(prices, changes))
    ensures forall f :: f in Run(prices, changes) ==> 0 <= Run(prices, changes)[f]
    decreases |changes|
  {
    if changes != [] {
      if AllWithinBand(changes[0].request, changes[0].band) {
        SuppliedAreInBand(changes[0].request, changes[0].band);
      }
      PricesStaySane(After(prices, changes[0]), changes[1..]);
    }
  }

  /** A change sets each price it names to the nearest paisa, and leaves every other as it was. */
  lemma {:induction false} ChangesWriteWhatTheyName(prices: Prices, change: Change, field: Field)
    requires Accepts(prices, change)
    requires forall i, j :: 0 <= i < j < |change.request| ==> change.request[i].0 != change.request[j].0
    ensures (forall i :: 0 <= i < |change.request| && change.request[i].0 == field ==> change.request[i].1.None?) ==>
              (field in After(prices, change) <==> field in prices)
              && (field in prices ==> After(prices, change)[field] == prices[field])
    ensures forall i :: 0 <= i < |change.request| && change.request[i].0 == field && change.request[i].1.Some? ==>
              field in After(prices, change) && After(prices, change)[field] == AsPaise(change.request[i].1.value)
  {
    SuppliedNames(change.request, field);
  }

  lemma {:induction false} SuppliedNames(request: seq<(Field, Option<real>)>, field: Field)
    requires forall i, j :: 0 <= i < j < |request| ==> request[i].0 != request[j].0
    ensures field in Supplied(request)
       <==> exists i :: 0 <= i < |request| && request[i].0 == field && request[i].1.Some?
    ensures forall i :: 0 <= i < |request| && request[i].0 == field && request[i].1.Some? ==>
              field in Supplied(request) && Supplied(request)[field] == AsPaise(request[i].1.value)
    decreases |request|
  {
    if request != [] {
      var n, init := |request| - 1, request[..|request| - 1];
      SuppliedNames(init, field);
      assert forall i :: 0 <= i < n ==> init[i] == request[i];
      if i :| 0 <= i < n && init[i].0 == field && init[i].1.Some? {
        assert request[n].0 != field;
      }
    }
  }

  lemma {:induction false} SuppliedAreInBand(request: seq<(Field, Option<real>)>, band: PriceBand)
    requires AllWithinBand(request, band)
    ensures forall f :: f in Supplied(request) ==> WithinBand(f, Supplied(request)[f], band)
    decreases |request|
  {
    if request != [] {
      SuppliedAreInBand(request[..|request| - 1], band);
    }
  }
}
