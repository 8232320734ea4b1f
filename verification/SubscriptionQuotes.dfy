/** What a subscription costs one owner for so many months. */
module SubscriptionQuotes {
  import opened Outcomes
  import opened Money

  datatype Plan = Plan(isActive: bool, monthlyPrice: real)

  // Percentages found for this owner and for this plan at the wanted duration, if any.
  datatype Discounts = Discounts(owner: Option<real>, plan: Option<real>)

  datatype Source = FromOwner | FromPlan | NoDiscount

  datatype Quote = Quote(months: int, monthly: int, percent: int, total: int, negotiated: bool, source: Source)

  datatype Refusal = DurationNotSold | PlanNotAvailable | NegativePrice | DiscountOutOfRange

  predicate Allowed(months: int) { months == 1 || months == 6 || months == 12 }

  /** `_discount_for`: a discount promised to the owner wins outright, even a smaller one. */
  function DiscountFor(d: Discounts): (real, Source) {
    if d.owner.Some? then (d.owner.value, FromOwner)
    else if d.plan.Some? then (d.plan.value, FromPlan)
    else (0.0, NoDiscount)
  }

  function MonthlyRate(plan: Plan, negotiated: Option<int>): int {
    if negotiated.Some? then AsPaise(Rupees(negotiated.value)) else AsPaise(plan.monthlyPrice)
  }

  function Gross(monthly: int, months: int): real { Rupees(monthly) * months as real }

  function Less(gross: real, percent: real): real { gross - gross * percent / 100.0 }

  function Discounted(monthly: int, months: int, percent: real): int { AsPaise(Less(Gross(monthly, months), percent)) }

  function QuoteSubscription(plan: Plan, months: int, negotiated: Option<int>, d: Discounts): Result<Quote, Refusal> {
    var monthly := MonthlyRate(plan, negotiated);
    var (percent, source) := DiscountFor(d);
    if !Allowed(months) then Refused(DurationNotSold)
    else if !plan.isActive then Refused(PlanNotAvailable)
    else if monthly < 0 then Refused(NegativePrice)
    else if !(0.0 <= percent <= 100.0) then Refused(DiscountOutOfRange)
    else Ok(Quote(months, monthly, AsPaise(percent), Discounted(monthly, months, percent), negotiated.Some?, source))
  }

  lemma Share(gross: real, p: real, q: real)
    requires 0.0 <= gross && p <= q
    ensures gross * p / 100.0 <= gross * q / 100.0
  {
  }

  lemma ShareIsPart(gross: real, p: real)
    requires 0.0 <= gross && 0.0 <= p <= 100.0
    ensures 0.0 <= gross * p / 100.0 <= gross
  {
  }

  lemma DiscountedIsBounded(monthly: nat, months: nat, percent: real)
    requires 0.0 <= percent <= 100.0
    ensures 0 <= Discounted(monthly, months, percent) <= monthly * months
  {
    GrossInPaise(monthly, months);
    BoundedOnAnySum(Gross(monthly, months), monthly * months, percent);
  }

  lemma BoundedOnAnySum(gross: real, paise: nat, percent: real)
    requires gross * 100.0 == paise as real && 0.0 <= percent <= 100.0
    ensures 0 <= AsPaise(Less(gross, percent)) <= paise
  {
    ShareIsPart(gross, percent);
    assert gross == Rupees(paise);
    PaiseRoundTrip(0);
    PaiseRoundTrip(paise);
    RoundingIsMonotone(0.0, Less(gross, percent));
    RoundingIsMonotone(Less(gross, percent), gross);
  }

  /** Every quote lies between nothing and the undiscounted price. */
  lemma QuotesAreBounded(plan: Plan, months: int, negotiated: Option<int>, d: Discounts)
    requires QuoteSubscription(plan, months, negotiated, d).Ok?
    ensures var q := QuoteSubscription(plan, months, negotiated, d).value;
            && Allowed(q.months) && 0 <= q.monthly
            && 0 <= q.total <= q.monthly * q.months
  {
    DiscountedIsBounded(MonthlyRate(plan, negotiated), months, DiscountFor(d).0);
  }

  /** A deeper discount never costs more, rounding included. */
  lemma DeeperDiscountNeverCostsMore(monthly: nat, months: nat, p: real, q: real)
    requires p <= q
    ensures Discounted(monthly, months, q) <= Discounted(monthly, months, p)
  {
    GrossInPaise(monthly, months);
    DeeperOnAnySum(Gross(monthly, months), p, q);
  }

  lemma DeeperOnAnySum(gross: real, p: real, q: real)
    requires 0.0 <= gross && p <= q
    ensures AsPaise(Less(gross, q)) <= AsPaise(Less(gross, p))
  {
    Share(gross, p, q);
    LessIsLess(gross, gross * p / 100.0, gross * q / 100.0);
  }

  lemma LessIsLess(gross: real, a: real, b: real)
    requires a <= b
    ensures AsPaise(gross - b) <= AsPaise(gross - a)
  {
    RoundingIsMonotone(gross - b, gross - a);
  }

  // ── which price, which discount ───────────────────────────────────────────

  /** The whole paise nearest to this many, halves away from zero. */
  predicate IsNearest(p: int, paise: real) {
    if paise >= 0.0 then p as real - 0.5 <= paise < p as real + 0.5
    else p as real - 0.5 < paise <= p as real + 0.5
  }

  /** The months at the rate agreed with the owner, or the plan's to the nearest paisa; less the owner's
      own discount, or the plan's, or none; to the nearest paisa. */
  predicate IsPriced(monthly: int, total: int, plan: Plan, months: int, negotiated: Option<int>, d: Discounts) {
    && (match negotiated
        case Some(agreed) => monthly == agreed
        case None => IsNearest(monthly, plan.monthlyPrice * 100.0))
    && (d.owner.Some? ==> IsLess(total, monthly * months, d.owner.value))
    && (d.owner.None? && d.plan.Some? ==> IsLess(total, monthly * months, d.plan.value))
    && (d.owner.None? && d.plan.None? ==> IsLess(total, monthly * months, 0.0))
  }

  /** This many paise less so many per cent. */
  predicate IsLess(total: int, gross: int, percent: real) {
    IsNearest(total, gross as real * (100.0 - percent) / 100.0)
  }

  lemma InPaise(gross: real, paise: real, percent: real)
    requires paise == gross * 100.0
    ensures Less(gross, percent) * 100.0 == paise * (100.0 - percent) / 100.0
  {
    assert paise * percent == gross * percent * 100.0;
    assert paise * (100.0 - percent) == paise * 100.0 - paise * percent;
  }

  lemma GrossInPaise(monthly: int, months: int)
    ensures Gross(monthly, months) * 100.0 == (monthly * months) as real
    ensures monthly >= 0 && months >= 0 ==> monthly * months >= 0 && Gross(monthly, months) >= 0.0
  {
    assert monthly as real * months as real == (monthly * months) as real;
    assert monthly >= 0 && months >= 0 ==> monthly * months >= 0;
  }

  lemma DiscountedIsNearest(monthly: int, months: int, percent: real)
    ensures IsLess(Discounted(monthly, months, percent), monthly * months, percent)
  {
    GrossInPaise(monthly, months);
    InPaise(Gross(monthly, months), (monthly * months) as real, percent);
    NearestInPaise(Less(Gross(monthly, months), percent));
  }

  lemma NearestInPaise(x: real)
    ensures IsNearest(AsPaise(x), x * 100.0)
  {
  }

  lemma RateIsAgreed(plan: Plan, negotiated: Option<int>)
    ensures negotiated.Some? ==> MonthlyRate(plan, negotiated) == negotiated.value
    ensures negotiated.None? ==> IsNearest(MonthlyRate(plan, negotiated), plan.monthlyPrice * 100.0)
  {
    if negotiated.Some? {
      PaiseRoundTrip(negotiated.value);
    } else {
      NearestInPaise(plan.monthlyPrice);
    }
  }

  lemma QuotesArePriced(plan: Plan, months: int, negotiated: Option<int>, d: Discounts)
    requires QuoteSubscription(plan, months, negotiated, d).Ok?
    ensures var q := QuoteSubscription(plan, months, negotiated, d).value;
            && q.months == months && IsPriced(q.monthly, q.total, plan, months, negotiated, d)
            && (q.negotiated <==> negotiated.Some?)
            && (match q.source
                case FromOwner => d.owner.Some? && IsNearest(q.percent, d.owner.value * 100.0)
                case FromPlan => d.owner.None? && d.plan.Some? && IsNearest(q.percent, d.plan.value * 100.0)
                case NoDiscount => d.owner.None? && d.plan.None? && q.percent == 0)
  {
    NearestInPaise(DiscountFor(d).0);
    var q := QuoteSubscription(plan, months, negotiated, d).value;
    DiscountedIsNearest(q.monthly, months, DiscountFor(d).0);
    RateIsAgreed(plan, negotiated);
  }

  /** A quote is given exactly for a duration that is sold, of a plan still offered, at a price and a
      discount that make sense. */
  lemma QuotedExactlyWhen(plan: Plan, months: int, negotiated: Option<int>, d: Discounts)
    ensures QuoteSubscription(plan, months, negotiated, d).Ok?
       <==> && months in {1, 6, 12} && plan.isActive
            && (negotiated.Some? ==> negotiated.value >= 0)
            && (negotiated.None? ==> plan.monthlyPrice > -0.005)
            && (d.owner.Some? ==> 0.0 <= d.owner.value <= 100.0)
            && (d.owner.None? && d.plan.Some? ==> 0.0 <= d.plan.value <= 100.0)
  {
    if negotiated.Some? {
      PaiseRoundTrip(negotiated.value);
    }
  }

  /** What the owner was promised stands whatever the plan says of price or discount. */
  lemma TheOwnersTermsWin(plan: Plan, months: int, agreed: int, own: real, price: real, other: Option<real>)
    ensures QuoteSubscription(plan.(monthlyPrice := price), months, Some(agreed), Discounts(Some(own), other))
         == QuoteSubscription(plan, months, Some(agreed), Discounts(Some(own), None))
  {
  }
}
