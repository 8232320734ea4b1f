/** Rupees as exact decimals (`real`), money as whole paise (`int`), ROUND_HALF_UP. */
module Money {

  /** `as_money`, read off in paise: the nearest hundredth, ties away from zero.
      The two clauses leave exactly one integer for every input. */
  function AsPaise(x: real): (p: int)
    ensures x >= 0.0 ==> p as real - 0.5 <= x * 100.0 < p as real + 0.5
    ensures x < 0.0 ==> p as real - 0.5 < x * 100.0 <= p as real + 0.5
  {
    if x >= 0.0 then (x * 100.0 + 0.5).Floor else -((-x * 100.0 + 0.5).Floor)
  }

  /** `from_paise` */
  function Rupees(p: int): real {
    p as real / 100.0
  }

  lemma PaiseRoundTrip(p: int)
    ensures AsPaise(Rupees(p)) == p
  {
  }

  lemma RoundingTwiceIsRoundingOnce(x: real)
    ensures AsPaise(Rupees(AsPaise(x))) == AsPaise(x)
  {
  }

  lemma RoundingIsMonotone(x: real, y: real)
    requires x <= y
    ensures AsPaise(x) <= AsPaise(y)
  {
  }

  /** Adding whole paise commutes with rounding, as long as nothing is negative. */
  lemma WholePaiseTranslate(p: nat, x: real)
    requires x >= 0.0
    ensures AsPaise(Rupees(p) + x) == p + AsPaise(x)
  {
  }

  /** Exactly halfway between two paise. */
  predicate IsTie(x: real) {
    (x * 100.0 + 0.5).Floor as real == x * 100.0 + 0.5
  }

  /** Adding whole paise commutes with rounding unless a tie is carried across zero: only then do
      the two round away from zero in different directions. */
  lemma WholePaiseTranslateExactlyWhen(p: int, x: real)
    ensures AsPaise(Rupees(p) + x) == p + AsPaise(x)
       <==> !(IsTie(x) && (x >= 0.0) != (Rupees(p) + x >= 0.0))
  {
  }

  /** What adding whole paise before rounding makes of a sum, over adding them after it. */
  function Drift(p: int, x: real): int {
    if IsTie(x) && x < 0.0 && Rupees(p) + x >= 0.0 then 1
    else if IsTie(x) && x >= 0.0 && Rupees(p) + x < 0.0 then -1
    else 0
  }

  /** A tie carried up across zero makes a paisa, and one carried down takes one. */
  lemma TranslatingDrifts(p: int, x: real)
    ensures AsPaise(Rupees(p) + x) == p + AsPaise(x) + Drift(p, x)
  {
    if Drift(p, x) == 0 {
      WholePaiseTranslateExactlyWhen(p, x);
    } else {
      var n := (x * 100.0 + 0.5).Floor;
      assert x * 100.0 == n as real - 0.5;
      assert AsPaise(x) == if x < 0.0 then n - 1 else n;
      assert (Rupees(p) + x) * 100.0 == (p + n) as real - 0.5;
    }
  }

  function Total(values: seq<real>): real {
    if values == [] then 0.0 else Total(values[..|values| - 1]) + values[|values| - 1]
  }

  function SumPaise(values: seq<int>): int {
    if values == [] then 0 else SumPaise(values[..|values| - 1]) + values[|values| - 1]
  }

  /** `sum_money`: one running total, rounded once at the end. */
  method SumMoney(values: seq<real>) returns (p: int)
    ensures p == AsPaise(Total(values))
  {
    var total := 0.0;
    for i := 0 to |values|
      invariant total == Total(values[..i])
    {
      assert values[..i + 1][..i] == values[..i];
      total := total + values[i];
    }
    assert values[..|values|] == values;
    p := AsPaise(total);
  }

  /** Quantising at the end loses nothing when every term is already whole paise. */
  lemma {:induction false} SummingWholePaiseIsExact(ps: seq<int>)
    ensures Total(seq(|ps|, i requires 0 <= i < |ps| => Rupees(ps[i]))) == Rupees(SumPaise(ps))
    ensures AsPaise(Total(seq(|ps|, i requires 0 <= i < |ps| => Rupees(ps[i])))) == SumPaise(ps)
  {
    var rupees := seq(|ps|, i requires 0 <= i < |ps| => Rupees(ps[i]));
    if ps != [] {
      var init := ps[..|ps| - 1];
      SummingWholePaiseIsExact(init);
      assert rupees[..|ps| - 1] == seq(|init|, i requires 0 <= i < |init| => Rupees(init[i]));
    }
    PaiseRoundTrip(SumPaise(ps));
  }
}
