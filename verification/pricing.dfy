/**
 The price formula: the unit price charged for every item of a category,
 given the category's aggregate quantity and its rule.
 */
module Pricing {
  import opened Wrappers
  import opened Tiers

  /** The formula divides by the quantity; a step tier of threshold 0 reached
      by an aggregate quantity of 0 is a division by zero, which stops the pass. */
  datatype PriceError = DivisionByZero

  /** The rate charged for the units above a step tier's threshold. */
  function OverageRate(basePrice: real, t: Tier): real {
    if t.overage.Base? then basePrice else t.price
  }

  /** Unit price that spreads the cost of `first` units at `firstRate` and
      the remaining `count - first` units at `restRate` evenly over `count`. */
  function WeightedAverage(first: real, firstRate: real, count: real, restRate: real): real
    requires count > 0.0
  {
    (first * firstRate + (count - first) * restRate) / count
  }

  /** The unit price once `selected` is the tier applied to `qty` (`None`
      when no tier is met). */
  function TierPrice(qty: nat, basePrice: real, selected: Option<Tier>): Result<real, PriceError>
    requires selected.Some? ==> Met(selected.value, qty)
  {
    match selected
    case None => Success(basePrice)
    case Some(t) =>
      match t.kind
      case GlobalOverride => Success(t.price)
      case Step =>
        if qty == 0 then Failure(DivisionByZero)
        else Success(WeightedAverage(t.threshold as real, t.price, qty as real, OverageRate(basePrice, t)))
      case Unrecognised => Success(basePrice)
  }

  /** The unit price for a category whose aggregate quantity is `qty`. */
  function DynamicPrice(qty: nat, rule: Rule): Result<real, PriceError> {
    TierPrice(qty, rule.basePrice, SelectTier(rule.tiers, qty))
  }

  /** With no tier met, and in particular with no tiers at all, the base price applies. */
  lemma NoTierMetGivesBase(qty: nat, rule: Rule)
    requires forall i :: 0 <= i < |rule.tiers| ==> !Met(rule.tiers[i], qty)
    ensures DynamicPrice(qty, rule) == Success(rule.basePrice)
  {
  }

  /** The calculator fails exactly when a step tier is selected for a zero
      quantity; every positive quantity gets a price. */
  lemma FailsOnlyOnZeroStep(qty: nat, rule: Rule)
    ensures DynamicPrice(qty, rule).Failure?
            <==> qty == 0 && exists i :: IsHighestMet(rule.tiers, qty, i) && rule.tiers[i].kind.Step?
  {
    var sel := SelectTier(rule.tiers, qty);
    if sel.Some? {
      var k :| IsHighestMet(rule.tiers, qty, k) && rule.tiers[k] == sel.value;
      forall j | IsHighestMet(rule.tiers, qty, j)
        ensures j == k
      {
        HighestMetIsUnique(rule.tiers, qty, j, k);
      }
    }
  }

  /** A global-override tier sets every unit to the tier price, however far
      the quantity is above its threshold. */
  lemma GlobalOverrideIsFlat(qty: nat, rule: Rule, t: Tier)
    requires SelectTier(rule.tiers, qty) == Some(t)
    requires t.kind.GlobalOverride?
    ensures DynamicPrice(qty, rule) == Success(t.price)
  {
  }

  /** Two quantities that select the same global-override tier get the same price. */
  lemma GlobalOverrideIgnoresQuantity(q1: nat, q2: nat, rule: Rule, t: Tier)
    requires SelectTier(rule.tiers, q1) == Some(t) && SelectTier(rule.tiers, q2) == Some(t)
    requires t.kind.GlobalOverride?
    ensures DynamicPrice(q1, rule) == DynamicPrice(q2, rule)
  {
    GlobalOverrideIsFlat(q1, rule, t);
    GlobalOverrideIsFlat(q2, rule, t);
  }

  /** A tier of a type other than global override or step leaves the base price. */
  lemma UnrecognisedTypeGivesBase(qty: nat, rule: Rule, t: Tier)
    requires SelectTier(rule.tiers, qty) == Some(t)
    requires t.kind.Unrecognised?
    ensures DynamicPrice(qty, rule) == Success(rule.basePrice)
  {
  }

  // Facts about the weighted average of two rates. Each is stated about a
  // result `r` carrying the average, so that callers can pass the calculator's
  // own result.

  lemma AverageTimesCount(a: real, p: real, q: real, b: real)
    requires q > 0.0
    ensures WeightedAverage(a, p, q, b) * q == a * p + (q - a) * b
  {
  }

  lemma AverageOfEqualRates(r: Result<real, PriceError>, a: real, p: real, q: real)
    requires q > 0.0 && r == Success(WeightedAverage(a, p, q, p))
    ensures r == Success(p)
  {
    AverageTimesCount(a, p, q, p);
    assert a * p + (q - a) * p == q * p;
  }

  lemma AverageConserves(r: Result<real, PriceError>, a: real, p: real, q: real, b: real)
    requires q > 0.0 && r == Success(WeightedAverage(a, p, q, b))
    ensures r.Success? && r.value * q == a * p + (q - a) * b
  {
    AverageTimesCount(a, p, q, b);
  }

  lemma AverageAtFullCount(r: Result<real, PriceError>, q: real, p: real, b: real)
    requires q > 0.0 && r == Success(WeightedAverage(q, p, q, b))
    ensures r == Success(p)
  {
    AverageTimesCount(q, p, q, b);
  }

  function Min(a: real, b: real): real { if a <= b then a else b }
  function Max(a: real, b: real): real { if a <= b then b else a }

  lemma ScaledBounds(v: real, q: real, lo: real, hi: real)
    requires q > 0.0 && lo * q <= v * q <= hi * q
    ensures lo <= v <= hi
  {
  }

  lemma ScaleLe(k: real, x: real, y: real)
    requires k >= 0.0 && x <= y
    ensures k * x <= k * y
  {
  }

  lemma SplitCount(a: real, q: real, x: real)
    ensures a * x + (q - a) * x == x * q
  {
  }

  lemma WeightedAtLeast(a: real, p: real, q: real, b: real, lo: real)
    requires 0.0 <= a <= q && lo <= p && lo <= b
    ensures lo * q <= a * p + (q - a) * b
  {
    ScaleLe(a, lo, p);
    ScaleLe(q - a, lo, b);
    SplitCount(a, q, lo);
  }

  lemma WeightedAtMost(a: real, p: real, q: real, b: real, hi: real)
    requires 0.0 <= a <= q && p <= hi && b <= hi
    ensures a * p + (q - a) * b <= hi * q
  {
    ScaleLe(a, p, hi);
    ScaleLe(q - a, b, hi);
    SplitCount(a, q, hi);
  }

  lemma AverageIsBetween(r: Result<real, PriceError>, a: real, p: real, q: real, b: real)
    requires 0.0 <= a <= q && q > 0.0 && r == Success(WeightedAverage(a, p, q, b))
    ensures r.Success? && Min(p, b) <= r.value <= Max(p, b)
  {
    AverageTimesCount(a, p, q, b);
    WeightedAtLeast(a, p, q, b, Min(p, b));
    WeightedAtMost(a, p, q, b, Max(p, b));
    ScaledBounds(WeightedAverage(a, p, q, b), q, Min(p, b), Max(p, b));
  }

  lemma AverageOffset(r: Result<real, PriceError>, a: real, p: real, q: real, b: real)
    requires q > 0.0 && r == Success(WeightedAverage(a, p, q, b))
    ensures r.Success? && (r.value - b) * q == a * (p - b)
  {
    AverageTimesCount(a, p, q, b);
    assert a * p + (q - a) * b == a * (p - b) + q * b;
  }

  function Abs(x: real): real { if x < 0.0 then -x else x }

  lemma ScaleLeNeg(k: real, x: real, y: real)
    requires k <= 0.0 && x <= y
    ensures k * y <= k * x
  {
  }

  lemma CancelLe(u: real, v: real, x: real)
    requires x > 0.0 && u * x <= v * x
    ensures u <= v
  {
  }

  lemma SignOfProduct(d: real, x: real)
    requires x > 0.0
    ensures d * x >= 0.0 <==> d >= 0.0
  {
  }

  /** The same amount spread over more units gives a smaller share. */
  lemma ShareShrinks(d1: real, d2: real, x1: real, x2: real)
    requires 0.0 < x1 <= x2 && d1 * x1 == d2 * x2
    ensures Abs(d2) <= Abs(d1)
  {
    SignOfProduct(d1, x1);
    SignOfProduct(d2, x2);
    if d1 >= 0.0 {
      ScaleLe(d1, x1, x2);
      CancelLe(d2, d1, x2);
    } else {
      ScaleLeNeg(d1, x1, x2);
      CancelLe(d1, d2, x2);
    }
  }

  lemma SmallerShare(r1: Result<real, PriceError>, r2: Result<real, PriceError>, b: real, x1: real, x2: real,
                     a: real, p: real)
    requires 0.0 < x1 <= x2
    requires r1.Success? && (r1.value - b) * x1 == a * (p - b)
    requires r2.Success? && (r2.value - b) * x2 == a * (p - b)
    ensures Abs(r2.value - b) <= Abs(r1.value - b)
  {
    ShareShrinks(r1.value - b, r2.value - b, x1, x2);
  }

  /** A step tier whose overage is charged at the tier price blends two equal
      segments, so the average is the tier price itself. */
  lemma StepAtTierRateIsTierPrice(qty: nat, rule: Rule, t: Tier)
    requires SelectTier(rule.tiers, qty) == Some(t)
    requires t.kind.Step? && !t.overage.Base?
    requires qty > 0
    ensures DynamicPrice(qty, rule) == Success(t.price)
  {
    AverageOfEqualRates(DynamicPrice(qty, rule), t.threshold as real, t.price, qty as real);
  }

  /** Step pricing with overage at base keeps the cart total right: the
      average times the quantity is the two-segment cost. */
  lemma StepAtBaseConservesTotal(qty: nat, rule: Rule, t: Tier)
    requires SelectTier(rule.tiers, qty) == Some(t)
    requires t.kind.Step? && t.overage.Base?
    requires qty > 0
    ensures DynamicPrice(qty, rule).Success?
            && DynamicPrice(qty, rule).value * (qty as real)
               == (t.threshold as real) * t.price + (qty as real - t.threshold as real) * rule.basePrice
  {
    AverageConserves(DynamicPrice(qty, rule), t.threshold as real, t.price, qty as real, rule.basePrice);
  }

  /** Exactly at a step tier's threshold there are no overage units. */
  lemma StepAtBaseAtThreshold(rule: Rule, t: Tier)
    requires SelectTier(rule.tiers, t.threshold) == Some(t)
    requires t.kind.Step? && t.overage.Base?
    requires t.threshold > 0
    ensures DynamicPrice(t.threshold, rule) == Success(t.price)
  {
    AverageAtFullCount(DynamicPrice(t.threshold, rule), t.threshold as real, t.price, rule.basePrice);
  }

  /** A blended step price lies between the tier price and the base price. */
  lemma StepAtBaseIsBetween(qty: nat, rule: Rule, t: Tier)
    requires SelectTier(rule.tiers, qty) == Some(t)
    requires t.kind.Step? && t.overage.Base?
    requires qty > 0
    ensures DynamicPrice(qty, rule).Success?
            && Min(t.price, rule.basePrice) <= DynamicPrice(qty, rule).value <= Max(t.price, rule.basePrice)
  {
    AverageIsBetween(DynamicPrice(qty, rule), t.threshold as real, t.price, qty as real, rule.basePrice);
  }

  /** The distance from the base price is the tier's fixed discount on its
      first `threshold` units spread over all `qty` units. */
  lemma StepAtBaseApproachesBase(qty: nat, rule: Rule, t: Tier)
    requires SelectTier(rule.tiers, qty) == Some(t)
    requires t.kind.Step? && t.overage.Base?
    requires qty > 0
    ensures DynamicPrice(qty, rule).Success?
            && (DynamicPrice(qty, rule).value - rule.basePrice) * (qty as real)
               == (t.threshold as real) * (t.price - rule.basePrice)
  {
    AverageOffset(DynamicPrice(qty, rule), t.threshold as real, t.price, qty as real, rule.basePrice);
  }

  lemma TierPriceMovesTowardBase(q1: nat, q2: nat, b: real, t: Tier)
    requires Met(t, q1) && t.kind.Step? && t.overage.Base?
    requires 0 < q1 <= q2
    ensures TierPrice(q1, b, Some(t)).Success? && TierPrice(q2, b, Some(t)).Success?
    ensures Abs(TierPrice(q2, b, Some(t)).value - b) <= Abs(TierPrice(q1, b, Some(t)).value - b)
  {
    var a := t.threshold as real;
    AverageOffset(TierPrice(q1, b, Some(t)), a, t.price, q1 as real, b);
    AverageOffset(TierPrice(q2, b, Some(t)), a, t.price, q2 as real, b);
    SmallerShare(TierPrice(q1, b, Some(t)), TierPrice(q2, b, Some(t)), b, q1 as real, q2 as real, a, t.price);
  }

  /** While the same step tier stays selected, a larger quantity never moves
      the price further from the base price. */
  lemma StepAtBaseMovesTowardBase(q1: nat, q2: nat, rule: Rule, t: Tier)
    requires SelectTier(rule.tiers, q1) == Some(t) && SelectTier(rule.tiers, q2) == Some(t)
    requires t.kind.Step? && t.overage.Base?
    requires 0 < q1 <= q2
    ensures DynamicPrice(q1, rule).Success? && DynamicPrice(q2, rule).Success?
    ensures Abs(DynamicPrice(q2, rule).value - rule.basePrice) <= Abs(DynamicPrice(q1, rule).value - rule.basePrice)
  {
    TierPriceMovesTowardBase(q1, q2, rule.basePrice, t);
  }
}
