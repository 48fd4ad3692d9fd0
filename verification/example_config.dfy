/**
 * The rule set the plugin ships with: one rule for category 15 with a base
 * price of 35.00, a global override of 30.00 from 10 items and a step tier
 * of 32.00 for the first 3 items, the remainder charged at the base price.
 * The lemmas below pin down the prices this configuration produces.
 */
module ExampleConfig {
  import opened Wrappers
  import opened Tiers
  import opened Pricing
  import opened Cart

  const VolumeTier: Tier := Tier(10, 30.0, GlobalOverride, TierRate)
  const StepTier: Tier := Tier(3, 32.0, Step, Base)

  /** The configured rule, tiers in the order they are written (highest first). */
  const Category15Rule: Rule := Rule(15, 35.0, [VolumeTier, StepTier])

  /** The whole shipped configuration. */
  const PricingRules: seq<Rule> := [Category15Rule]

  /** The same rule with the step tier's remainder charged at the tier price. */
  const TierOverageRule: Rule := Rule(15, 35.0, [VolumeTier, Tier(3, 32.0, Step, TierRate)])

  lemma BelowThreeIsBase(qty: nat)
    requires qty < 3
    ensures DynamicPrice(qty, Category15Rule) == Success(35.0)
  {
    NoTierMetGivesBase(qty, Category15Rule);
  }

  lemma FromTenIsOverride(qty: nat)
    requires qty >= 10
    ensures DynamicPrice(qty, Category15Rule) == Success(30.0)
  {
    var rule := Category15Rule;
    SelectTierPicks(rule.tiers, qty, 0);
    GlobalOverrideIsFlat(qty, rule, VolumeTier);
  }

  /** Between 3 and 9 items the step tier blends 32.00 and 35.00, so the
      unit price lies between them. */
  lemma StepRangeBounds(qty: nat)
    requires 3 <= qty < 10
    ensures DynamicPrice(qty, Category15Rule).Success?
    ensures 32.0 <= DynamicPrice(qty, Category15Rule).value <= 35.0
  {
    var rule := Category15Rule;
    SelectTierPicks(rule.tiers, qty, 1);
    StepAtBaseIsBetween(qty, rule, StepTier);
  }

  lemma ThreeItemsPrice()
    ensures DynamicPrice(3, Category15Rule) == Success(32.0)
  {
    var rule := Category15Rule;
    SelectTierPicks(rule.tiers, 3, 1);
    StepAtBaseAtThreshold(rule, StepTier);
  }

  lemma FiveItemsPrice()
    ensures DynamicPrice(5, Category15Rule) == Success(33.2)
  {
    SelectTierPicks(Category15Rule.tiers, 5, 1);
  }

  lemma DocumentedPrices()
    ensures DynamicPrice(2, Category15Rule) == Success(35.0)
    ensures DynamicPrice(3, Category15Rule) == Success(32.0)
    ensures DynamicPrice(5, Category15Rule) == Success(33.2)
    ensures DynamicPrice(10, Category15Rule) == Success(30.0)
    ensures DynamicPrice(100, Category15Rule) == Success(30.0)
  {
    BelowThreeIsBase(2);
    ThreeItemsPrice();
    FiveItemsPrice();
    FromTenIsOverride(10);
    FromTenIsOverride(100);
  }

  lemma TierOveragePrice()
    ensures DynamicPrice(5, TierOverageRule) == Success(32.0)
  {
    SelectTierPicks(TierOverageRule.tiers, 5, 1);
  }

  /** Two products of category 15 (2 and 3 units, one also in category 7)
      and one product of category 7 only. */
  const SampleCart: seq<LineItem> :=
    [LineItem(101, [15], 2, 40.0), LineItem(102, [15, 7], 3, 40.0), LineItem(103, [7], 4, 12.5)]

  lemma SampleCartTotal()
    ensures CategoryTotal(SampleCart, 15) == 5
  {
    var items := SampleCart;
    assert items[..2][..1] == [items[0]];
    assert CategoryTotal(items[..1], 15) == 2;
    assert CategoryTotal(items[..2], 15) == 5;
  }

  lemma SampleCartMatches()
    ensures MatchRule(SampleCart[0].categories, PricingRules) == Some(Match(15, Category15Rule))
    ensures MatchRule(SampleCart[1].categories, PricingRules) == Some(Match(15, Category15Rule))
    ensures MatchRule(SampleCart[2].categories, PricingRules) == None
  {
  }

  lemma SampleCartPasses()
    ensures PricingPass(SampleCart, PricingRules).Success?
  {
    var items := SampleCart;
    assert items[0].quantity > 0 && items[1].quantity > 0 && items[2].quantity > 0;
    PassSucceedsOnPositiveQuantities(items, PricingRules);
  }

  /** The category-15 lines share the unit price for 5 units, 33.20, and
      the category-7 line keeps its price. */
  lemma SharedCategoryCart()
    ensures PricingPass(SampleCart, PricingRules).Success?
    ensures PricingPass(SampleCart, PricingRules).value
         == [LineItem(101, [15], 2, 33.2), LineItem(102, [15, 7], 3, 33.2), LineItem(103, [7], 4, 12.5)]
  {
    var items := SampleCart;
    var rules := PricingRules;
    SampleCartTotal();
    SampleCartMatches();
    FiveItemsPrice();
    SampleCartPasses();
    var out := PricingPass(items, rules).value;
    assert out[0] == items[0].(price := 33.2);
    assert out[1] == items[1].(price := 33.2);
    assert out[2] == items[2];
  }

  /** Matching runs over the item's categories first: a product in categories
      1 then 2 takes the rule for category 1 even when the rule for category 2
      is configured first. */
  lemma CategoryOrderWins()
    ensures MatchRule([1, 2], [Rule(2, 10.0, []), Rule(1, 20.0, [])]) == Some(Match(1, Rule(1, 20.0, [])))
  {
  }
}
