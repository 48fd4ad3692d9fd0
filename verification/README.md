# Category tiered pricing — a Dafny model

This project models the pricing engine of the WordPress/WooCommerce plugin
"Advanced Category Tiered Pricing" (`custom-category-pricing.php`). On each
cart recalculation the plugin does three things:

1. It totals the cart's quantities per product category.
2. For each line item it finds the rule that governs it. It goes through the
   item's categories in order and, for each one, through the configured rules.
   The first rule whose category id matches wins.
3. It sets the item's unit price to `calculate_dynamic_price(total, rule)`.
   This function sorts the rule's tiers by threshold, highest first, and takes
   the first tier the total reaches. Then:
   - a `global_override` tier returns the tier price;
   - a `step` tier returns the weighted average of the first `threshold`
     units at the tier price and the rest at the base price (overage mode
     `base`) or at the tier price (any other mode);
   - if no tier is reached, or the tier type is unrecognised, it returns the
     base price.

Modules:

- `Wrappers` (`wrappers.dfy`): `Option` and `Result`.
- `Tiers` (`tiers.dfy`): the configuration records. It holds the stable
  descending sort of tiers and the first-met scan. A direct reference
  definition of "the highest reached tier, first authored among equals" is
  proved to agree with sort-then-scan.
- `Pricing` (`pricing.dfy`): `calculate_dynamic_price` as `DynamicPrice`, and
  lemmas for every branch of it.
- `Cart` (`cart.dfy`): line items, the category aggregation, rule matching and
  the whole pricing pass. The lemmas cover success, idempotence and shared
  prices.
- `ExampleConfig` (`example_config.dfy`): the rule set shipped in
  `get_pricing_rules`, with the prices it produces.

Modelling choices:

- **Numbers.** Quantities and thresholds are `nat`. Prices are `real`, so the
  weighted average is exact rather than a PHP float.
- **Tier type and overage mode.** Each is a datatype with a catch-all
  constructor, because the code compares strings with `===`. A type other
  than `'global_override'` or `'step'` is `Unrecognised`. An overage mode
  other than `'base'` is `TierRate`.
- **Equal thresholds.** `usort` has been stable since PHP 8.0. Among reached
  tiers with the same, highest threshold, the one written first is chosen.
- **Division by zero.** A `step` tier with threshold 0 reached by a total of 0
  divides by zero. In PHP 8 that throws `DivisionByZeroError` and aborts the
  pass. The model returns `Failure(DivisionByZero)`, and the whole
  `PricingPass` fails with it. `Cart.PassSucceedsOnPositiveQuantities` shows
  this cannot happen when every line has a positive quantity.
- **Category lookup.** An item's categories are the sequence
  `get_the_terms` returns, stored on the `LineItem`. A failed lookup is
  modelled as the empty sequence. That is exactly how the code treats it:
  such an item adds to no total and matches no rule.
- **Duplicate category ids.** If one item lists the same category twice,
  its quantity is added once per listing, as the inner loop at lines 63-68
  does. `Cart.DistinctCategoriesTotal` gives the simpler "sum over items
  carrying the category" form when the lists have no duplicates.

Behaviour of the code worth stating plainly:

- **Rule order.** The nested loops at lines 86-94 run over the item's
  categories first and over the configured rules inside. So the item's
  category order decides which rule applies, and rule order only breaks ties
  within a single category. `ExampleConfig.CategoryOrderWins` is a concrete
  case.
- **Running the pass twice.** The computed price depends only on the
  category totals and the rule, never on the line's current price (lines
  97-104 read no price). A second pass over the output therefore changes
  nothing (`Cart.PassIsIdempotent`).
- **Zero quantity.** Line 159 divides by the aggregate quantity without a
  guard; see "Division by zero" above.

## Model

| member | source | states |
|---|---|---|
| Tiers.Insert | custom-category-pricing.php:118-120 | inserting into a descending list keeps it descending and adds exactly the one tier (multiset) |
| Tiers.SortByThresholdDescending | custom-category-pricing.php:118-120 | the sort's result is ordered by threshold, highest first, and is a permutation of the authored tiers |
| Tiers.FirstMet | custom-category-pricing.php:123-128 | the scan finds nothing exactly when no tier is reached; otherwise it returns the reached tier at the earliest position, every tier before it being unreached (the `break` at line 126) |
| Tiers.SelectTier | custom-category-pricing.php:117-128 | sort-then-scan returns nothing iff no tier is reached, and otherwise the reached tier with the highest threshold, the first authored among equals |
| Tiers.HighestMet | custom-category-pricing.php:117-128 | reference definition by direct recursion over the authored list, with the same characterisation as SelectTier |
| Tiers.HighestMetIsUnique | custom-category-pricing.php:117-128 | at most one position satisfies the highest-reached, first-among-equals description, so the selected tier is determined |
| Tiers.FirstMetInsert | custom-category-pricing.php:118-128 | scanning after one insertion step equals choosing between the inserted tier and the previous scan result |
| Tiers.SortedFirstMetIsHighestMet | custom-category-pricing.php:117-128 | sorting then taking the first reached tier equals the reference HighestMet for every list and quantity |
| Tiers.SelectTierPicks | custom-category-pricing.php:117-128 | whenever a position is the highest reached first-authored tier, SelectTier returns that tier |
| Pricing.NoTierMetGivesBase | custom-category-pricing.php:131 | if the quantity reaches no tier (including an empty tier list) the price is the rule's base price |
| Pricing.FailsOnlyOnZeroStep | custom-category-pricing.php:139-159 | the calculator fails exactly when the quantity is 0 and the selected tier is a step tier (division by the zero quantity) |
| Pricing.GlobalOverrideIsFlat | custom-category-pricing.php:134-136 | a selected global-override tier yields its tier price |
| Pricing.GlobalOverrideIgnoresQuantity | custom-category-pricing.php:134-136 | two quantities that select the same global-override tier get the same price |
| Pricing.UnrecognisedTypeGivesBase | custom-category-pricing.php:162 | a selected tier of any other type falls back to the base price |
| Pricing.StepAtTierRateIsTierPrice | custom-category-pricing.php:150-159 | a step tier with overage not 'base' blends two equal rates, so the price is the tier price |
| Pricing.StepAtBaseConservesTotal | custom-category-pricing.php:140-159 | with overage 'base', unit price times quantity is threshold units at the tier price plus the remainder at the base price |
| Pricing.StepAtBaseAtThreshold | custom-category-pricing.php:140-159 | exactly at the threshold the remainder is zero and the price is the tier price |
| Pricing.StepAtBaseIsBetween | custom-category-pricing.php:140-159 | the blended price lies between the tier price and the base price |
| Pricing.StepAtBaseApproachesBase | custom-category-pricing.php:140-159 | the distance to the base price times the quantity is the fixed amount threshold times (tier price minus base), so it shrinks as 1/quantity |
| Pricing.TierPriceMovesTowardBase | custom-category-pricing.php:140-159 | for one step tier with overage 'base', a larger quantity is never further from the base price |
| Pricing.StepAtBaseMovesTowardBase | custom-category-pricing.php:113-159 | while the same step tier stays selected, raising the quantity moves the price monotonically toward the base price |
| Cart.AddCategories | custom-category-pricing.php:63-68 | adding one item's categories creates missing keys and adds the quantity once per listing, leaving every other key unchanged |
| Cart.Aggregate | custom-category-pricing.php:56-70 | the totals map has a key exactly for the categories some item carries, each mapped to the sum of quantity times listings over all items |
| Cart.DistinctCategoriesTotal | custom-category-pricing.php:56-70 | with no duplicate ids on an item, a category's total is the sum of quantities of the items carrying it |
| Cart.AggregateIgnoresPrices | custom-category-pricing.php:56-70 | the totals depend only on each line's categories and quantity, not on its price |
| Cart.FindRule | custom-category-pricing.php:87-93 | the rule scan finds nothing iff no rule has the category, otherwise the first rule in configuration order that does |
| Cart.MatchRule | custom-category-pricing.php:85-95 | nothing matches iff none of the item's categories has a rule; otherwise the match is the first category with a rule, paired with its first rule |
| Cart.MatchIsOwnCategory | custom-category-pricing.php:86-90 | the matched category is one of the item's own, and the matched rule is configured for that category |
| Cart.RepriceItem | custom-category-pricing.php:76-105 | an unmatched item is returned unchanged; a matched item only has its price replaced, by the calculator's price for its matched category's total |
| Cart.Reprice | custom-category-pricing.php:76-106 | the loop succeeds iff every item succeeds, keeps the cart's length and order, and reprices each item independently |
| Cart.PricingPass | custom-category-pricing.php:56-106 | the whole pass keeps every line except its price, leaves unmatched lines untouched, and prices a matched line from its matched category's cart-wide total |
| Cart.TotalCoversItem | custom-category-pricing.php:63-67 | a category's total is at least the quantity of any one item that carries it |
| Cart.PassSucceedsOnPositiveQuantities | custom-category-pricing.php:97-105 | if every line has a positive quantity the pass cannot divide by zero and always succeeds |
| Cart.PassIsIdempotent | custom-category-pricing.php:76-106 | running the pass on its own output returns that output again |
| Cart.SharedMatchSharesPrice | custom-category-pricing.php:103 | lines that match the same rule through the same category get the same unit price |
| ExampleConfig.BelowThreeIsBase | custom-category-pricing.php:131 | fewer than 3 items in category 15 cost 35.00 each |
| ExampleConfig.FromTenIsOverride | custom-category-pricing.php:24-29 | 10 or more items cost 30.00 each |
| ExampleConfig.StepRangeBounds | custom-category-pricing.php:31-36 | from 3 to 9 items the unit price lies between 32.00 and 35.00 |
| ExampleConfig.ThreeItemsPrice | custom-category-pricing.php:31-36 | 3 items cost 32.00 each |
| ExampleConfig.FiveItemsPrice | custom-category-pricing.php:31-36 | 5 items cost (3·32 + 2·35)/5 = 33.20 each |
| ExampleConfig.DocumentedPrices | custom-category-pricing.php:14-43 | quantities 2, 3, 5, 10 and 100 give 35.00, 32.00, 33.20, 30.00 and 30.00 |
| ExampleConfig.TierOveragePrice | custom-category-pricing.php:35 | with overage 'tier', 5 items cost 32.00 each |
| ExampleConfig.SampleCartTotal | custom-category-pricing.php:56-70 | lines of 2 and 3 units in category 15 total 5 |
| ExampleConfig.SampleCartMatches | custom-category-pricing.php:85-95 | the two category-15 lines match the shipped rule and the category-7 line matches nothing |
| ExampleConfig.SampleCartPasses | custom-category-pricing.php:76-106 | the sample cart prices without error |
| ExampleConfig.SharedCategoryCart | custom-category-pricing.php:76-106 | both category-15 lines get 33.20 and the other line keeps its price |
| ExampleConfig.CategoryOrderWins | custom-category-pricing.php:86-91 | a product in categories 1 then 2 takes the rule for category 1 even when the rule for category 2 is listed first |

## Left out

- The WordPress hook registration (line 49) and the re-entrancy and admin guards (lines 52-53): they concern when the pass runs, not what it computes.
- Calls to `get_the_terms` and `is_wp_error`: each item carries its category list, and a failed lookup is the empty list. The plugin calls the lookup twice per item (lines 60 and 79); the model assumes both calls return the same list.
- `$cart->get_cart()` and `set_price`: the cart is a sequence of `LineItem`, and writing back a price is building a new item.
- PHP floats: prices are exact reals, so rounding of the weighted average is not modelled.
- PHP's loose `==` between category ids (line 88) and the truthiness tests at lines 97 and 131: ids are integers and a matched rule or selected tier is always present as an `Option`.
- Product ids are carried on `LineItem` but unused: the source needs them only for the taxonomy lookup, which is not modelled.
- The administration screens and rule storage: rules are passed in as a sequence.
- Pricing.DynamicPrice: carries no contract of its own; each branch of the calculator is stated by the `Pricing` lemmas above.
