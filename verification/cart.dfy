/**
 One pricing pass over a cart: aggregate the quantities per category, match
 each line item to its governing rule, and write the calculated unit price
 back to the matched items.
 */
module Cart {
  import opened Wrappers
  import opened Tiers
  import opened Pricing

  type CategoryId = int
  type ProductId = int

  /** A cart line. `categories` is what the taxonomy lookup returns for the
      product, in its order; a failed lookup is the empty sequence. */
  datatype LineItem = LineItem(productId: ProductId, categories: seq<CategoryId>, quantity: nat, price: real)

  // ---------------------------------------------------------------------------
  // Category aggregation
  // ---------------------------------------------------------------------------

  /** How many times `c` occurs in `cats`. */
  function Occurrences(c: CategoryId, cats: seq<CategoryId>): nat {
    if |cats| == 0 then 0
    else Occurrences(c, cats[..|cats| - 1]) + (if cats[|cats| - 1] == c then 1 else 0)
  }

  /** Reference total of category `c`: every item adds its quantity once per
      occurrence of `c` among its categories. */
  function CategoryTotal(items: seq<LineItem>, c: CategoryId): nat {
    if |items| == 0 then 0
    else
      var last := items[|items| - 1];
      CategoryTotal(items[..|items| - 1], c) + last.quantity * Occurrences(c, last.categories)
  }

  /** Some item of the cart carries category `c`. */
  predicate Carried(items: seq<LineItem>, c: CategoryId) {
    exists k :: 0 <= k < |items| && c in items[k].categories
  }

  lemma {:induction false} OccurrencesOfAbsent(c: CategoryId, cats: seq<CategoryId>)
    requires c !in cats
    ensures Occurrences(c, cats) == 0
  {
    if |cats| > 0 {
      assert cats == cats[..|cats| - 1] + [cats[|cats| - 1]];
      OccurrencesOfAbsent(c, cats[..|cats| - 1]);
    }
  }

  lemma {:induction false} TotalOfUncarried(items: seq<LineItem>, c: CategoryId)
    requires !Carried(items, c)
    ensures CategoryTotal(items, c) == 0
  {
    if |items| > 0 {
      var prefix := items[..|items| - 1];
      assert forall k :: 0 <= k < |prefix| ==> prefix[k] == items[k];
      TotalOfUncarried(prefix, c);
      OccurrencesOfAbsent(c, items[|items| - 1].categories);
    }
  }

  /** The running total of `c` in `totals`, 0 when it has none yet. */
  function TotalOf(totals: map<CategoryId, nat>, c: CategoryId): nat {
    if c in totals then totals[c] else 0
  }

  /** Adds quantity `q` to the running total of every category in `cats`,
      one at a time and in order; a category seen for the first time starts at 0. */
  function AddCategories(totals: map<CategoryId, nat>, cats: seq<CategoryId>, q: nat): (r: map<CategoryId, nat>)
    ensures forall c :: c in r <==> c in totals || c in cats
    ensures forall c :: c in r ==> r[c] == TotalOf(totals, c) + q * Occurrences(c, cats)
  {
    if |cats| == 0 then totals
    else
      var prefix := cats[..|cats| - 1];
      var c := cats[|cats| - 1];
      var r0 := AddCategories(totals, prefix, q);
      var r := r0[c := TotalOf(r0, c) + q];
      AddCategoryStep(totals, cats, q, r0, r);
      r
  }

  lemma MulSucc(q: nat, n: nat)
    ensures q * (n + 1) == q * n + q
  {
  }

  /** Appending `c` to a category list adds one occurrence of `c` and none of any other category. */
  lemma OccurrencesAppend(d: CategoryId, prefix: seq<CategoryId>, c: CategoryId)
    ensures Occurrences(d, prefix + [c]) == Occurrences(d, prefix) + (if c == d then 1 else 0)
  {
    assert (prefix + [c])[..|prefix|] == prefix;
  }

  /** One category's entry after `c` is counted once more. */
  lemma AddCategoryAt(totals: map<CategoryId, nat>, prefix: seq<CategoryId>, c: CategoryId, q: nat,
                      r0: map<CategoryId, nat>, r: map<CategoryId, nat>, d: CategoryId)
    requires c in r0 <==> c in totals || c in prefix
    requires d in r0 ==> r0[d] == TotalOf(totals, d) + q * Occurrences(d, prefix)
    requires r == r0[c := TotalOf(r0, c) + q]
    requires d in r
    ensures r[d] == TotalOf(totals, d) + q * Occurrences(d, prefix + [c])
  {
    OccurrencesAppend(d, prefix, c);
    if d == c {
      if c !in r0 {
        OccurrencesOfAbsent(c, prefix);
      }
      MulSucc(q, Occurrences(c, prefix));
    }
  }

  lemma AddCategoryStep(totals: map<CategoryId, nat>, cats: seq<CategoryId>, q: nat,
                        r0: map<CategoryId, nat>, r: map<CategoryId, nat>)
    requires |cats| > 0
    requires forall d :: d in r0 <==> d in totals || d in cats[..|cats| - 1]
    requires forall d :: d in r0 ==> r0[d] == TotalOf(totals, d) + q * Occurrences(d, cats[..|cats| - 1])
    requires r == r0[cats[|cats| - 1] := TotalOf(r0, cats[|cats| - 1]) + q]
    ensures forall d :: d in r <==> d in totals || d in cats
    ensures forall d :: d in r ==> r[d] == TotalOf(totals, d) + q * Occurrences(d, cats)
  {
    var prefix := cats[..|cats| - 1];
    var c := cats[|cats| - 1];
    assert cats == prefix + [c];
    forall d | d in r
      ensures r[d] == TotalOf(totals, d) + q * Occurrences(d, cats)
    {
      AddCategoryAt(totals, prefix, c, q, r0, r, d);
    }
  }

  /** The quantity of every category in the cart, summed over the line items in one pass. */
  function Aggregate(items: seq<LineItem>): (totals: map<CategoryId, nat>)
    ensures forall c :: c in totals <==> Carried(items, c)
    ensures forall c :: c in totals ==> totals[c] == CategoryTotal(items, c)
  {
    if |items| == 0 then map[]
    else
      var prefix := items[..|items| - 1];
      var last := items[|items| - 1];
      var before := Aggregate(prefix);
      var r := AddCategories(before, last.categories, last.quantity);
      assert forall c :: Carried(items, c) <==> Carried(prefix, c) || c in last.categories by {
        forall c | Carried(items, c)
          ensures Carried(prefix, c) || c in last.categories
        {
          var k :| 0 <= k < |items| && c in items[k].categories;
          if k < |items| - 1 {
            assert prefix[k] == items[k];
          }
        }
        forall c | Carried(prefix, c)
          ensures Carried(items, c)
        {
          var k :| 0 <= k < |prefix| && c in prefix[k].categories;
          assert items[k] == prefix[k];
        }
      }
      assert forall c :: c in r && c !in before ==> CategoryTotal(prefix, c) == 0 by {
        forall c | c in r && c !in before
          ensures CategoryTotal(prefix, c) == 0
        {
          TotalOfUncarried(prefix, c);
        }
      }
      r
  }

  // ---------------------------------------------------------------------------
  // Totals when no item lists a category twice
  // ---------------------------------------------------------------------------

  predicate Distinct(cats: seq<CategoryId>) {
    forall i, j :: 0 <= i < j < |cats| ==> cats[i] != cats[j]
  }

  /** Sum of the quantities of the items that carry `c`. */
  function CarryingTotal(items: seq<LineItem>, c: CategoryId): nat {
    if |items| == 0 then 0
    else
      var last := items[|items| - 1];
      CarryingTotal(items[..|items| - 1], c) + (if c in last.categories then last.quantity else 0)
  }

  lemma {:induction false} OccurrencesOfDistinct(c: CategoryId, cats: seq<CategoryId>)
    requires Distinct(cats)
    ensures Occurrences(c, cats) == if c in cats then 1 else 0
  {
    if |cats| > 0 {
      var prefix := cats[..|cats| - 1];
      assert cats == prefix + [cats[|cats| - 1]];
      OccurrencesOfDistinct(c, prefix);
      if cats[|cats| - 1] == c {
        assert c !in prefix;
      }
    }
  }

  lemma {:induction false} TotalOfDistinct(items: seq<LineItem>, c: CategoryId)
    requires forall k :: 0 <= k < |items| ==> Distinct(items[k].categories)
    ensures CategoryTotal(items, c) == CarryingTotal(items, c)
  {
    if |items| > 0 {
      var prefix := items[..|items| - 1];
      TotalOfDistinct(prefix, c);
      OccurrencesOfDistinct(c, items[|items| - 1].categories);
    }
  }

  /** When no item lists a category twice, a category's aggregate is the sum of
      the quantities of the items carrying it. */
  lemma DistinctCategoriesTotal(items: seq<LineItem>, c: CategoryId)
    requires forall k :: 0 <= k < |items| ==> Distinct(items[k].categories)
    ensures c in Aggregate(items) ==> Aggregate(items)[c] == CarryingTotal(items, c)
  {
    TotalOfDistinct(items, c);
  }

  // ---------------------------------------------------------------------------
  // Rule matching
  // ---------------------------------------------------------------------------

  /** No configured rule governs category `c`. */
  predicate NoRuleFor(rules: seq<Rule>, c: CategoryId) {
    forall j :: 0 <= j < |rules| ==> rules[j].categoryId != c
  }

  /** `rules[j]` is the first rule, in configuration order, for category `c`. */
  predicate IsFirstRuleFor(rules: seq<Rule>, c: CategoryId, j: int) {
    0 <= j < |rules| && rules[j].categoryId == c && forall j' :: 0 <= j' < j ==> rules[j'].categoryId != c
  }

  /** The first rule for category `c`, scanning the rules in configuration order. */
  function FindRule(rules: seq<Rule>, c: CategoryId): (r: Option<Rule>)
    ensures r.None? <==> NoRuleFor(rules, c)
    ensures r.Some? ==> exists j :: IsFirstRuleFor(rules, c, j) && rules[j] == r.value
  {
    if |rules| == 0 then None
    else if rules[0].categoryId == c then
      assert IsFirstRuleFor(rules, c, 0);
      Some(rules[0])
    else
      var r := FindRule(rules[1..], c);
      assert r.Some? ==> exists j :: IsFirstRuleFor(rules, c, j) && rules[j] == r.value by {
        if r.Some? {
          var j :| IsFirstRuleFor(rules[1..], c, j) && rules[1..][j] == r.value;
          assert IsFirstRuleFor(rules, c, j + 1);
        }
      }
      r
  }

  /** The governing rule of an item and the category through which it matched. */
  datatype Match = Match(category: CategoryId, rule: Rule)

  /** `(cats[i], rules[j])` is the first matching pair when the item's
      categories are walked in order and, for each, the rules in configuration order. */
  predicate IsFirstMatch(cats: seq<CategoryId>, rules: seq<Rule>, i: int, j: int) {
    && 0 <= i < |cats|
    && IsFirstRuleFor(rules, cats[i], j)
    && forall i' :: 0 <= i' < i ==> NoRuleFor(rules, cats[i'])
  }

  /** The rule governing an item with categories `cats`: the outer walk is over
      the item's categories, the inner over the rules, and the first equal pair wins. */
  function MatchRule(cats: seq<CategoryId>, rules: seq<Rule>): (r: Option<Match>)
    ensures r.None? <==> forall i :: 0 <= i < |cats| ==> NoRuleFor(rules, cats[i])
    ensures r.Some? ==> exists i, j :: IsFirstMatch(cats, rules, i, j) && r.value == Match(cats[i], rules[j])
  {
    if |cats| == 0 then None
    else match FindRule(rules, cats[0])
      case Some(rule) =>
        var j :| IsFirstRuleFor(rules, cats[0], j) && rules[j] == rule;
        assert IsFirstMatch(cats, rules, 0, j);
        Some(Match(cats[0], rule))
      case None =>
        var r := MatchRule(cats[1..], rules);
        assert forall i :: 0 <= i < |cats[1..]| ==> cats[1..][i] == cats[i + 1];
        assert r.Some? ==> exists i, j :: IsFirstMatch(cats, rules, i, j) && r.value == Match(cats[i], rules[j]) by {
          if r.Some? {
            var i, j :| IsFirstMatch(cats[1..], rules, i, j) && r.value == Match(cats[1..][i], rules[j]);
            assert IsFirstMatch(cats, rules, i + 1, j);
          }
        }
        r
  }

  /** A match always pairs one of the item's own categories with a rule for it. */
  lemma MatchIsOwnCategory(cats: seq<CategoryId>, rules: seq<Rule>)
    requires MatchRule(cats, rules).Some?
    ensures MatchRule(cats, rules).value.category in cats
    ensures MatchRule(cats, rules).value.rule in rules
    ensures MatchRule(cats, rules).value.rule.categoryId == MatchRule(cats, rules).value.category
  {
    var m := MatchRule(cats, rules).value;
    var i, j :| IsFirstMatch(cats, rules, i, j) && m == Match(cats[i], rules[j]);
  }

  // ---------------------------------------------------------------------------
  // The pricing pass
  // ---------------------------------------------------------------------------

  /** Every category of every item has an aggregate total. */
  predicate Covers(totals: map<CategoryId, nat>, items: seq<LineItem>) {
    forall k, c :: 0 <= k < |items| && c in items[k].categories ==> c in totals
  }

  /** The item as the pass leaves it: unchanged when no rule matches, otherwise
      with its unit price set to the calculator's price for the matched
      category's aggregate quantity. */
  function RepriceItem(item: LineItem, rules: seq<Rule>, totals: map<CategoryId, nat>): (r: Result<LineItem, PriceError>)
    requires forall c :: c in item.categories ==> c in totals
    ensures MatchRule(item.categories, rules).None? ==> r == Success(item)
    ensures r.Success? ==> r.value == item.(price := r.value.price)
    ensures MatchRule(item.categories, rules).Some? ==>
              var m := MatchRule(item.categories, rules).value;
              m.category in totals
              && (r.Success? <==> DynamicPrice(totals[m.category], m.rule).Success?)
              && (r.Success? ==> r.value.price == DynamicPrice(totals[m.category], m.rule).value)
  {
    match MatchRule(item.categories, rules)
    case None => Success(item)
    case Some(m) =>
      MatchIsOwnCategory(item.categories, rules);
      match DynamicPrice(totals[m.category], m.rule)
      case Success(p) => Success(item.(price := p))
      case Failure(e) => Failure(e)
  }

  /** Reprices every line item in cart order; the first calculator failure
      aborts the pass. */
  function Reprice(items: seq<LineItem>, rules: seq<Rule>, totals: map<CategoryId, nat>): (r: Result<seq<LineItem>, PriceError>)
    requires Covers(totals, items)
    ensures r.Success? <==> forall k :: 0 <= k < |items| ==> RepriceItem(items[k], rules, totals).Success?
    ensures r.Success? ==> |r.value| == |items|
    ensures r.Success? ==> forall k :: 0 <= k < |items| ==> RepriceItem(items[k], rules, totals) == Success(r.value[k])
  {
    if |items| == 0 then Success([])
    else
      match RepriceItem(items[0], rules, totals)
      case Failure(e) => Failure(e)
      case Success(first) =>
        assert Covers(totals, items[1..]) by {
          forall k, c | 0 <= k < |items[1..]| && c in items[1..][k].categories
            ensures c in totals
          {
            assert items[1..][k] == items[k + 1];
          }
        }
        match Reprice(items[1..], rules, totals)
        case Failure(e) =>
          assert exists k :: 0 <= k < |items[1..]| && RepriceItem(items[1..][k], rules, totals).Failure?;
          Failure(e)
        case Success(rest) =>
          var out := [first] + rest;
          assert forall k :: 1 <= k < |items| ==> items[k] == items[1..][k - 1] && out[k] == rest[k - 1];
          Success(out)
  }

  /** One pricing pass: aggregate the cart, then reprice every line. */
  function PricingPass(items: seq<LineItem>, rules: seq<Rule>): (r: Result<seq<LineItem>, PriceError>)
    ensures r.Success? ==> |r.value| == |items|
    ensures r.Success? ==> forall k :: 0 <= k < |items| ==> r.value[k] == items[k].(price := r.value[k].price)
    ensures r.Success? ==> forall k :: 0 <= k < |items| && MatchRule(items[k].categories, rules).None? ==>
              r.value[k] == items[k]
    ensures r.Success? ==> forall k :: 0 <= k < |items| && MatchRule(items[k].categories, rules).Some? ==>
              DynamicPrice(CategoryTotal(items, MatchRule(items[k].categories, rules).value.category),
                           MatchRule(items[k].categories, rules).value.rule)
              == Success(r.value[k].price)
  {
    var totals := Aggregate(items);
    assert Covers(totals, items);
    Reprice(items, rules, totals)
  }

  // ---------------------------------------------------------------------------
  // Properties of the pass
  // ---------------------------------------------------------------------------

  lemma {:induction false} OccurrencesOfPresent(c: CategoryId, cats: seq<CategoryId>)
    requires c in cats
    ensures Occurrences(c, cats) >= 1
  {
    var prefix := cats[..|cats| - 1];
    assert cats == prefix + [cats[|cats| - 1]];
    if cats[|cats| - 1] != c {
      OccurrencesOfPresent(c, prefix);
    }
  }

  lemma MulAtLeast(q: nat, n: nat)
    requires n >= 1
    ensures q * n >= q
  {
  }

  /** A category's aggregate is at least the quantity of any one item carrying it. */
  lemma {:induction false} TotalCoversItem(items: seq<LineItem>, k: int, c: CategoryId)
    requires 0 <= k < |items| && c in items[k].categories
    ensures CategoryTotal(items, c) >= items[k].quantity
  {
    var prefix := items[..|items| - 1];
    if k == |items| - 1 {
      OccurrencesOfPresent(c, items[k].categories);
      MulAtLeast(items[k].quantity, Occurrences(c, items[k].categories));
    } else {
      assert prefix[k] == items[k];
      TotalCoversItem(prefix, k, c);
    }
  }

  /** When every line has a positive quantity, as in any real cart, no
      division by zero can happen and the pass always completes. */
  lemma PassSucceedsOnPositiveQuantities(items: seq<LineItem>, rules: seq<Rule>)
    requires forall k :: 0 <= k < |items| ==> items[k].quantity > 0
    ensures PricingPass(items, rules).Success?
  {
    var totals := Aggregate(items);
    forall k | 0 <= k < |items|
      ensures RepriceItem(items[k], rules, totals).Success?
    {
      var cats := items[k].categories;
      if MatchRule(cats, rules).Some? {
        var m := MatchRule(cats, rules).value;
        MatchIsOwnCategory(cats, rules);
        TotalCoversItem(items, k, m.category);
        FailsOnlyOnZeroStep(totals[m.category], m.rule);
      }
    }
  }

  /** Two carts with the same categories and quantities line by line have the same totals. */
  lemma {:induction false} TotalIgnoresPrices(a: seq<LineItem>, b: seq<LineItem>, c: CategoryId)
    requires |a| == |b|
    requires forall k :: 0 <= k < |a| ==> a[k].categories == b[k].categories && a[k].quantity == b[k].quantity
    ensures CategoryTotal(a, c) == CategoryTotal(b, c)
  {
    if |a| > 0 {
      TotalIgnoresPrices(a[..|a| - 1], b[..|b| - 1], c);
    }
  }

  lemma AggregateIgnoresPrices(a: seq<LineItem>, b: seq<LineItem>)
    requires |a| == |b|
    requires forall k :: 0 <= k < |a| ==> a[k].categories == b[k].categories && a[k].quantity == b[k].quantity
    ensures Aggregate(a) == Aggregate(b)
  {
    var ta := Aggregate(a);
    var tb := Aggregate(b);
    forall c
      ensures c in ta <==> c in tb
    {
      if Carried(a, c) {
        var k :| 0 <= k < |a| && c in a[k].categories;
        assert c in b[k].categories;
      }
      if Carried(b, c) {
        var k :| 0 <= k < |b| && c in b[k].categories;
        assert c in a[k].categories;
      }
    }
    forall c | c in ta
      ensures ta[c] == tb[c]
    {
      TotalIgnoresPrices(a, b, c);
    }
  }

  /** The calculated price depends only on quantities and the rules, never on
      the price a line already carries, so running the pass again on its own
      output changes nothing. */
  lemma PassIsIdempotent(items: seq<LineItem>, rules: seq<Rule>)
    requires PricingPass(items, rules).Success?
    ensures PricingPass(PricingPass(items, rules).value, rules) == PricingPass(items, rules)
  {
    var out := PricingPass(items, rules).value;
    var totals := Aggregate(items);
    AggregateIgnoresPrices(items, out);
    assert Aggregate(out) == totals;
    forall k | 0 <= k < |out|
      ensures RepriceItem(out[k], rules, totals) == Success(out[k])
    {
      assert RepriceItem(items[k], rules, totals) == Success(out[k]);
    }
    var again := Reprice(out, rules, totals);
    assert again.Success?;
    assert again.value == out;
  }

  /** Lines that match the same rule through the same category get the same unit price. */
  lemma SharedMatchSharesPrice(items: seq<LineItem>, rules: seq<Rule>, k1: int, k2: int)
    requires PricingPass(items, rules).Success?
    requires 0 <= k1 < |items| && 0 <= k2 < |items|
    requires MatchRule(items[k1].categories, rules).Some?
    requires MatchRule(items[k1].categories, rules) == MatchRule(items[k2].categories, rules)
    ensures PricingPass(items, rules).value[k1].price == PricingPass(items, rules).value[k2].price
  {
  }
}
