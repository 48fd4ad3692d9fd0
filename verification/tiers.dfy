/**
 Pricing configuration records and the tier-selection step of the calculator:
 the tiers of a rule are sorted by descending threshold and the first tier
 whose threshold the quantity reaches is the one applied.
 */
module Tiers {
  import opened Wrappers

  /** How a tier prices the category once its threshold is met: the type
      strings 'global_override' and 'step', and `Unrecognised` for any other. */
  datatype TierType = GlobalOverride | Step | Unrecognised

  /** What a step tier charges for the units above its threshold. `Base`
      (the string 'base') charges them at the rule's base price; `TierRate`
      stands for every other configured value, the documented one being
      'tier', and charges them at the tier price. */
  datatype OverageMode = Base | TierRate

  datatype Tier = Tier(threshold: nat, price: real, kind: TierType, overage: OverageMode)

  /** A category-scoped pricing policy: a fallback price and its tiers in authored order. */
  datatype Rule = Rule(categoryId: int, basePrice: real, tiers: seq<Tier>)

  /** The aggregate quantity reaches the tier's threshold. */
  predicate Met(t: Tier, qty: nat) {
    t.threshold <= qty
  }

  predicate SortedDescending(s: seq<Tier>) {
    forall i, j :: 0 <= i < j < |s| ==> s[i].threshold >= s[j].threshold
  }

  /** Inserts `x` in front of every tier whose threshold is not larger, so an
      earlier-authored tier stays ahead of a later one with the same threshold. */
  function Insert(x: Tier, s: seq<Tier>): (r: seq<Tier>)
    requires SortedDescending(s)
    ensures SortedDescending(r)
    ensures multiset(r) == multiset(s) + multiset{x}
    ensures |r| > 0 && (r[0] == x || (|s| > 0 && r[0] == s[0]))
    decreases |s|
  {
    if |s| == 0 then [x]
    else if s[0].threshold <= x.threshold then [x] + s
    else
      var rest := Insert(x, s[1..]);
      assert rest[0].threshold <= s[0].threshold;
      assert s == [s[0]] + s[1..];
      [s[0]] + rest
  }

  /** The stable descending sort of the tiers by threshold. */
  function SortByThresholdDescending(s: seq<Tier>): (r: seq<Tier>)
    ensures SortedDescending(r)
    ensures multiset(r) == multiset(s)
  {
    if |s| == 0 then []
    else
      assert s == [s[0]] + s[1..];
      Insert(s[0], SortByThresholdDescending(s[1..]))
  }

  /** The first tier of `s` whose threshold `qty` reaches. */
  function FirstMet(s: seq<Tier>, qty: nat): (r: Option<Tier>)
    ensures r.None? <==> forall i :: 0 <= i < |s| ==> !Met(s[i], qty)
    ensures r.Some? ==> exists i :: 0 <= i < |s| && s[i] == r.value && Met(s[i], qty)
                                    && forall j :: 0 <= j < i ==> !Met(s[j], qty)
  {
    if |s| == 0 then None
    else if Met(s[0], qty) then Some(s[0])
    else FirstMet(s[1..], qty)
  }

  /** The tier applied to `qty`: sort by descending threshold, take the first met. */
  function SelectTier(tiers: seq<Tier>, qty: nat): (r: Option<Tier>)
    ensures r.None? <==> forall i :: 0 <= i < |tiers| ==> !Met(tiers[i], qty)
    ensures r.Some? ==> exists i :: IsHighestMet(tiers, qty, i) && tiers[i] == r.value
  {
    SortedFirstMetIsHighestMet(tiers, qty);
    FirstMet(SortByThresholdDescending(tiers), qty)
  }

  // ---------------------------------------------------------------------------
  // Reference definition of the selected tier, independent of any sorting.
  // ---------------------------------------------------------------------------

  /** `tiers[i]` is met, no met tier has a larger threshold, and no earlier
      authored tier with the same threshold is met. */
  predicate IsHighestMet(tiers: seq<Tier>, qty: nat, i: int) {
    && 0 <= i < |tiers|
    && Met(tiers[i], qty)
    && (forall j :: 0 <= j < |tiers| && Met(tiers[j], qty) ==> tiers[j].threshold <= tiers[i].threshold)
    && (forall j :: 0 <= j < i && Met(tiers[j], qty) ==> tiers[j].threshold < tiers[i].threshold)
  }

  /** Keeps `x` in front of the best tier found after it when `x` is met and
      its threshold is at least as large. */
  function Prefer(x: Tier, rest: Option<Tier>, qty: nat): Option<Tier> {
    if Met(x, qty) && (rest.None? || rest.value.threshold <= x.threshold) then Some(x) else rest
  }

  /** The highest met tier, earliest authored among equal thresholds, found in
      one backward pass over the authored order. */
  function HighestMet(tiers: seq<Tier>, qty: nat): (r: Option<Tier>)
    ensures r.None? <==> forall i :: 0 <= i < |tiers| ==> !Met(tiers[i], qty)
    ensures r.Some? ==> exists i :: IsHighestMet(tiers, qty, i) && tiers[i] == r.value
  {
    if |tiers| == 0 then None
    else
      var rest := HighestMet(tiers[1..], qty);
      var r := Prefer(tiers[0], rest, qty);
      assert r.Some? ==> exists i :: IsHighestMet(tiers, qty, i) && tiers[i] == r.value by {
        if r.Some? {
          if r == Some(tiers[0]) && Met(tiers[0], qty) && (rest.None? || rest.value.threshold <= tiers[0].threshold) {
            if rest.Some? {
              var k :| IsHighestMet(tiers[1..], qty, k) && tiers[1..][k] == rest.value;
            }
            assert IsHighestMet(tiers, qty, 0);
          } else {
            var k :| IsHighestMet(tiers[1..], qty, k) && tiers[1..][k] == rest.value;
            assert IsHighestMet(tiers, qty, k + 1);
          }
        }
      }
      r
  }

  /** At most one index satisfies the reference definition. */
  lemma HighestMetIsUnique(tiers: seq<Tier>, qty: nat, i: int, j: int)
    requires IsHighestMet(tiers, qty, i) && IsHighestMet(tiers, qty, j)
    ensures i == j
  {
  }

  /** Inserting a tier into a sorted list changes the first met tier exactly as
      `Prefer` does. */
  lemma {:induction false} FirstMetInsert(x: Tier, s: seq<Tier>, qty: nat)
    requires SortedDescending(s)
    ensures FirstMet(Insert(x, s), qty) == Prefer(x, FirstMet(s, qty), qty)
    decreases |s|
  {
    if |s| == 0 {
    } else if s[0].threshold <= x.threshold {
      assert ([x] + s)[1..] == s;
      var r := FirstMet(s, qty);
      if r.Some? {
        var k :| 0 <= k < |s| && s[k] == r.value;
        assert s[0].threshold >= s[k].threshold;
      }
    } else {
      var rest := Insert(x, s[1..]);
      FirstMetInsert(x, s[1..], qty);
      assert ([s[0]] + rest)[1..] == rest;
    }
  }

  /** Sorting by descending threshold and scanning for the first met tier
      selects exactly the reference tier. */
  lemma {:induction false} SortedFirstMetIsHighestMet(tiers: seq<Tier>, qty: nat)
    ensures FirstMet(SortByThresholdDescending(tiers), qty) == HighestMet(tiers, qty)
  {
    if |tiers| > 0 {
      SortedFirstMetIsHighestMet(tiers[1..], qty);
      FirstMetInsert(tiers[0], SortByThresholdDescending(tiers[1..]), qty);
    }
  }

  /** Whatever order the tiers were authored in, the selected tier is the one
      the reference definition names. */
  lemma SelectTierPicks(tiers: seq<Tier>, qty: nat, i: int)
    requires IsHighestMet(tiers, qty, i)
    ensures SelectTier(tiers, qty) == Some(tiers[i])
  {
    var r := SelectTier(tiers, qty);
    var k :| IsHighestMet(tiers, qty, k) && tiers[k] == r.value;
    HighestMetIsUnique(tiers, qty, i, k);
  }
}
