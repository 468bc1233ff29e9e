/**
  Tier pricing (server/src/Controller/auth.controller.js:1175-1180 and
  server/src/Controller/product.controller.js:507-520, 656-660). Each caller
  starts from some price and walks the product's discount tiers in array
  order; every tier whose minimum quantity the requested quantity reaches
  replaces the price, so the last such tier wins.
*/
module Pricing {
  import opened Wrappers
  import opened Domain

  /** The tier walk exactly as the source's loops perform it. */
  function ApplyTiers(start: int, tiers: seq<Tier>, quantity: int): int
    decreases |tiers|
  {
    if |tiers| == 0 then start
    else ApplyTiers(if quantity >= tiers[0].quantity then tiers[0].price else start,
                    tiers[1..], quantity)
  }

  /** Reference definition: the position of the last tier, in array order, that `quantity` reaches. */
  function LastMatch(tiers: seq<Tier>, quantity: int): (r: Option<nat>)
    ensures r.Some? ==> r.value < |tiers| && tiers[r.value].quantity <= quantity
    ensures r.Some? ==> forall j :: r.value < j < |tiers| ==> tiers[j].quantity > quantity
    ensures r.None? ==> forall j :: 0 <= j < |tiers| ==> tiers[j].quantity > quantity
    decreases |tiers|
  {
    if |tiers| == 0 then None
    else if tiers[|tiers| - 1].quantity <= quantity then Some(|tiers| - 1)
    else LastMatch(tiers[..|tiers| - 1], quantity)
  }

  /** The price the reference definition selects. */
  function ReferencePrice(start: int, tiers: seq<Tier>, quantity: int): int {
    match LastMatch(tiers, quantity)
    case Some(i) => tiers[i].price
    case None => start
  }

  /** The last reached tier is determined by its two defining properties. */
  lemma LastMatchUnique(tiers: seq<Tier>, quantity: int, i: nat)
    requires i < |tiers| && tiers[i].quantity <= quantity
    requires forall j :: i < j < |tiers| ==> tiers[j].quantity > quantity
    ensures LastMatch(tiers, quantity) == Some(i)
  {
  }

  /** The source's loop computes the reference price: the last reached tier, or the start price. */
  lemma {:induction false} ApplyTiersIsLastMatch(start: int, tiers: seq<Tier>, quantity: int)
    ensures ApplyTiers(start, tiers, quantity) == ReferencePrice(start, tiers, quantity)
    decreases |tiers|
  {
    if |tiers| > 0 {
      var next := if quantity >= tiers[0].quantity then tiers[0].price else start;
      var rest := tiers[1..];
      ApplyTiersIsLastMatch(next, rest, quantity);
      match LastMatch(rest, quantity)
      case Some(k) =>
        assert rest[k] == tiers[k + 1];
        forall j | k + 1 < j < |tiers|
          ensures tiers[j].quantity > quantity
        {
          assert tiers[j] == rest[j - 1];
        }
        LastMatchUnique(tiers, quantity, k + 1);
      case None =>
        forall j | 0 < j < |tiers|
          ensures tiers[j].quantity > quantity
        {
          assert tiers[j] == rest[j - 1];
        }
        if quantity >= tiers[0].quantity {
          LastMatchUnique(tiers, quantity, 0);
        } else {
          assert LastMatch(tiers, quantity).None?;
        }
    }
  }

  /** When no tier is reached the start price is kept; when one is, the start price is irrelevant. */
  lemma StartPriceOnlyMattersBelowAllTiers(s1: int, s2: int, tiers: seq<Tier>, quantity: int)
    ensures (exists j :: 0 <= j < |tiers| && tiers[j].quantity <= quantity)
            ==> ApplyTiers(s1, tiers, quantity) == ApplyTiers(s2, tiers, quantity)
    ensures (forall j :: 0 <= j < |tiers| ==> tiers[j].quantity > quantity)
            ==> ApplyTiers(s1, tiers, quantity) == s1
  {
    ApplyTiersIsLastMatch(s1, tiers, quantity);
    ApplyTiersIsLastMatch(s2, tiers, quantity);
  }

  /** Tiers listed by ascending minimum quantity. */
  predicate Ascending(tiers: seq<Tier>) {
    forall i, j :: 0 <= i < j < |tiers| ==> tiers[i].quantity <= tiers[j].quantity
  }

  /**
    With ascending tiers, the last reached tier is also a highest threshold the
    quantity reaches: the resolver's intended "highest qualifying tier".
  */
  lemma AscendingPicksHighestTier(tiers: seq<Tier>, quantity: int)
    requires Ascending(tiers)
    ensures LastMatch(tiers, quantity).Some? ==>
      forall j :: 0 <= j < |tiers| && tiers[j].quantity <= quantity ==>
        tiers[j].quantity <= tiers[LastMatch(tiers, quantity).value].quantity
  {
  }

  /** Without ascending order the array position decides, not the threshold. */
  lemma UnorderedTiersPickLastListed()
    ensures ApplyTiers(100, [Tier(5, 80), Tier(2, 90)], 6) == 90
  {
  }

  /**
    Re-walking the tiers from a price they produced for a smaller quantity
    gives the price a fresh walk gives for the larger one: growing a cart line
    re-prices it exactly as adding it anew would.
  */
  lemma ApplyTiersGrow(start: int, tiers: seq<Tier>, q1: int, q2: int)
    requires q1 <= q2
    ensures ApplyTiers(ApplyTiers(start, tiers, q1), tiers, q2) == ApplyTiers(start, tiers, q2)
  {
    var p1 := ApplyTiers(start, tiers, q1);
    ApplyTiersIsLastMatch(start, tiers, q1);
    ApplyTiersIsLastMatch(p1, tiers, q2);
    ApplyTiersIsLastMatch(start, tiers, q2);
  }
}
