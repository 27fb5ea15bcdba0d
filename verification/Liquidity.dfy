/** What the walk over a side's levels finds within a limit, as a set of prices: the occupancy words in turn from that
    of the best price, then the overflow map, up to the first level that is worse than the limit.  */
module Liquidities {
  import opened Ladder
  import opened MarketTypes
  import opened OrderedKeys
  import opened Totals

  // The walk comes to the slot of p before that of z.
  predicate WalkedBefore(side: Side, best: int, p: int, z: int) {
    || Turn(side, best, p) < Turn(side, best, z)
    || (Turn(side, best, p) == Turn(side, best, z) && if side == SELL then p % 64 < z % 64 else z % 64 < p % 64)
  }

  // The walk takes the level at p: no worse level of the window comes before it.
  ghost predicate IsFound(side: Side, lower: int, best: int, prices: set<int>, worst: int, p: int) {
    && best != Sentinel(side) && !Better(side, worst, best) && !Better(side, worst, p)
    && if lower <= p <= lower + 255 then
         && lower <= best <= lower + 255
         && forall z | z in prices && lower <= z <= lower + 255 && Better(side, worst, z) ::
              WalkedBefore(side, best, p, z)
       else
         lower <= best <= lower + 255 ==> forall z | z in prices && lower <= z <= lower + 255 :: !Better(side, worst, z)
  }

  ghost function Found(side: Side, lower: int, best: int, prices: set<int>, worst: int): (r: set<int>)
    ensures r <= prices
  {
    set p | p in prices && IsFound(side, lower, best, prices, worst, p)
  }

  // What an opposing order limited to `worst` is told it would meet.
  ghost function Liquidity(side: Side, lower: int, best: int, m: map<int, int>, worst: int): int {
    Total(m, Found(side, lower, best, m.Keys, worst))
  }

  lemma NothingFound(side: Side, lower: int, best: int, m: map<int, int>, worst: int)
    requires best == Sentinel(side) || Better(side, worst, best)
    ensures Liquidity(side, lower, best, m, worst) == 0
  {
    forall p | p in Found(side, lower, best, m.Keys, worst) ensures false {}
    assert Found(side, lower, best, m.Keys, worst) == {};
  }

  // A walk that stops at level q of its i-th word has found what it took.
  lemma FoundAtStop(side: Side, r: Rep, levels: Levels, best: int, worst: int, i: int, seen: set<int>, more: set<int>,
                    q: int)
    requires r.InWindow(best) && best != Sentinel(side) && !Better(side, worst, best) && 0 <= i < 4
    requires Visited(side, r, levels, best, i, seen) && Barrier(side, r, levels, worst, WordAt(side, best, i), more, q)
    requires seen + more <= Eligible(side, Quantities(levels), worst)
    requires forall p | p in more :: r.InWindow(p) && Block(p) % 4 == WordAt(side, best, i)
    ensures Found(side, r.lower, best, levels.Keys, worst) == seen + more
  {
    var found := Found(side, r.lower, best, levels.Keys, worst);
    TurnOfWord(side, best, q, i);
    forall p | p in levels && r.InWindow(p) ensures p in seen + more <==> WalkedBefore(side, best, p, q) {
      TurnOfWord(side, best, p, i);
    }
    forall p | p in found ensures p in seen + more {
      assert IsFound(side, r.lower, best, levels.Keys, worst, p);
    }
    forall p | p in seen + more ensures p in found {
      forall z | z in levels.Keys && r.InWindow(z) && Better(side, worst, z) ensures WalkedBefore(side, best, p, z) {
        assert z !in Eligible(side, Quantities(levels), worst);
        WalkIsTotal(side, r.lower, best, z, q);
      }
    }
    assert found == seen + more;
  }

  // Of two levels of the window one comes before the other.
  lemma WalkIsTotal(side: Side, lower: int, best: int, p: int, z: int)
    requires lower <= p <= lower + 255 && lower <= z <= lower + 255
    ensures p == z || WalkedBefore(side, best, p, z) || WalkedBefore(side, best, z, p)
  {
    if Turn(side, best, p) == Turn(side, best, z) && p % 64 == z % 64 {
      TurnOfWord(side, best, p, Turn(side, best, p));
      TurnOfWord(side, best, z, Turn(side, best, p));
      SlotOfPrice(p);
      SlotOfPrice(z);
      SlotIsUnique(lower, p, z);
    }
  }

  // A walk that gets past the window has found its levels and the overflow levels before `ahead`.
  lemma FoundToEnd(side: Side, r: Rep, levels: Levels, best: int, worst: int, inWindow: set<int>, ahead: set<int>)
    requires best != Sentinel(side) && !Better(side, worst, best) && r.overflow.Keys <= levels.Keys
    requires inWindow + (r.overflow.Keys - ahead) <= Eligible(side, Quantities(levels), worst)
    requires forall p | p in levels :: r.InWindow(p) <==> p !in r.overflow
    requires if r.InWindow(best) then Visited(side, r, levels, best, 4, inWindow) else inWindow == {}
    requires ahead <= r.overflow.Keys && (ahead == {} || Better(side, worst, First(side, ahead).value))
    ensures Found(side, r.lower, best, levels.Keys, worst) == inWindow + (r.overflow.Keys - ahead)
  {
    var found, seen := Found(side, r.lower, best, levels.Keys, worst), inWindow + (r.overflow.Keys - ahead);
    if r.InWindow(best) {
      forall z | z in levels.Keys && r.InWindow(z) ensures z in inWindow && !Better(side, worst, z) {
        assert z in inWindow;
      }
    }
    forall p | p in found ensures p in seen {
      assert IsFound(side, r.lower, best, levels.Keys, worst, p);
    }
    forall p | p in seen ensures p in found {
      assert IsFound(side, r.lower, best, levels.Keys, worst, p);
    }
    assert found == seen;
  }

  // What the walk finds is within the limit ...
  lemma FoundIsEligible(side: Side, lower: int, best: int, m: map<int, int>, worst: int)
    requires Positive(m)
    ensures Found(side, lower, best, m.Keys, worst) <= Eligible(side, m, worst)
    ensures 0 <= Liquidity(side, lower, best, m, worst) <= Depth(side, m, worst)
    ensures Liquidity(side, lower, best, m, worst) == Depth(side, m, worst) <==>
            Found(side, lower, best, m.Keys, worst) == Eligible(side, m, worst)
  {
    TotalOfSubset(m, Found(side, lower, best, m.Keys, worst), Eligible(side, m, worst));
  }

  // ... and from an exact best price in place it is all of that exactly if nothing obstructs it.
  lemma FoundExactly(side: Side, lower: int, best: int, m: map<int, int>, worst: int)
    requires Positive(m) && Legal(m.Keys) && IsBest(side, best, m.Keys)
    requires m.Keys == {} || if side == SELL then lower <= best else best <= lower + 255
    ensures Liquidity(side, lower, best, m, worst) == Depth(side, m, worst) <==>
            Unobstructed(side, lower, best, m.Keys, worst)
  {
    FoundIsEligible(side, lower, best, m, worst);
    var found, eligible := Found(side, lower, best, m.Keys, worst), Eligible(side, m, worst);
    if Unobstructed(side, lower, best, m.Keys, worst) {
      forall p | p in eligible ensures p in found {
        EligibleIsFound(side, lower, best, m.Keys, worst, p);
      }
      assert found == eligible;
    } else {
      var z :| z in m.Keys && lower <= z <= lower + 255 && AtLeast(side, best, 4, z) && Better(side, worst, z);
      assert best in m.Keys && best in eligible;
      DistanceIsTurn(side, lower, best, z);
      assert !WalkedBefore(side, best, best, z);
      assert !IsFound(side, lower, best, m.Keys, worst, best);
    }
  }

  lemma EligibleIsFound(side: Side, lower: int, best: int, prices: set<int>, worst: int, p: int)
    requires Legal(prices) && IsBest(side, best, prices) && p in prices && !Better(side, worst, p)
    requires if side == SELL then lower <= best else best <= lower + 255
    requires Unobstructed(side, lower, best, prices, worst)
    ensures IsFound(side, lower, best, prices, worst, p)
  {
    assert p == best || Better(side, best, p);
    if lower <= p <= lower + 255 {
      forall z | z in prices && lower <= z <= lower + 255 && Better(side, worst, z)
        ensures WalkedBefore(side, best, p, z)
      {
        assert z == best || Better(side, best, z);
        DistanceIsTurn(side, lower, best, z);
        DistanceIsTurn(side, lower, best, p);
      }
    }
  }
}
