/** What the three splits allocate, venue by venue: the optimal split costs what its venues charge and puts the odd lot
    on the cheapest of them, the naive one goes to the best price, and the proportional one follows displayed size.  */
module AllocationLaws {
  import opened Apportionment
  import opened Arithmetic
  import opened Baselines
  import opened MarketTypes
  import opened RoutingCosts
  import opened RoutingSplit
  import opened RoutingTable
  import opened RoutingTheorems

  // ---- The optimal split ----

  function Sum(a: seq<real>): real {
    if a == [] then 0.0 else Sum(a[..|a| - 1]) + a[|a| - 1]
  }

  function GatherCosts(values: seq<real>, at: seq<nat>): seq<real>
    requires forall k | 0 <= k < |at| :: at[k] < |values|
  {
    seq(|at|, k requires 0 <= k < |at| => values[at[k]])
  }

  lemma {:induction false} SumAppend(a: seq<real>, b: seq<real>)
    ensures Sum(a + b) == Sum(a) + Sum(b)
  {
    if b == [] {
      assert a + b == a;
    } else {
      var k := |b| - 1;
      assert (a + b)[..|a| + k] == a + b[..k];
      SumAppend(a, b[..k]);
    }
  }

  lemma SumLast(values: seq<real>, at: seq<nat>, kept: bool)
    requires values != [] && forall k | 0 <= k < |at| :: at[k] < |values| - 1
    ensures var n := |values| - 1;
            Sum(GatherCosts(values, at + if kept then [n] else [])) ==
            Sum(GatherCosts(values[..n], at)) + if kept then values[n] else 0.0
  {
    var n := |values| - 1;
    assert GatherCosts(values, at) == GatherCosts(values[..n], at);
    if kept {
      assert GatherCosts(values, at + [n])[..|at|] == GatherCosts(values, at);
    } else {
      assert at + [] == at;
    }
  }

  // Adding up over the venues in the order of the tables is adding up over the venues.
  lemma {:induction false} SumByKind(venues: seq<VenueState>, values: seq<real>)
    requires |values| == |venues|
    ensures Sum(values) ==
            Sum(GatherCosts(values, Positions(venues, LIT))) + Sum(GatherCosts(values, Positions(venues, DARK)))
  {
    if venues != [] {
      hide GatherCosts, Positions;
      var n := |venues| - 1;
      SumByKind(venues[..n], values[..n]);
      LastPosition(venues, LIT);
      LastPosition(venues, DARK);
      SumLast(values, Positions(venues[..n], LIT), venues[n].kind == LIT);
      SumLast(values, Positions(venues[..n], DARK), venues[n].kind == DARK);
    }
  }

  lemma SumInOrder(venues: seq<VenueState>, values: seq<real>)
    requires |values| == |venues|
    ensures Sum(values) == Sum(GatherCosts(values, VenueOrder(venues)))
  {
    var lit, dark := Positions(venues, LIT), Positions(venues, DARK);
    SumByKind(venues, values);
    SumAppend(GatherCosts(values, lit), GatherCosts(values, dark));
    assert GatherCosts(values, VenueOrder(venues)) == GatherCosts(values, lit) + GatherCosts(values, dark);
  }

  // The cost of an allocation is the sum of its table entries.
  lemma {:induction false} CostIsSum(tables: seq<Row>, a: seq<nat>, costs: seq<real>)
    requires |costs| == |a| == |tables| && Fits(tables, a)
    requires forall k | 0 <= k < |a| :: costs[k] == tables[k][a[k]]
    ensures CostOf(tables, a) == Sum(costs)
  {
    if a != [] { CostIsSum(tables[..|a| - 1], a[..|a| - 1], costs[..|a| - 1]); }
  }

  // What a venue charges for a number of lots.
  function Charge(cfg: RouterConfig, exp: real -> real, top: real, v: VenueState, lots: nat, litRow: Row): real
    requires 1 <= cfg.lotSize && lots < |litRow|
  {
    LotsFit(cfg.lotSize, lots);
    if v.kind == LIT then LitCost(cfg, v, lots * cfg.lotSize, v.visible, top)
    else DarkCost(cfg, exp, v, lots * cfg.lotSize, litRow)
  }

  function Charges(cfg: RouterConfig, exp: real -> real, top: real, venues: seq<VenueState>, lots: seq<nat>,
                   litRow: Row): seq<real>
    requires 1 <= cfg.lotSize && |lots| == |venues| && forall i | 0 <= i < |lots| :: lots[i] < |litRow|
  {
    seq(|venues|, i requires 0 <= i < |venues| => Charge(cfg, exp, top, venues[i], lots[i], litRow))
  }

  lemma RankOf(venues: seq<VenueState>, i: nat) returns (k: nat)
    requires i < |venues|
    ensures k < |VenueOrder(venues)| && VenueOrder(venues)[k] == i
  {
    hide VenueOrder;
    OrderIsPermutation(venues);
    assert i in VenueOrder(venues);
    k :| 0 <= k < |VenueOrder(venues)| && VenueOrder(venues)[k] == i;
  }

  // Where the engine's answer puts the lots it read back and the odd lot.
  lemma PlacedAt(cfg: RouterConfig, exp: real -> real, top: real, totalSize: nat, venues: seq<VenueState>,
                 result: SplitResult, i: nat) returns (k: nat)
    requires 1 <= cfg.lotSize && IsOptimalSplit(cfg, exp, top, totalSize, venues, result) && i < |venues|
    ensures 0 <= totalSize / cfg.lotSize && 0 <= totalSize % cfg.lotSize < cfg.lotSize
    ensures k < |VenueOrder(venues)| && VenueOrder(venues)[k] == i
    ensures var n := totalSize / cfg.lotSize;
            var lots := Backtrack(AllTables(cfg, exp, venues, n + 1, top), n + 1, top, n);
            var pick := OddLotPick(cfg, exp, venues, n + 1, top, totalSize % cfg.lotSize);
            && result.allocations[i] / cfg.lotSize == lots[k]
            && result.allocations[i] % cfg.lotSize == if k == pick then totalSize % cfg.lotSize else 0
  {
    hide Backtrack, AllTables, OddLotPick, VenueOrder, DpRow;
    NumLots(totalSize, cfg.lotSize);
    k := RankOf(venues, i);
    var n := totalSize / cfg.lotSize;
    var lots := Backtrack(AllTables(cfg, exp, venues, n + 1, top), n + 1, top, n);
    var pick := OddLotPick(cfg, exp, venues, n + 1, top, totalSize % cfg.lotSize);
    DivisionIsUnique(cfg.lotSize, result.allocations[i] / cfg.lotSize, result.allocations[i] % cfg.lotSize,
                     lots[k], if k == pick then totalSize % cfg.lotSize else 0);
  }

  // What the optimal split expects to pay is what its venues charge, each for the whole lots it is allocated.
  lemma SplitCostsItsCharges(cfg: RouterConfig, exp: real -> real, top: real, totalSize: nat, venues: seq<VenueState>,
                             result: SplitResult)
    returns (lots: seq<nat>)
    requires SaneInputs(cfg, exp, top, venues) && IsOptimalSplit(cfg, exp, top, totalSize, venues, result)
    requires result.expectedCost < top
    ensures 0 <= totalSize / cfg.lotSize && |lots| == |venues| == |result.allocations|
    ensures forall i | 0 <= i < |venues| :: lots[i] == result.allocations[i] / cfg.lotSize <= totalSize / cfg.lotSize
    ensures var litRow := LitRow(cfg, venues, totalSize / cfg.lotSize + 1, top);
            result.expectedCost == Sum(Charges(cfg, exp, top, venues, lots, litRow))
  {
    hide Backtrack, AllTables, OddLotPick, VenueOrder, DpRow, LitRow, Priced, LitCost, DarkCost, CostOf;
    NumLots(totalSize, cfg.lotSize);
    var n := totalSize / cfg.lotSize;
    var tables, litRow, order := AllTables(cfg, exp, venues, n + 1, top), LitRow(cfg, venues, n + 1, top),
                                 VenueOrder(venues);
    var back := Backtrack(tables, n + 1, top, n);
    AllTablesPriced(cfg, exp, top, venues, n + 1);
    CellBelowTop(tables, n + 1, top, n);
    LotsBound(back);
    forall i | 0 <= i < |venues| ensures 0 <= result.allocations[i] / cfg.lotSize <= n {
      var k := PlacedAt(cfg, exp, top, totalSize, venues, result, i);
    }
    lots := seq(|venues|, i requires 0 <= i < |venues| => result.allocations[i] / cfg.lotSize);
    var charges := Charges(cfg, exp, top, venues, lots, litRow);
    SumInOrder(venues, charges);
    var costs := GatherCosts(charges, order);
    forall k | 0 <= k < |order| ensures costs[k] == tables[k][back[k]] {
      var i := order[k];
      var j := PlacedAt(cfg, exp, top, totalSize, venues, result, i);
      OrderIsPermutation(venues);
      assert j == k;
      TablesAreCosts(cfg, exp, top, venues, n + 1, k, back[k]);
    }
    CostIsSum(tables, back, costs);
  }

  // Lit venues come first, then dark ones, each in their own order.
  predicate AheadOf(venues: seq<VenueState>, j: nat, i: nat)
    requires i < |venues| && j < |venues|
  {
    if venues[j].kind == venues[i].kind then j < i else venues[j].kind == LIT
  }

  lemma AheadIsEarlier(venues: seq<VenueState>, j: nat, i: nat, l: nat, k: nat)
    requires l < |VenueOrder(venues)| && k < |VenueOrder(venues)| && j < |venues| && i < |venues|
    requires VenueOrder(venues)[l] == j && VenueOrder(venues)[k] == i
    ensures AheadOf(venues, j, i) <==> l < k
  {
    PositionsArePartition(venues, LIT);
    PositionsArePartition(venues, DARK);
  }

  // The i-th venue takes the odd lot below the top, for no more than any other, and for less than those ahead of it.
  ghost predicate CheapestForOdd(cfg: RouterConfig, exp: real -> real, top: real, venues: seq<VenueState>, width: nat,
                                 odd: int, i: nat)
    requires 1 <= cfg.lotSize && 0 < width && 0 <= odd < cfg.lotSize && i < |venues|
  {
    && OddLotCost(cfg, exp, venues, width, top, odd, i) < top
    && forall j: nat | j < |venues| ::
         && OddLotCost(cfg, exp, venues, width, top, odd, i) <= OddLotCost(cfg, exp, venues, width, top, odd, j)
         && (AheadOf(venues, j, i) ==>
               OddLotCost(cfg, exp, venues, width, top, odd, i) < OddLotCost(cfg, exp, venues, width, top, odd, j))
  }

  // The odd lot goes, whole, to the first venue that charges least for it below the top, and to no other.
  lemma OddLotToTheCheapest(cfg: RouterConfig, exp: real -> real, top: real, totalSize: nat, venues: seq<VenueState>,
                            result: SplitResult, i: nat)
    requires 1 <= cfg.lotSize && IsOptimalSplit(cfg, exp, top, totalSize, venues, result) && i < |venues|
    requires 0 < totalSize % cfg.lotSize
    ensures 0 <= totalSize / cfg.lotSize && |result.allocations| == |venues|
    ensures result.allocations[i] % cfg.lotSize in {0, totalSize % cfg.lotSize}
    ensures result.allocations[i] % cfg.lotSize == totalSize % cfg.lotSize <==>
            CheapestForOdd(cfg, exp, top, venues, totalSize / cfg.lotSize + 1, totalSize % cfg.lotSize, i)
  {
    hide Backtrack, AllTables, VenueOrder, DpRow, OddLotPick, CheapestForOdd;
    NumLots(totalSize, cfg.lotSize);
    var k := PlacedAt(cfg, exp, top, totalSize, venues, result, i);
    PickIsCheapest(cfg, exp, top, venues, totalSize / cfg.lotSize + 1, totalSize % cfg.lotSize, i, k);
  }

  lemma OddCostAt(cfg: RouterConfig, exp: real -> real, top: real, venues: seq<VenueState>, width: nat, odd: int,
                  i: nat, k: nat)
    requires 1 <= cfg.lotSize && 0 < width && 0 <= odd < cfg.lotSize && i < |venues|
    requires k < |VenueOrder(venues)| && VenueOrder(venues)[k] == i
    ensures OddLotCosts(cfg, exp, venues, width, top, odd)[k] == OddLotCost(cfg, exp, venues, width, top, odd, i)
  {
    hide VenueOrder, LitRow, LitCost, DarkCost;
  }

  lemma PickIsCheapest(cfg: RouterConfig, exp: real -> real, top: real, venues: seq<VenueState>, width: nat, odd: int,
                       i: nat, k: nat)
    requires 1 <= cfg.lotSize && 0 < width && 0 < odd < cfg.lotSize && i < |venues|
    requires k < |VenueOrder(venues)| && VenueOrder(venues)[k] == i
    ensures k == OddLotPick(cfg, exp, venues, width, top, odd) <==>
            CheapestForOdd(cfg, exp, top, venues, width, odd, i)
  {
    hide VenueOrder, OddLotCosts, OddLotCost, AheadOf, Cheapest;
    var costs := OddLotCosts(cfg, exp, venues, width, top, odd);
    CheapestIsLeast(costs, top);
    var pick := OddLotPick(cfg, exp, venues, width, top, odd);
    OddCostAt(cfg, exp, top, venues, width, odd, i, k);
    if k == pick {
      forall j: nat | j < |venues|
        ensures OddLotCost(cfg, exp, venues, width, top, odd, i) <= OddLotCost(cfg, exp, venues, width, top, odd, j)
        ensures AheadOf(venues, j, i) ==>
                  OddLotCost(cfg, exp, venues, width, top, odd, i) < OddLotCost(cfg, exp, venues, width, top, odd, j)
      {
        var l := RankOf(venues, j);
        AheadIsEarlier(venues, j, i, l, k);
        OddCostAt(cfg, exp, top, venues, width, odd, j, l);
      }
    } else if costs[k] < top {
      var p := VenueOrder(venues)[pick];
      OddCostAt(cfg, exp, top, venues, width, odd, p, pick);
      AheadIsEarlier(venues, p, i, pick, k);
      OrderIsPermutation(venues);
    }
  }

  // ---- The naive split ----

  // A price at which a lit venue could be hit.
  predicate Offers(side: Side, v: VenueState) {
    v.kind == LIT && if side == BUY then v.bestAsk < 0x7FFF_FFFF_FFFF_FFFF else 0 < v.bestBid
  }

  // Everything goes to one venue: the first lit venue with the lowest ask for a buy, with the highest bid for a sell;
  // and to none exactly when no lit venue quotes.
  lemma NaiveTakesBestPrice(cfg: RouterConfig, top: real, totalSize: nat, side: Side, venues: seq<VenueState>,
                            pick: int, result: SplitResult, i: nat)
    requires IsNaivePick(side, venues, pick) && IsNaiveSplit(cfg, top, totalSize, venues, pick, result)
    requires i < |venues| && 0 < totalSize
    ensures |result.allocations| == |venues| && result.allocations[i] in {0, totalSize}
    ensures result.allocations[i] == totalSize <==>
            && Offers(side, venues[i])
            && forall j | 0 <= j < |venues| && venues[j].kind == LIT ::
                 if side == BUY then
                   venues[i].bestAsk <= venues[j].bestAsk && (j < i ==> venues[i].bestAsk < venues[j].bestAsk)
                 else
                   venues[i].bestBid >= venues[j].bestBid && (j < i ==> venues[i].bestBid > venues[j].bestBid)
    ensures (exists j | 0 <= j < |venues| :: Offers(side, venues[j])) ==>
              && 0 <= pick < |venues| && result.allocations[pick] == totalSize
              && result.expectedCost == LitCost(cfg, venues[pick], totalSize, venues[pick].visible, top)
  {
    hide LitCost;
    forall j | 0 <= j < |venues| ensures Offers(side, venues[j]) <==> Quotes(side, venues[j]) {}
    if pick != -1 && i != pick { assert Quotes(side, venues[pick]); }
  }

  // ---- The proportional split ----

  // Each venue gets the floor or the ceiling of its share of the lots; the odd lot goes to a venue that displays most;
  // a venue that displays nothing, and so every dark one, gets nothing.
  lemma SharesFollowDisplay(cfg: RouterConfig, top: real, totalSize: nat, venues: seq<VenueState>, lots: seq<int>,
                            deepest: nat, result: SplitResult, i: nat)
    requires 1 <= cfg.lotSize && IsProportionalSplit(cfg, top, totalSize, venues, lots, deepest, result)
    requires i < |venues| && 0 < Total(Displayed(venues)) && forall j | 0 <= j < |venues| :: 0 <= venues[j].visible
    ensures 0 <= totalSize / cfg.lotSize && |result.allocations| == |venues|
    ensures var n, shown, total := totalSize / cfg.lotSize, Displayed(venues)[i], Total(Displayed(venues));
            && shown == (if venues[i].kind == LIT then venues[i].visible else 0)
            && n * shown / total <= result.allocations[i] / cfg.lotSize <= n * shown / total + 1
            && (n * shown % total == 0 ==> result.allocations[i] / cfg.lotSize == n * shown / total)
            && (shown == 0 ==> result.allocations[i] == 0)
            && result.allocations[i] % cfg.lotSize in {0, totalSize % cfg.lotSize}
            && (result.allocations[i] % cfg.lotSize != 0 ==>
                  forall j | 0 <= j < |venues| && venues[j].kind == LIT :: venues[j].visible <= shown)
  {
    hide IsProportionalSplit, LargestRemainder, Total;
    NumLots(totalSize, cfg.lotSize);
    DisplayedSane(venues);
    var n, d, odd := totalSize / cfg.lotSize, Displayed(venues), totalSize % cfg.lotSize;
    AllocatedAt(cfg, top, totalSize, venues, lots, deepest, result, i);
    FloorOrCeiling(n, d, lots, i);
    ShareSplits(n, d[i], Total(d));
    if d[i] == 0 { EntryPositive(d, i); }
    if 0 < odd && i == deepest {
      forall j | 0 <= j < |venues| && venues[j].kind == LIT ensures venues[j].visible <= d[i] {
        assert d[j] <= d[i];
      }
    }
  }

  lemma AllocatedAt(cfg: RouterConfig, top: real, totalSize: nat, venues: seq<VenueState>, lots: seq<int>, deepest: nat,
                    result: SplitResult, i: nat)
    requires 1 <= cfg.lotSize && IsProportionalSplit(cfg, top, totalSize, venues, lots, deepest, result)
    requires i < |venues| && 0 < Total(Displayed(venues))
    ensures 0 <= totalSize / cfg.lotSize && |result.allocations| == |venues| == |lots|
    ensures LargestRemainder(totalSize / cfg.lotSize, Displayed(venues), lots)
    ensures result.allocations[i] == lots[i] * cfg.lotSize + if i == deepest then totalSize % cfg.lotSize else 0
    ensures result.allocations[i] / cfg.lotSize == lots[i]
    ensures result.allocations[i] % cfg.lotSize == if i == deepest then totalSize % cfg.lotSize else 0
    ensures 0 < totalSize % cfg.lotSize && i == deepest ==>
              forall j | 0 <= j < |venues| :: Displayed(venues)[j] <= Displayed(venues)[i]
  {
    hide SplitCost, Total, LargestRemainder, Before;
    NumLots(totalSize, cfg.lotSize);
    Shaped(totalSize / cfg.lotSize, Displayed(venues), lots);
    DivisionIsUnique(cfg.lotSize, result.allocations[i] / cfg.lotSize, result.allocations[i] % cfg.lotSize, lots[i],
                     if i == deepest then totalSize % cfg.lotSize else 0);
  }

  lemma Shaped(n: nat, d: seq<int>, lots: seq<int>)
    requires LargestRemainder(n, d, lots)
    ensures |lots| == |d|
  {}

  // What each venue charges for the whole of its allocation, odd lot included.
  function LitCharges(cfg: RouterConfig, top: real, venues: seq<VenueState>, allocations: seq<int>): seq<real>
    requires |allocations| == |venues|
  {
    seq(|venues|, i requires 0 <= i < |venues| =>
      if allocations[i] > 0 then LitCost(cfg, venues[i], allocations[i], venues[i].visible, top) else 0.0)
  }

  // The proportional split costs the sum of that, and as it uses lit venues only, of the whole order.
  lemma ProportionalCostsItsCharges(cfg: RouterConfig, top: real, totalSize: nat, venues: seq<VenueState>,
                                    lots: seq<int>, deepest: nat, result: SplitResult)
    requires 1 <= cfg.lotSize && IsProportionalSplit(cfg, top, totalSize, venues, lots, deepest, result)
    requires 0 < Total(Displayed(venues)) && forall j | 0 <= j < |venues| :: 0 <= venues[j].visible
    ensures |result.allocations| == |venues|
    ensures result.expectedCost == Sum(LitCharges(cfg, top, venues, result.allocations))
  {
    forall i | 0 <= i < |venues| && venues[i].kind == DARK ensures result.allocations[i] <= 0 {
      SharesFollowDisplay(cfg, top, totalSize, venues, lots, deepest, result, i);
    }
    hide LargestRemainder, Total, LitCost;
    SplitCostIsSum(cfg, top, venues, result.allocations);
  }

  lemma {:induction false} SplitCostIsSum(cfg: RouterConfig, top: real, venues: seq<VenueState>, allocations: seq<int>)
    requires |allocations| == |venues|
    requires forall i | 0 <= i < |venues| && venues[i].kind == DARK :: allocations[i] <= 0
    ensures SplitCost(cfg, venues, allocations, top) == Sum(LitCharges(cfg, top, venues, allocations))
  {
    if venues != [] {
      hide LitCost;
      var k := |venues| - 1;
      SplitCostIsSum(cfg, top, venues[..k], allocations[..k]);
      assert LitCharges(cfg, top, venues, allocations)[..k] == LitCharges(cfg, top, venues[..k], allocations[..k]);
    }
  }

  // Where something is displayed, a venue that displays nothing does not display most.
  lemma EntryPositive(d: seq<int>, i: nat)
    requires i < |d| && 0 < Total(d) && d[i] == 0
    ensures exists j | 0 <= j < |d| :: d[i] < d[j]
  {
    if forall j | 0 <= j < |d| :: d[j] <= 0 {
      TotalMonotone(d, seq(|d|, _ => 0));
      TotalOfZeros(|d|);
    }
  }
}
