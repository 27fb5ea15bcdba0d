/** What the router's splits are worth: the optimal split attains the least total cost, allocates what it
    should, and never costs more than either baseline.  */
module RoutingTheorems {
  import opened Arithmetic
  import opened Apportionment
  import opened Baselines
  import opened MarketTypes
  import opened RoutingCosts
  import opened RoutingSplit
  import opened RoutingTable

  ghost predicate SaneInputs(cfg: RouterConfig, exp: real -> real, top: real, venues: seq<VenueState>) {
    0.0 < top && SaneConfig(cfg, exp) && forall i | 0 <= i < |venues| :: SaneVenue(venues[i])
  }

  // ---- The tables are priced, so the recurrence applies to them ----

  lemma LitTablesPriced(cfg: RouterConfig, exp: real -> real, top: real, venues: seq<VenueState>, width: nat)
    requires SaneInputs(cfg, exp, top, venues) && 0 < width
    ensures Priced(LitTables(cfg, venues, width, top), width)
  {
    var tables, lit := LitTables(cfg, venues, width, top), Positions(venues, LIT);
    forall k, x | 0 <= k < |tables| && 0 <= x < width ensures 0.0 <= tables[k][x] && tables[k][0] == 0.0 {
      ProductOfNats(x, cfg.lotSize);
      LitCostNonNegative(cfg, exp, venues[lit[k]], x * cfg.lotSize, Visible(venues[lit[k]]), top);
    }
  }

  lemma LitRowNonNegative(cfg: RouterConfig, exp: real -> real, top: real, venues: seq<VenueState>, width: nat)
    requires SaneInputs(cfg, exp, top, venues) && 0 < width
    ensures forall n | 0 <= n < width :: 0.0 <= LitRow(cfg, venues, width, top)[n]
  {
    LitTablesPriced(cfg, exp, top, venues, width);
    forall n | 0 <= n < width ensures 0.0 <= LitRow(cfg, venues, width, top)[n] {
      RowsNonNegative(LitTables(cfg, venues, width, top), width, top, n);
    }
  }

  lemma DarkTablesPriced(cfg: RouterConfig, exp: real -> real, top: real, venues: seq<VenueState>, width: nat)
    requires SaneInputs(cfg, exp, top, venues) && 0 < width
    ensures Priced(DarkTables(cfg, exp, venues, width, LitRow(cfg, venues, width, top)), width)
  {
    var litRow, dark := LitRow(cfg, venues, width, top), Positions(venues, DARK);
    var tables := DarkTables(cfg, exp, venues, width, litRow);
    LitRowNonNegative(cfg, exp, top, venues, width);
    forall k, x | 0 <= k < |tables| && 0 <= x < width ensures 0.0 <= tables[k][x] && tables[k][0] == 0.0 {
      ProductOfNats(x, cfg.lotSize);
      LotsFit(cfg.lotSize, x);
      DarkCostNonNegative(cfg, exp, venues[dark[k]], x * cfg.lotSize, litRow);
    }
  }

  lemma AllTablesPriced(cfg: RouterConfig, exp: real -> real, top: real, venues: seq<VenueState>, width: nat)
    requires SaneInputs(cfg, exp, top, venues) && 0 < width
    ensures Priced(AllTables(cfg, exp, venues, width, top), width)
  {
    LitTablesPriced(cfg, exp, top, venues, width);
    DarkTablesPriced(cfg, exp, top, venues, width);
    var lit, dark := LitTables(cfg, venues, width, top),
          DarkTables(cfg, exp, venues, width, LitRow(cfg, venues, width, top));
    var all := AllTables(cfg, exp, venues, width, top);
    forall k, x | 0 <= k < |all| && 0 <= x < width ensures 0.0 <= all[k][x] && all[k][0] == 0.0 {
      assert all[k] == if k < |lit| then lit[k] else dark[k - |lit|];
    }
  }

  // What the tables hold: for the venue at each place of the order and each number of lots, what that venue charges.
  lemma TablesAreCosts(cfg: RouterConfig, exp: real -> real, top: real, venues: seq<VenueState>, width: nat, k: nat,
                       x: nat)
    requires 1 <= cfg.lotSize && x < width && k < |VenueOrder(venues)|
    ensures x * cfg.lotSize / cfg.lotSize == x
    ensures var v := venues[VenueOrder(venues)[k]];
            AllTables(cfg, exp, venues, width, top)[k][x] ==
            if v.kind == LIT then LitCost(cfg, v, x * cfg.lotSize, v.visible, top)
            else DarkCost(cfg, exp, v, x * cfg.lotSize, LitRow(cfg, venues, width, top))
  {
    hide LitCost, DarkCost, DpRow;
    LotsFit(cfg.lotSize, x);
    PositionsArePartition(venues, LIT);
    PositionsArePartition(venues, DARK);
  }

  // The expected cost is the least total cost over all ways to place the lots on all venues, dark costs
  // being priced against the least cost of the lit venues; or the top, if that is smaller.
  lemma SplitIsOptimal(cfg: RouterConfig, exp: real -> real, top: real, totalSize: nat, venues: seq<VenueState>,
                       result: SplitResult)
    requires SaneInputs(cfg, exp, top, venues) && IsOptimalSplit(cfg, exp, top, totalSize, venues, result)
    ensures 0 <= totalSize / cfg.lotSize
    ensures var n: nat := totalSize / cfg.lotSize;
            && IsLeastCost(AllTables(cfg, exp, venues, n + 1, top), n + 1, top, n, result.expectedCost)
            && LitRowIsLeast(cfg, venues, n + 1, top)
  {
    hide LitTables, AllTables, DpRow, IsLeastCost, LitRow, LitRowIsLeast;
    NumLots(totalSize, cfg.lotSize);
    var n: nat := totalSize / cfg.lotSize;
    AllTablesPriced(cfg, exp, top, venues, n + 1);
    CellIsLeastCost(AllTables(cfg, exp, venues, n + 1, top), n + 1, top, n);
    LitCellsAreLeast(cfg, exp, top, venues, n + 1);
  }

  // Every cell of the lit row, which prices the misses of dark venues, is a least cost on the lit venues.
  ghost predicate LitRowIsLeast(cfg: RouterConfig, venues: seq<VenueState>, width: nat, top: real)
    requires 0 < width
  {
    forall m: nat | m < width :: LitCellIsLeast(cfg, venues, width, top, m)
  }

  ghost predicate LitCellIsLeast(cfg: RouterConfig, venues: seq<VenueState>, width: nat, top: real, m: nat)
    requires m < width
  {
    IsLeastCost(LitTables(cfg, venues, width, top), width, top, m, LitRow(cfg, venues, width, top)[m])
  }

  lemma LitCellsAreLeast(cfg: RouterConfig, exp: real -> real, top: real, venues: seq<VenueState>, width: nat)
    requires SaneInputs(cfg, exp, top, venues) && 0 < width
    ensures LitRowIsLeast(cfg, venues, width, top)
  {
    LitTablesPriced(cfg, exp, top, venues, width);
    forall m: nat | m < width ensures LitCellIsLeast(cfg, venues, width, top, m) {
      CellIsLeastCost(LitTables(cfg, venues, width, top), width, top, m);
    }
  }

  // ---- What is allocated ----

  function Gather(values: seq<int>, at: seq<nat>): seq<int>
    requires forall k | 0 <= k < |at| :: at[k] < |values|
  {
    seq(|at|, k requires 0 <= k < |at| => values[at[k]])
  }

  lemma {:induction false} TotalAppend(a: seq<int>, b: seq<int>)
    ensures Total(a + b) == Total(a) + Total(b)
  {
    if b == [] {
      assert a + b == a;
    } else {
      var k := |b| - 1;
      assert (a + b)[..|a| + k] == a + b[..k];
      TotalAppend(a, b[..k]);
    }
  }

  // The last venue comes last among those of its kind, and not at all among the others.
  lemma LastPosition(venues: seq<VenueState>, kind: VenueKind)
    requires venues != []
    ensures var n := |venues| - 1;
            Positions(venues, kind) == Positions(venues[..n], kind) + if venues[n].kind == kind then [n] else []
  {
    assert Positions(venues[..|venues| - 1], kind) + [] == Positions(venues[..|venues| - 1], kind);
  }

  lemma GatherLast(values: seq<int>, at: seq<nat>, kept: bool)
    requires values != [] && forall k | 0 <= k < |at| :: at[k] < |values| - 1
    ensures var n := |values| - 1;
            Total(Gather(values, at + if kept then [n] else [])) ==
                Total(Gather(values[..n], at)) + if kept then values[n] else 0
  {
    var n := |values| - 1;
    assert Gather(values, at) == Gather(values[..n], at);
    if kept {
      assert Gather(values, at + [n])[..|at|] == Gather(values, at);
    } else {
      assert at + [] == at;
    }
  }

  // Summing over the venues is summing over the lit ones, then over the dark ones.
  lemma {:induction false} TotalByKind(venues: seq<VenueState>, values: seq<int>)
    requires |values| == |venues|
    ensures Total(values) ==
            Total(Gather(values, Positions(venues, LIT))) + Total(Gather(values, Positions(venues, DARK)))
  {
    if venues != [] {
      hide Gather, Positions;
      var n := |venues| - 1;
      TotalByKind(venues[..n], values[..n]);
      LastPosition(venues, LIT);
      LastPosition(venues, DARK);
      GatherLast(values, Positions(venues[..n], LIT), venues[n].kind == LIT);
      GatherLast(values, Positions(venues[..n], DARK), venues[n].kind == DARK);
    }
  }

  lemma TotalInOrder(venues: seq<VenueState>, values: seq<int>)
    requires |values| == |venues|
    ensures Total(values) == Total(Gather(values, VenueOrder(venues)))
  {
    var lit, dark := Positions(venues, LIT), Positions(venues, DARK);
    TotalByKind(venues, values);
    TotalAppend(Gather(values, lit), Gather(values, dark));
    assert Gather(values, VenueOrder(venues)) == Gather(values, lit) + Gather(values, dark);
  }

  // The odd lot on top of whole lots.
  lemma {:induction false} TotalOfLots(values: seq<int>, lots: seq<nat>, lotSize: int, pick: int, odd: int)
    requires |values| == |lots| && -1 <= pick < |lots|
    requires forall k | 0 <= k < |lots| :: values[k] == lots[k] * lotSize + if k == pick then odd else 0
    ensures Total(values) == Lots(lots) * lotSize + if pick == -1 then 0 else odd
  {
    if lots != [] {
      var k := |lots| - 1;
      TotalOfLots(values[..k], lots[..k], lotSize, if pick == k then -1 else pick, odd);
      assert Lots(lots) * lotSize == Lots(lots[..k]) * lotSize + lots[k] * lotSize;
    }
  }

  lemma {:induction false} NoLots(lots: seq<nat>)
    requires forall k | 0 <= k < |lots| :: lots[k] == 0
    ensures Lots(lots) == 0
  {
    if lots != [] { NoLots(lots[..|lots| - 1]); }
  }

  // What the engine allocates, by its own cost and its own pick for the odd lot.
  lemma SplitParts(cfg: RouterConfig, exp: real -> real, top: real, totalSize: nat, venues: seq<VenueState>,
                   result: SplitResult)
    requires SaneInputs(cfg, exp, top, venues) && IsOptimalSplit(cfg, exp, top, totalSize, venues, result)
    ensures 0 <= totalSize / cfg.lotSize && 0 <= totalSize % cfg.lotSize < cfg.lotSize
    ensures var odd := totalSize % cfg.lotSize;
            var pick := OddLotPick(cfg, exp, venues, totalSize / cfg.lotSize + 1, top, odd);
            Total(result.allocations) ==
            (if result.expectedCost == top then 0 else totalSize - odd) + (if pick == -1 then 0 else odd)
  {
    hide Backtrack, DpRow, AllTables, OddLotPick, VenueOrder, Total, Lots, Priced;
    NumLots(totalSize, cfg.lotSize);
    var n, odd := totalSize / cfg.lotSize, totalSize % cfg.lotSize;
    var tables, order := AllTables(cfg, exp, venues, n + 1, top), VenueOrder(venues);
    var lots, pick := Backtrack(tables, n + 1, top, n), OddLotPick(cfg, exp, venues, n + 1, top, odd);
    AllTablesPriced(cfg, exp, top, venues, n + 1);
    RowsNonNegative(tables, n + 1, top, n);
    TotalInOrder(venues, result.allocations);
    TotalOfLots(Gather(result.allocations, order), lots, cfg.lotSize, pick, odd);
    if result.expectedCost == top {
      CellAtTop(tables, n + 1, top, n);
      NoLots(lots);
    } else {
      CellBelowTop(tables, n + 1, top, n);
    }
  }

  // The whole lots can be placed on the venues for less than the top.
  ghost predicate PlacesLots(cfg: RouterConfig, exp: real -> real, top: real, venues: seq<VenueState>, n: nat)
    requires 1 <= cfg.lotSize
  {
    var tables := AllTables(cfg, exp, venues, n + 1, top);
    exists a :: Places(a, |tables|, n) && Fits(tables, a) && CostOf(tables, a) < top
  }

  // Some venue takes the odd lot for less than the top.
  ghost predicate TakesOddLot(cfg: RouterConfig, exp: real -> real, top: real, venues: seq<VenueState>, width: nat,
                              odd: int)
    requires 1 <= cfg.lotSize && 0 < width && 0 <= odd < cfg.lotSize
  {
    exists k | 0 <= k < |venues| :: OddLotCost(cfg, exp, venues, width, top, odd, k) < top
  }

  // What the odd lot would cost at the i-th venue.
  function OddLotCost(cfg: RouterConfig, exp: real -> real, venues: seq<VenueState>, width: nat, top: real, odd: int,
                      i: nat): real
    requires 1 <= cfg.lotSize && 0 < width && 0 <= odd < cfg.lotSize && i < |venues|
  {
    assert odd / cfg.lotSize == 0;
    if venues[i].kind == LIT then LitCost(cfg, venues[i], odd, Visible(venues[i]), top)
    else DarkCost(cfg, exp, venues[i], odd, LitRow(cfg, venues, width, top))
  }

  // The engine's pick for the odd lot exists exactly when some venue takes it.
  lemma PickExists(cfg: RouterConfig, exp: real -> real, top: real, venues: seq<VenueState>, width: nat, odd: int)
    requires 1 <= cfg.lotSize && 0 < width && 0 < odd < cfg.lotSize
    ensures OddLotPick(cfg, exp, venues, width, top, odd) != -1 <==> TakesOddLot(cfg, exp, top, venues, width, odd)
  {
    hide LitRow, LitCost, DarkCost;
    var order, costs := VenueOrder(venues), OddLotCosts(cfg, exp, venues, width, top, odd);
    CheapestIsLeast(costs, top);
    OrderIsPermutation(venues);
    var k := Cheapest(costs, top).1;
    if k != -1 {
      assert OddLotCost(cfg, exp, venues, width, top, odd, order[k]) == costs[k];
    }
    if TakesOddLot(cfg, exp, top, venues, width, odd) {
      var i :| 0 <= i < |venues| && OddLotCost(cfg, exp, venues, width, top, odd, i) < top;
      assert i in order;
      var j :| 0 <= j < |order| && order[j] == i;
      assert costs[j] < top;
    }
  }

  // The expected cost stays below the top exactly when the whole lots can be placed below it.
  lemma BelowTop(costs: seq<Row>, width: nat, top: real, n: nat)
    requires Priced(costs, width) && 0.0 < top && n < width
    ensures DpRow(costs, width, top)[n] < top <==>
              exists a :: Places(a, |costs|, n) && Fits(costs, a) && CostOf(costs, a) < top
  {
    hide Priced, DpRow, CostOf, Lots;
    IsPriced(costs, width);
    CellIsLeastCost(costs, width, top, n);
  }

  // What the venues can take of an order: its whole lots or none of them, and the odd lot or nothing of it.
  ghost function Takeable(cfg: RouterConfig, exp: real -> real, top: real, totalSize: nat, venues: seq<VenueState>): int
    requires 1 <= cfg.lotSize
  {
    NumLots(totalSize, cfg.lotSize);
    var n, odd := totalSize / cfg.lotSize, totalSize % cfg.lotSize;
    (if PlacesLots(cfg, exp, top, venues, n) then totalSize - odd else 0)
    + (if odd > 0 && TakesOddLot(cfg, exp, top, venues, n + 1, odd) then odd else 0)
  }

  // The optimal split allocates exactly that, and no share of it is negative.
  lemma SplitTotal(cfg: RouterConfig, exp: real -> real, top: real, totalSize: nat, venues: seq<VenueState>,
                   result: SplitResult)
    requires SaneInputs(cfg, exp, top, venues) && IsOptimalSplit(cfg, exp, top, totalSize, venues, result)
    ensures forall i | 0 <= i < |venues| :: 0 <= result.allocations[i]
    ensures Total(result.allocations) == Takeable(cfg, exp, top, totalSize, venues)
  {
    hide Backtrack, DpRow, AllTables, OddLotPick, VenueOrder, Total, Lots, Priced, TakesOddLot, CostOf;
    SplitParts(cfg, exp, top, totalSize, venues, result);
    var n, odd := totalSize / cfg.lotSize, totalSize % cfg.lotSize;
    NumLots(totalSize, cfg.lotSize);
    var tables := AllTables(cfg, exp, venues, n + 1, top);
    AllTablesPriced(cfg, exp, top, venues, n + 1);
    RowsNonNegative(tables, n + 1, top, n);
    BelowTop(tables, n + 1, top, n);
    if odd > 0 { PickExists(cfg, exp, top, venues, n + 1, odd); }
    SharesNonNegative(cfg, exp, top, totalSize, venues, result);
  }

  // The venues can take all of an order.
  ghost predicate CanAllocate(cfg: RouterConfig, exp: real -> real, top: real, totalSize: nat, venues: seq<VenueState>)
    requires 1 <= cfg.lotSize
  {
    NumLots(totalSize, cfg.lotSize);
    var n, odd := totalSize / cfg.lotSize, totalSize % cfg.lotSize;
    PlacesLots(cfg, exp, top, venues, n) && (odd == 0 || TakesOddLot(cfg, exp, top, venues, n + 1, odd))
  }

  // The whole lots and the odd lot find venues together or not at all.
  ghost predicate AllOrNothing(cfg: RouterConfig, exp: real -> real, top: real, totalSize: nat, venues: seq<VenueState>)
    requires 1 <= cfg.lotSize
  {
    NumLots(totalSize, cfg.lotSize);
    var n, odd := totalSize / cfg.lotSize, totalSize % cfg.lotSize;
    n == 0 || odd == 0 || (PlacesLots(cfg, exp, top, venues, n) <==> TakesOddLot(cfg, exp, top, venues, n + 1, odd))
  }

  // The total never exceeds the order; it is the order exactly when the venues can take all of it, and a part of it
  // exactly when only the whole lots or only the odd lot find venues.
  lemma SplitNeverExceeds(cfg: RouterConfig, exp: real -> real, top: real, totalSize: nat, venues: seq<VenueState>,
                          result: SplitResult)
    requires SaneInputs(cfg, exp, top, venues) && IsOptimalSplit(cfg, exp, top, totalSize, venues, result)
    ensures 0 <= Total(result.allocations) <= totalSize
    ensures Total(result.allocations) == totalSize <==> CanAllocate(cfg, exp, top, totalSize, venues)
    ensures Total(result.allocations) in {0, totalSize} <==> AllOrNothing(cfg, exp, top, totalSize, venues)
  {
    hide IsOptimalSplit, PlacesLots, TakesOddLot, Total;
    SplitTotal(cfg, exp, top, totalSize, venues, result);
    NumLots(totalSize, cfg.lotSize);
    var n := totalSize / cfg.lotSize;
    if n == 0 { NoLotsPlaced(cfg, exp, top, venues); } else { MultipleIsLarge(cfg.lotSize, n); }
  }

  // No lots can always be placed.
  lemma NoLotsPlaced(cfg: RouterConfig, exp: real -> real, top: real, venues: seq<VenueState>)
    requires SaneInputs(cfg, exp, top, venues)
    ensures PlacesLots(cfg, exp, top, venues, 0)
  {
    hide AllTables, CostOf, Lots, Priced;
    var tables := AllTables(cfg, exp, venues, 1, top);
    AllTablesPriced(cfg, exp, top, venues, 1);
    NothingIsFree(tables, 1);
  }

  lemma SharesNonNegative(cfg: RouterConfig, exp: real -> real, top: real, totalSize: nat, venues: seq<VenueState>,
                          result: SplitResult)
    requires SaneInputs(cfg, exp, top, venues) && IsOptimalSplit(cfg, exp, top, totalSize, venues, result)
    ensures forall i | 0 <= i < |venues| :: 0 <= result.allocations[i]
  {
    hide Backtrack, DpRow, AllTables, OddLotPick, VenueOrder;
    NumLots(totalSize, cfg.lotSize);
    var n, order := totalSize / cfg.lotSize, VenueOrder(venues);
    var lots := Backtrack(AllTables(cfg, exp, venues, n + 1, top), n + 1, top, n);
    OrderIsPermutation(venues);
    forall i | 0 <= i < |venues| ensures 0 <= result.allocations[i] {
      assert i in order;
      var k :| 0 <= k < |order| && order[k] == i;
      ProductOfNats(lots[k], cfg.lotSize);
    }
  }

  function Nothing(count: nat): (a: seq<nat>) {
    seq(count, _ => 0)
  }

  lemma {:induction false} NothingIsFree(tables: seq<Row>, width: nat)
    requires Priced(tables, width)
    ensures Places(Nothing(|tables|), |tables|, 0) && Fits(tables, Nothing(|tables|))
    ensures CostOf(tables, Nothing(|tables|)) == 0.0
  {
    NoLots(Nothing(|tables|));
    if tables != [] {
      var k := |tables| - 1;
      assert Nothing(|tables|)[..k] == Nothing(k);
      NothingIsFree(tables[..k], width);
    }
  }

  // All lots at one venue.
  function AllAt(count: nat, k: nat, n: nat): (a: seq<nat>)
    requires k < count
    ensures |a| == count
  {
    Nothing(count)[k := n]
  }

  lemma {:induction false} AllAtCosts(tables: seq<Row>, width: nat, k: nat, n: nat)
    requires Priced(tables, width) && k < |tables| && n < width
    ensures Places(AllAt(|tables|, k, n), |tables|, n) && Fits(tables, AllAt(|tables|, k, n))
    ensures CostOf(tables, AllAt(|tables|, k, n)) == tables[k][n]
  {
    var last := |tables| - 1;
    if k == last {
      assert AllAt(|tables|, k, n)[..last] == Nothing(last);
      NothingIsFree(tables[..last], width);
    } else {
      assert AllAt(|tables|, k, n)[..last] == AllAt(last, k, n);
      AllAtCosts(tables[..last], width, k, n);
    }
  }

  // One lit venue that takes the whole lots and the odd lot below the top is enough to allocate in full.
  lemma LitVenueSuffices(cfg: RouterConfig, exp: real -> real, top: real, totalSize: nat, venues: seq<VenueState>,
                         result: SplitResult, i: nat)
    requires SaneInputs(cfg, exp, top, venues) && IsOptimalSplit(cfg, exp, top, totalSize, venues, result)
    requires i < |venues| && venues[i].kind == LIT
    requires LitCost(cfg, venues[i], totalSize - totalSize % cfg.lotSize, venues[i].visible, top) < top
    requires LitCost(cfg, venues[i], totalSize % cfg.lotSize, venues[i].visible, top) < top
    ensures Total(result.allocations) == totalSize
  {
    hide DpRow, Places, Total, CostOf, Priced, LitCost, DarkTables, IsOptimalSplit, TakesOddLot;
    NumLots(totalSize, cfg.lotSize);
    var n, odd := totalSize / cfg.lotSize, totalSize % cfg.lotSize;
    LitVenuePlaces(cfg, exp, top, venues, i, n);
    assert PlacesLots(cfg, exp, top, venues, n);
    if odd > 0 { LitVenueTakes(cfg, exp, top, venues, i, n + 1, odd); }
    SplitNeverExceeds(cfg, exp, top, totalSize, venues, result);
  }

  // All lots at one lit venue cost what that venue asks for them.
  lemma LitVenuePlaces(cfg: RouterConfig, exp: real -> real, top: real, venues: seq<VenueState>, i: nat, n: nat)
    requires SaneInputs(cfg, exp, top, venues) && i < |venues| && venues[i].kind == LIT
    ensures var tables := AllTables(cfg, exp, venues, n + 1, top);
            exists a :: Places(a, |tables|, n) && Fits(tables, a)
                        && CostOf(tables, a) == LitCost(cfg, venues[i], n * cfg.lotSize, venues[i].visible, top)
  {
    hide Places, CostOf, Priced, LitCost, DarkTables;
    var tables := AllTables(cfg, exp, venues, n + 1, top);
    var k := LitRank(venues, i);
    AllTablesPriced(cfg, exp, top, venues, n + 1);
    AllAtCosts(tables, n + 1, k, n);
    assert tables[k] == LitTable(cfg, venues[i], n + 1, top);
  }

  lemma LitVenueTakes(cfg: RouterConfig, exp: real -> real, top: real, venues: seq<VenueState>, i: nat, width: nat,
                      odd: int)
    requires 1 <= cfg.lotSize && 0 < width && 0 < odd < cfg.lotSize && i < |venues| && venues[i].kind == LIT
    requires LitCost(cfg, venues[i], odd, venues[i].visible, top) < top
    ensures TakesOddLot(cfg, exp, top, venues, width, odd)
  {
    assert OddLotCost(cfg, exp, venues, width, top, odd, i) < top;
  }

  lemma LitRank(venues: seq<VenueState>, i: nat) returns (k: nat)
    requires i < |venues| && venues[i].kind == LIT
    ensures k < |Positions(venues, LIT)| && Positions(venues, LIT)[k] == i && VenueOrder(venues)[k] == i
  {
    PositionsArePartition(venues, LIT);
    k :| 0 <= k < |Positions(venues, LIT)| && Positions(venues, LIT)[k] == i;
  }

  // ---- The baselines ----

  // The optimal split costs no more than sending everything to one venue.
  lemma NoDearerThanNaive(cfg: RouterConfig, exp: real -> real, top: real, totalSize: nat, side: Side,
                          venues: seq<VenueState>, best: SplitResult, pick: int, naive: SplitResult)
    requires SaneInputs(cfg, exp, top, venues) && IsOptimalSplit(cfg, exp, top, totalSize, venues, best)
    requires IsNaivePick(side, venues, pick) && IsNaiveSplit(cfg, top, totalSize, venues, pick, naive)
    ensures best.expectedCost <= naive.expectedCost
  {
    hide DpRow, Places, CostOf, Priced, LitCost, AllTables, VenueOrder;
    NumLots(totalSize, cfg.lotSize);
    var n := totalSize / cfg.lotSize;
    var tables := AllTables(cfg, exp, venues, n + 1, top);
    AllTablesPriced(cfg, exp, top, venues, n + 1);
    RowsNonNegative(tables, n + 1, top, n);
    if pick != -1 {
      var v := venues[pick];
      LitVenuePlaces(cfg, exp, top, venues, pick, n);
      var lots := n * cfg.lotSize;
      var a :| Places(a, |tables|, n) && Fits(tables, a) && CostOf(tables, a) == LitCost(cfg, v, lots, v.visible, top);
      CellIsLowerBound(tables, n + 1, top, n, a);
      ProductOfNats(n, cfg.lotSize);
      LitCostGrows(cfg, exp, v, lots, totalSize, v.visible, top);
    }
  }

  // For a whole number of lots the naive cost is what the tables charge for placing them all at one venue.
  lemma NaiveIsPlacement(cfg: RouterConfig, exp: real -> real, top: real, totalSize: nat, side: Side,
                         venues: seq<VenueState>, pick: int, naive: SplitResult)
    requires SaneInputs(cfg, exp, top, venues) && totalSize % cfg.lotSize == 0 && pick != -1
    requires IsNaivePick(side, venues, pick) && IsNaiveSplit(cfg, top, totalSize, venues, pick, naive)
    ensures 0 <= totalSize / cfg.lotSize
    ensures var n: nat := totalSize / cfg.lotSize;
            var tables := AllTables(cfg, exp, venues, n + 1, top);
            exists a :: Places(a, |tables|, n) && Fits(tables, a) && CostOf(tables, a) == naive.expectedCost
  {
    hide DpRow, Places, CostOf, Priced, LitCost, AllTables, VenueOrder;
    NumLots(totalSize, cfg.lotSize);
    LitVenuePlaces(cfg, exp, top, venues, pick, totalSize / cfg.lotSize);
  }

  lemma {:induction false} LotsAreTotal(lots: seq<nat>, values: seq<int>)
    requires |lots| == |values| && forall k | 0 <= k < |lots| :: lots[k] == values[k]
    ensures Lots(lots) == Total(values)
  {
    if lots != [] { LotsAreTotal(lots[..|lots| - 1], values[..|lots| - 1]); }
  }

  // Whole lots on lit venues only.
  ghost predicate LitOnly(venues: seq<VenueState>, lots: seq<nat>) {
    |lots| == |venues| && forall i | 0 <= i < |venues| && venues[i].kind == DARK :: lots[i] == 0
  }

  function Shares(lots: seq<nat>, lotSize: int): seq<int> {
    seq(|lots|, i requires 0 <= i < |lots| => lots[i] * lotSize)
  }

  function LitLots(venues: seq<VenueState>, lots: seq<nat>): (a: seq<nat>)
    requires |lots| == |venues|
  {
    var lit := Positions(venues, LIT);
    seq(|lit|, k requires 0 <= k < |lit| => lots[lit[k]])
  }

  // The tables and lots of the lit venues, up to and without the last venue.
  lemma LastLit(cfg: RouterConfig, top: real, venues: seq<VenueState>, lots: seq<nat>, width: nat)
    requires venues != [] && |lots| == |venues|
    ensures var n := |venues| - 1;
            if venues[n].kind == LIT then
              && LitTables(cfg, venues, width, top) ==
                   LitTables(cfg, venues[..n], width, top) + [LitTable(cfg, venues[n], width, top)]
              && LitLots(venues, lots) == LitLots(venues[..n], lots[..n]) + [lots[n]]
            else
              && LitTables(cfg, venues, width, top) == LitTables(cfg, venues[..n], width, top)
              && LitLots(venues, lots) == LitLots(venues[..n], lots[..n])
  {
    hide LitTable;
    LastPosition(venues, LIT);
  }

  // The last venue's share of the cost is the table's cost of its lots.
  lemma LastCost(cfg: RouterConfig, top: real, v: VenueState, lots: nat, width: nat)
    requires 1 <= cfg.lotSize && lots < width && v.kind == LIT
    ensures LitTable(cfg, v, width, top)[lots] ==
              if lots * cfg.lotSize > 0 then LitCost(cfg, v, lots * cfg.lotSize, DisplayedAt(v), top) else 0.0
  {
    if lots > 0 { MultipleIsLarge(cfg.lotSize, lots); }
  }

  lemma LitTablesFit(cfg: RouterConfig, top: real, venues: seq<VenueState>, lots: seq<nat>, width: nat)
    requires |lots| == |venues| && forall i | 0 <= i < |lots| :: lots[i] < width
    ensures Fits(LitTables(cfg, venues, width, top), LitLots(venues, lots))
  {}

  // On lit venues, the split's cost is the cost of the same lots in the table.
  lemma {:induction false} SplitCostInTable(cfg: RouterConfig, top: real, venues: seq<VenueState>, lots: seq<nat>,
                                            width: nat)
    requires 1 <= cfg.lotSize && LitOnly(venues, lots) && forall i | 0 <= i < |lots| :: lots[i] < width
    ensures Fits(LitTables(cfg, venues, width, top), LitLots(venues, lots))
    ensures SplitCost(cfg, venues, Shares(lots, cfg.lotSize), top) ==
              CostOf(LitTables(cfg, venues, width, top), LitLots(venues, lots))
  {
    hide LitTable, LitTables, LitLots, LitCost, DisplayedAt;
    LitTablesFit(cfg, top, venues, lots, width);
    if venues == [] {
      NoLitVenues(cfg, top, width);
    } else {
      var n := |venues| - 1;
      SplitCostInTable(cfg, top, venues[..n], lots[..n], width);
      assert Shares(lots, cfg.lotSize)[..n] == Shares(lots[..n], cfg.lotSize);
      LastLit(cfg, top, venues, lots, width);
      if venues[n].kind == LIT {
        CostAppend(LitTables(cfg, venues[..n], width, top), LitLots(venues[..n], lots[..n]),
                   LitTable(cfg, venues[n], width, top), lots[n]);
        LastCost(cfg, top, venues[n], lots[n], width);
      }
    }
  }

  lemma NoLitVenues(cfg: RouterConfig, top: real, width: nat)
    ensures LitTables(cfg, [], width, top) == [] && LitLots([], []) == []
  {}

  // Adding venues that get nothing changes neither the lots nor the cost.
  lemma {:induction false} PadWithNothing(tables: seq<Row>, more: seq<Row>, a: seq<nat>, width: nat)
    requires Tables(tables, width) && Priced(more, width) && Fits(tables, a)
    ensures var b := a + Nothing(|more|);
            Fits(tables + more, b) && Lots(b) == Lots(a) && CostOf(tables + more, b) == CostOf(tables, a)
  {
    if more == [] {
      assert tables + more == tables && a + Nothing(0) == a;
    } else {
      var k := |more| - 1;
      PadWithNothing(tables, more[..k], a, width);
      assert (tables + more)[..|tables| + k] == tables + more[..k];
      assert (a + Nothing(|more|))[..|a| + k] == a + Nothing(k);
    }
  }

  // Any placement of the lots on lit venues costs at least what the optimal split expects.
  lemma NoDearerThanLitOnly(cfg: RouterConfig, exp: real -> real, top: real, totalSize: nat, venues: seq<VenueState>,
                            best: SplitResult, lots: seq<nat>)
    requires SaneInputs(cfg, exp, top, venues) && IsOptimalSplit(cfg, exp, top, totalSize, venues, best)
    requires LitOnly(venues, lots) && Lots(lots) == totalSize / cfg.lotSize
    ensures best.expectedCost <= SplitCost(cfg, venues, Shares(lots, cfg.lotSize), top)
  {
    NumLots(totalSize, cfg.lotSize);
    var n := totalSize / cfg.lotSize;
    AllTablesPriced(cfg, exp, top, venues, n + 1);
    DarkTablesPriced(cfg, exp, top, venues, n + 1);
    LotsBound(lots);
    SplitCostInTable(cfg, top, venues, lots, n + 1);
    var lit, dark := LitTables(cfg, venues, n + 1, top),
          DarkTables(cfg, exp, venues, n + 1, LitRow(cfg, venues, n + 1, top));
    var a := LitLots(venues, lots);
    PadWithNothing(lit, dark, a, n + 1);
    LitLotsAreAll(venues, lots);
    CellIsLowerBound(lit + dark, n + 1, top, n, a + Nothing(|dark|));
  }

  lemma LitLotsAreAll(venues: seq<VenueState>, lots: seq<nat>)
    requires LitOnly(venues, lots)
    ensures Lots(LitLots(venues, lots)) == Lots(lots)
  {
    var values := seq(|lots|, i requires 0 <= i < |lots| => lots[i]);
    TotalByKind(venues, values);
    var lit, dark := Positions(venues, LIT), Positions(venues, DARK);
    PositionsArePartition(venues, DARK);
    assert Gather(values, dark) == seq(|dark|, _ => 0);
    TotalOfZeros(|dark|);
    LotsAreTotal(lots, values);
    LotsAreTotal(LitLots(venues, lots), Gather(values, lit));
  }

  // Allocating more costs no less.
  lemma {:induction false} SplitCostGrows(cfg: RouterConfig, exp: real -> real, top: real, venues: seq<VenueState>,
                                          less: seq<int>, more: seq<int>)
    requires SaneInputs(cfg, exp, top, venues) && |less| == |more| == |venues|
    requires forall i | 0 <= i < |venues| :: 0 <= less[i] <= more[i]
    ensures SplitCost(cfg, venues, less, top) <= SplitCost(cfg, venues, more, top)
  {
    if venues != [] {
      hide LitCost;
      var k := |venues| - 1;
      SplitCostGrows(cfg, exp, top, venues[..k], less[..k], more[..k]);
      LitCostGrows(cfg, exp, venues[k], less[k], more[k], DisplayedAt(venues[k]), top);
      LitCostNonNegative(cfg, exp, venues[k], more[k], DisplayedAt(venues[k]), top);
    }
  }

  // The optimal split costs no more than the proportional one.
  lemma NoDearerThanProportional(cfg: RouterConfig, exp: real -> real, top: real, totalSize: nat,
                                 venues: seq<VenueState>,
                                 best: SplitResult, lots: seq<int>, deepest: nat, proportional: SplitResult)
    requires SaneInputs(cfg, exp, top, venues) && IsOptimalSplit(cfg, exp, top, totalSize, venues, best)
    requires IsProportionalSplit(cfg, top, totalSize, venues, lots, deepest, proportional)
    ensures best.expectedCost <= proportional.expectedCost
  {
    NumLots(totalSize, cfg.lotSize);
    var n, d := totalSize / cfg.lotSize, Displayed(venues);
    if Total(d) == 0 {
      AllTablesPriced(cfg, exp, top, venues, n + 1);
      RowsNonNegative(AllTables(cfg, exp, venues, n + 1, top), n + 1, top, n);
    } else {
      DisplayedSane(venues);
      var a: seq<nat> := NonNegativeLots(n, d, lots);
      LotsAreTotal(a, lots);
      forall i | 0 <= i < |venues| && venues[i].kind == DARK ensures a[i] == 0 { ShareSplits(n, d[i], Total(d)); }
      NoDearerThanLitOnly(cfg, exp, top, totalSize, venues, best, a);
      SharesBelow(cfg, top, totalSize, venues, a, lots, deepest, proportional);
      SplitCostGrows(cfg, exp, top, venues, Shares(a, cfg.lotSize), proportional.allocations);
    }
  }

  // The whole lots of the proportional split are part of it.
  lemma SharesBelow(cfg: RouterConfig, top: real, totalSize: nat, venues: seq<VenueState>, a: seq<nat>, lots: seq<int>,
                    deepest: nat, proportional: SplitResult)
    requires 1 <= cfg.lotSize && IsProportionalSplit(cfg, top, totalSize, venues, lots, deepest, proportional)
    requires Total(Displayed(venues)) != 0 && |a| == |lots| && forall i | 0 <= i < |lots| :: a[i] == lots[i]
    ensures |a| == |venues| == |proportional.allocations|
    ensures forall i | 0 <= i < |venues| :: 0 <= Shares(a, cfg.lotSize)[i] <= proportional.allocations[i]
  {
    hide Total, SplitCost;
    NumLots(totalSize, cfg.lotSize);
    forall i | 0 <= i < |venues| ensures 0 <= Shares(a, cfg.lotSize)[i] <= proportional.allocations[i] {
      ProductOfNats(a[i], cfg.lotSize);
    }
  }

  lemma NonNegativeLots(n: nat, d: seq<int>, lots: seq<int>) returns (a: seq<nat>)
    requires Displays(d) && LargestRemainder(n, d, lots)
    ensures |a| == |lots| && forall i | 0 <= i < |lots| :: a[i] == lots[i]
  {
    forall i | 0 <= i < |d| ensures 0 <= lots[i] {
      ProductOfNats(n, d[i]);
      Quotient(n * d[i], Total(d));
    }
    a := seq(|lots|, i requires 0 <= i < |lots| => lots[i]);
  }

  // The proportional split allocates exactly the order whenever anything is displayed, and nothing otherwise.
  lemma ProportionalTotal(cfg: RouterConfig, top: real, totalSize: nat, venues: seq<VenueState>, lots: seq<int>,
                          deepest: nat, result: SplitResult)
    requires 1 <= cfg.lotSize && IsProportionalSplit(cfg, top, totalSize, venues, lots, deepest, result)
    requires forall i | 0 <= i < |venues| :: 0 <= venues[i].visible
    ensures Total(result.allocations) == if Total(Displayed(venues)) == 0 then 0 else totalSize
  {
    NumLots(totalSize, cfg.lotSize);
    var n, d := totalSize / cfg.lotSize, Displayed(venues);
    DisplayedSane(venues);
    if Total(d) == 0 {
      TotalOfZeros(|venues|);
    } else {
      var a: seq<nat> := NonNegativeLots(n, d, lots);
      LotsAreTotal(a, lots);
      var odd := totalSize % cfg.lotSize;
      TotalOfLots(result.allocations, a, cfg.lotSize, if odd > 0 then deepest else -1, odd);
    }
  }
}
