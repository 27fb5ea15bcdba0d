/** From a split to child orders: which strategy computes it, and how much of the order it routes. */
module SplitDispatch {
  import opened Apportionment
  import opened Arithmetic
  import opened Baselines
  import opened DPEngine
  import opened MarketTypes
  import opened Routers
  import opened RoutingCosts
  import opened RoutingSplit
  import opened RoutingTheorems

  datatype Strategy = NAIVE | PROPORTIONAL | DP_OPTIMAL

  ghost predicate IsSplit(strategy: Strategy, cfg: RouterConfig, exp: real -> real, top: real, size: nat, side: Side,
                          venues: seq<VenueState>, result: SplitResult)
    requires 1 <= cfg.lotSize
  {
    match strategy
    case NAIVE => exists pick :: IsNaivePick(side, venues, pick) && IsNaiveSplit(cfg, top, size, venues, pick, result)
    case PROPORTIONAL => exists lots, deepest :: IsProportionalSplit(cfg, top, size, venues, lots, deepest, result)
    case DP_OPTIMAL => IsOptimalSplit(cfg, exp, top, size, venues, result)
  }

  method ComputeSplit(strategy: Strategy, cfg: RouterConfig, exp: real -> real, top: real, size: nat, side: Side,
                      venues: seq<VenueState>)
    returns (result: SplitResult)
    requires SaneInputs(cfg, exp, top, venues)
    ensures IsSplit(strategy, cfg, exp, top, size, side, venues, result)
  {
    match strategy
    case NAIVE =>
      var pick;
      result, pick := ComputeNaiveSplit(cfg, top, size, side, venues);
    case PROPORTIONAL =>
      result := ComputeProportionalSplit(cfg, top, size, venues);
    case DP_OPTIMAL =>
      result := ComputeOptimalSplit(cfg, exp, top, size, venues);
  }

  lemma QuantityAppend(children: seq<ChildOrder>, child: ChildOrder)
    ensures Quantity(children + [child]) == Quantity(children) + child.quantity
  {
    assert (children + [child])[..|children|] == children;
  }

  lemma NoQuantity()
    ensures Quantity([]) == 0
  {}

  // Children carry exactly what a split allocates.
  lemma {:induction false} ChildrenCarryTheSplit(parent: Parent, next: int, allocations: seq<int>)
    requires forall i | 0 <= i < |allocations| :: 0 <= allocations[i]
    ensures Quantity(ChildOrders(parent, next, allocations)) == Total(allocations)
  {
    hide Quantity;
    NoQuantity();
    if allocations != [] {
      var k := |allocations| - 1;
      ChildrenCarryTheSplit(parent, next, allocations[..k]);
      var before := ChildOrders(parent, next, allocations[..k]);
      if allocations[k] > 0 {
        QuantityAppend(before, ChildOrder(next + |before|, k, parent.side, parent.price, allocations[k]));
      }
    }
  }

  // Whether the venues the router sees can take a whole order, by strategy.
  ghost predicate CanPlace(strategy: Strategy, cfg: RouterConfig, exp: real -> real, top: real, size: nat, side: Side,
                           venues: seq<VenueState>)
    requires 1 <= cfg.lotSize
  {
    match strategy
    case NAIVE => exists i | 0 <= i < |venues| :: Quotes(side, venues[i])
    case PROPORTIONAL => Total(Displayed(venues)) != 0
    case DP_OPTIMAL => CanAllocate(cfg, exp, top, size, venues)
  }

  // Whether an order finds venues in full or not at all; only the optimal strategy can split it further.
  ghost predicate PlacesAllOrNothing(strategy: Strategy, cfg: RouterConfig, exp: real -> real, top: real, size: nat,
                                     venues: seq<VenueState>)
    requires 1 <= cfg.lotSize
  {
    strategy == DP_OPTIMAL ==> AllOrNothing(cfg, exp, top, size, venues)
  }

  // No strategy routes more than it is asked to, whatever the venues; it routes all of it exactly when they can take
  // it all, and a part of it exactly when the optimal strategy finds venues for its lots only or for its odd lot only.
  lemma NeverRoutesMore(strategy: Strategy, cfg: RouterConfig, exp: real -> real, top: real, size: nat, side: Side,
                        venues: seq<VenueState>, result: SplitResult, parent: Parent, next: int)
    requires SaneInputs(cfg, exp, top, venues) && 0 < size
    requires IsSplit(strategy, cfg, exp, top, size, side, venues, result)
    ensures |result.allocations| == |venues|
    ensures var routed := Quantity(ChildOrders(parent, next, result.allocations));
            && 0 <= routed <= size
            && (routed == size <==> CanPlace(strategy, cfg, exp, top, size, side, venues))
            && (routed in {0, size} <==> PlacesAllOrNothing(strategy, cfg, exp, top, size, venues))
  {
    AllocationsAreSane(strategy, cfg, exp, top, size, side, venues, result);
    ChildrenCarryTheSplit(parent, next, result.allocations);
  }

  lemma AllocationsAreSane(strategy: Strategy, cfg: RouterConfig, exp: real -> real, top: real, size: nat, side: Side,
                           venues: seq<VenueState>, result: SplitResult)
    requires SaneInputs(cfg, exp, top, venues) && 0 < size
    requires IsSplit(strategy, cfg, exp, top, size, side, venues, result)
    ensures |result.allocations| == |venues| && forall i | 0 <= i < |venues| :: 0 <= result.allocations[i]
    ensures 0 <= Total(result.allocations) <= size
    ensures Total(result.allocations) == size <==> CanPlace(strategy, cfg, exp, top, size, side, venues)
    ensures Total(result.allocations) in {0, size} <==> PlacesAllOrNothing(strategy, cfg, exp, top, size, venues)
  {
    hide Total, Displayed, IsOptimalSplit, Touch, CanAllocate, AllOrNothing;
    match strategy
    case NAIVE =>
      var pick :| IsNaivePick(side, venues, pick) && IsNaiveSplit(cfg, top, size, venues, pick, result);
      NaiveTotal(cfg, top, size, side, venues, pick, result);
    case PROPORTIONAL =>
      var lots, deepest :| IsProportionalSplit(cfg, top, size, venues, lots, deepest, result);
      ProportionalTotal(cfg, top, size, venues, lots, deepest, result);
      ProportionalNonNegative(cfg, top, size, venues, lots, deepest, result);
    case DP_OPTIMAL =>
      OptimalShape(cfg, exp, top, size, venues, result);
      SplitTotal(cfg, exp, top, size, venues, result);
      SplitNeverExceeds(cfg, exp, top, size, venues, result);
  }

  lemma OptimalShape(cfg: RouterConfig, exp: real -> real, top: real, size: nat, venues: seq<VenueState>,
                     result: SplitResult)
    requires 1 <= cfg.lotSize && IsOptimalSplit(cfg, exp, top, size, venues, result)
    ensures |result.allocations| == |venues|
  {}

  lemma NaiveTotal(cfg: RouterConfig, top: real, size: nat, side: Side, venues: seq<VenueState>, pick: int,
                   result: SplitResult)
    requires IsNaivePick(side, venues, pick) && IsNaiveSplit(cfg, top, size, venues, pick, result)
    ensures |result.allocations| == |venues| && forall i | 0 <= i < |venues| :: 0 <= result.allocations[i]
    ensures Total(result.allocations) == if pick == -1 then 0 else size
  {
    TotalOfZeros(|venues|);
    if pick != -1 { TotalUpdate(seq(|venues|, _ => 0), pick, size); }
  }

  lemma ProportionalNonNegative(cfg: RouterConfig, top: real, size: nat, venues: seq<VenueState>, lots: seq<int>,
                                deepest: nat, result: SplitResult)
    requires 1 <= cfg.lotSize && IsProportionalSplit(cfg, top, size, venues, lots, deepest, result)
    requires forall i | 0 <= i < |venues| :: 0 <= venues[i].visible
    ensures forall i | 0 <= i < |venues| :: 0 <= result.allocations[i]
  {
    NumLots(size, cfg.lotSize);
    DisplayedSane(venues);
    if Total(Displayed(venues)) != 0 {
      var a := NonNegativeLots(size / cfg.lotSize, Displayed(venues), lots);
      forall i | 0 <= i < |venues| ensures 0 <= result.allocations[i] { ProductOfNats(a[i], cfg.lotSize); }
    }
  }
}
