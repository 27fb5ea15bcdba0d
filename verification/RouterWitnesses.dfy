/** Runs of the router past a completion, with a split that finds venues for a part of the order only, and with a
    sell order that is routed again once.  */
module RouterWitnesses {
  import opened Apportionment
  import opened Baselines
  import opened MarketTypes
  import opened ParentBooks
  import opened PriceTimeBook
  import opened Routers
  import opened RouterRuns
  import opened RoutingCosts
  import opened RoutingSplit
  import opened RoutingTable
  import opened RoutingTheorems
  import opened SplitDispatch
  import opened Venues

  // A report that comes after its parent was given up makes a blank parent out of nothing: that is either
  // completed once more, or kept with more filled than its total of zero.
  lemma LateReportRevives(r: RouterState, fill: FillEvent, maxReroutes: int, allocations: seq<int>)
    requires fill.childId in r.childToParent && r.childToParent[fill.childId] !in r.active && 0 <= fill.filled
    ensures var p, r' := r.childToParent[fill.childId], FillProcessed(r, fill, maxReroutes, allocations);
            var blank := Counted(BLANK_PARENT.(filledQty := fill.filled), fill);
            if fill.status != PARTIAL && (fill.filled == 0 || GivenUp(r, blank, fill, maxReroutes, allocations)) then
              exists timedOut ::
                r'.lifecycle == r.lifecycle + [Filled(p, fill.filled), Completion(p, fill.filled, timedOut)]
            else
              p in r'.active && r'.active[p].totalQty == 0 && r'.active[p].filledQty == fill.filled
  {
    var p, r' := r.childToParent[fill.childId], FillProcessed(r, fill, maxReroutes, allocations);
    var blank := Counted(BLANK_PARENT.(filledQty := fill.filled), fill);
    if fill.status != PARTIAL && (fill.filled == 0 || GivenUp(r, blank, fill, maxReroutes, allocations)) {
      var timedOut := GivenUp(r, blank, fill, maxReroutes, allocations);
      assert r'.lifecycle == r.lifecycle + [Filled(p, fill.filled), Completion(p, fill.filled, timedOut)];
    }
  }

  lemma TwoVenues(parent: Parent, next: int, a: int, b: int)
    requires 0 < a && 0 < b
    ensures ChildOrders(parent, next, [a, b]) ==
              [ChildOrder(next, 0, parent.side, parent.price, a), ChildOrder(next + 1, 1, parent.side, parent.price, b)]
  {
    assert [a, b][..1] == [a] && [a][..0] == [];
    assert ChildOrders(parent, next, [a]) == [ChildOrder(next, 0, parent.side, parent.price, a)];
  }

  lemma OneVenue(parent: Parent, next: int, a: int)
    requires 0 < a
    ensures ChildOrders(parent, next, [a]) == [ChildOrder(next, 0, parent.side, parent.price, a)]
  {
    assert [a][..0] == [];
  }

  // A venue without costs.
  function FreeVenue(kind: VenueKind, visible: int): VenueState {
    VenueState(kind, 0.0, 0.0, 0, 0.0, 0.0, visible, 99, 100)
  }

  // A router with this many reroutes, strategy and lot size.
  ghost predicate IsSetup(s: Setup, reroutes: nat, venues: nat, strategy: Strategy, lotSize: int) {
    && s.maxReroutes == reroutes && s.venues == venues && s.strategy == strategy
    && s.cfg == RouterConfig(lotSize, 0, 0.0) && 0.0 < s.top && forall x: real | x <= 0.0 :: 0.0 <= s.exp(x) <= 1.0
  }

  // ---- A late sibling ----

  // An order of 10 split in proportion to two displayed sizes of 5, with no reroutes: the first child is cancelled,
  // which completes the parent, and the second child is then filled.
  const SPLIT_ORDER := ClientRequest(7, BUY, 100, 10)
  const FIRST_CANCELLED := FillEvent(1000000, -1, 0, 0, 5, CANCELLED)
  const SECOND_FILLED := FillEvent(1000001, -1, 5, 100, 0, FILLED)
  const SPLIT_ARRIVES := Arrive(SPLIT_ORDER, [5, 5], map[1000000 := [FIRST_CANCELLED], 1000001 := [SECOND_FILLED]])
  const TWO_DISPLAYS := [FreeVenue(LIT, 5), FreeVenue(LIT, 5)]

  const BOTH_SENT := World(
    RouterState(map[7 := Parent(7, BUY, 100, 10, 0, 0)], map[1000000 := 7, 1000001 := 7], 1000002,
                [ChildOrder(1000000, 0, BUY, 100, 5), ChildOrder(1000001, 1, BUY, 100, 5)], [Decision(7, 10)]),
    Free, map[1000000 := Stream(5, [FIRST_CANCELLED]), 1000001 := Stream(5, [SECOND_FILLED])])

  const GIVEN_UP := World(
    RouterState(map[], map[1000001 := 7], 1000002, BOTH_SENT.router.sent,
                [Decision(7, 10), Filled(7, 0), Completion(7, 0, true)]),
    Free, map[1000001 := Stream(5, [SECOND_FILLED])])

  const REVIVED := World(
    RouterState(map[7 := Parent(0, BUY, 0, 0, 5, 0)], map[], 1000002, BOTH_SENT.router.sent,
                GIVEN_UP.router.lifecycle + [Filled(7, 5)]),
    Free, map[])

  // The proportional split of that order is 5 and 5.
  lemma EvenSplit(s: Setup) returns (split: SplitResult)
    requires IsSetup(s, 0, 2, PROPORTIONAL, 1)
    ensures split.allocations == [5, 5] && SaneInputs(s.cfg, s.exp, s.top, TWO_DISPLAYS)
    ensures IsSplit(PROPORTIONAL, s.cfg, s.exp, s.top, 10, BUY, TWO_DISPLAYS, split)
  {
    split := SplitResult([5, 5], SplitCost(s.cfg, TWO_DISPLAYS, [5, 5], s.top));
    assert Displayed(TWO_DISPLAYS) == [5, 5];
    TotalOfTwo(5, 5);
    assert LargestRemainder(10, [5, 5], [5, 5]);
    assert IsProportionalSplit(s.cfg, s.top, 10, TWO_DISPLAYS, [5, 5], 0, split);
  }

  lemma TotalOfTwo(a: int, b: int)
    ensures Total([a, b]) == a + b
  {
    assert [a, b][..1] == [a] && [a][..0] == [];
    assert Total([a]) == a;
  }

  lemma SplitArrives(s: Setup, split: SplitResult)
    requires IsSetup(s, 0, 2, PROPORTIONAL, 1) && split.allocations == [5, 5]
    requires SaneInputs(s.cfg, s.exp, s.top, TWO_DISPLAYS)
    requires IsSplit(PROPORTIONAL, s.cfg, s.exp, s.top, 10, BUY, TWO_DISPLAYS, split)
    ensures Possible(START, Step(SPLIT_ARRIVES, TWO_DISPLAYS, split), s) && Next(START, SPLIT_ARRIVES, 0) == BOTH_SENT
  {
    hide ChildOrders, IsSplit, SaneInputs;
    var parent := NewParent(SPLIT_ORDER);
    TwoVenues(parent, 1000000, 5, 5);
    var children := ChildOrders(parent, 1000000, [5, 5]);
    assert children[..1] == [children[0]] && children[..1][..0] == [];
    assert Quantity([]) == 0 && Quantity(children[..1]) == 5;
    assert Quantity(children) == 10;
    assert NewChildren(START, SPLIT_ARRIVES, 0) == children;
    assert WithChildren(map[], children[..1], 7) == map[1000000 := 7];
    assert WithChildren(map[], children, 7) == BOTH_SENT.router.childToParent;
    var futures := SPLIT_ARRIVES.futures;
    assert WithStreams(map[], children[..1], futures) == map[1000000 := Stream(5, [FIRST_CANCELLED])];
    assert WithStreams(map[], children, futures) == BOTH_SENT.streams;
    assert RouterAfter(START, SPLIT_ARRIVES, 0) == BOTH_SENT.router;
    Unfilled(children[0]);
    FilledWhole(children[1]);
  }

  // A child that meets nothing, and one that is filled by a single trade.
  lemma Unfilled(child: ChildOrder)
    requires 0 < child.quantity
    ensures VenueReports(child, [FillEvent(child.id, -1, 0, 0, child.quantity, CANCELLED)])
  {
    assert Reported(IOC, child.price, child.quantity, []);
  }

  lemma FilledWhole(child: ChildOrder)
    requires 0 < child.quantity
    ensures VenueReports(child, [FillEvent(child.id, -1, child.quantity, child.price, 0, FILLED)])
  {
    var fills := [Fill(-1, child.quantity, child.price)];
    assert fills[..1] == fills && fills[1..] == [] && FillTotal(fills) == child.quantity;
    assert Reported(IOC, child.price, child.quantity, fills);
    assert Events(child.id, SOR, child.quantity, fills) ==
           [FillEvent(child.id, -1, child.quantity, child.price, 0, FILLED)];
  }

  // A report that splits nothing.
  function Told(child: int, venues: nat): Step {
    Step(Report(child, seq(venues, _ => 0), map[]), [], SplitResult([], 0.0))
  }

  lemma FirstIsCancelled(s: Setup)
    requires IsSetup(s, 0, 2, PROPORTIONAL, 1)
    ensures Possible(BOTH_SENT, Told(1000000, 2), s) && Next(BOTH_SENT, Told(1000000, 2).event, 0) == GIVEN_UP
  {}

  lemma SecondIsFilled(s: Setup)
    requires IsSetup(s, 0, 2, PROPORTIONAL, 1)
    ensures Possible(GIVEN_UP, Told(1000001, 2), s) && Next(GIVEN_UP, Told(1000001, 2).event, 0) == REVIVED
  {}

  // The late sibling leaves a parent filled beyond its total: past the completion the bound does not hold.
  lemma LateSiblingRun(s: Setup) returns (split: SplitResult)
    requires IsSetup(s, 0, 2, PROPORTIONAL, 1)
    ensures RealRun([Step(SPLIT_ARRIVES, TWO_DISPLAYS, split), Told(1000000, 2), Told(1000001, 2)],
                    [START, BOTH_SENT, GIVEN_UP, REVIVED], s)
    ensures var r := REVIVED.router;
            CompletedIn(r.lifecycle, 7) && 7 in r.active && r.active[7].filledQty > r.active[7].totalQty
  {
    hide Possible, Next, IsSplit, SaneInputs, IsSetup;
    Reroutable(s, 0, 2, PROPORTIONAL, 1);
    split := EvenSplit(s);
    SplitArrives(s, split);
    FirstIsCancelled(s);
    SecondIsFilled(s);
    assert REVIVED.router.lifecycle[2] == Completion(7, 0, true);
  }

  lemma Reroutable(s: Setup, reroutes: nat, venues: nat, strategy: Strategy, lotSize: int)
    requires IsSetup(s, reroutes, venues, strategy, lotSize)
    ensures s.maxReroutes == reroutes
  {}

  // ---- A split that finds venues for a part only ----

  // An order of 15 in lots of 10, over one dark venue that never fills: a whole lot costs as much as missing it on
  // the lit venues, of which there are none, so only the odd lot is sent.
  const ODD_ORDER := ClientRequest(7, BUY, 100, 15)
  const ONE_DARK := [FreeVenue(DARK, 0)]
  const PART_FILLED := FillEvent(1000000, -1, 5, 100, 0, FILLED)
  const PART_ARRIVES := Arrive(ODD_ORDER, [5], map[1000000 := [PART_FILLED]])

  const PART_SENT := World(
    RouterState(map[7 := Parent(7, BUY, 100, 15, 0, 0)], map[1000000 := 7], 1000001,
                [ChildOrder(1000000, 0, BUY, 100, 5)], [Decision(7, 15)]),
    Free, map[1000000 := Stream(5, [PART_FILLED])])

  const STRANDED := World(
    RouterState(map[7 := Parent(7, BUY, 100, 15, 5, 0)], map[], 1000001, PART_SENT.router.sent,
                [Decision(7, 15), Filled(7, 5)]),
    Free, map[])

  // The optimal split of that order is the odd lot alone, at the cost that stands for no way to place the lot.
  lemma OddLotOnly(s: Setup)
    requires IsSetup(s, 0, 1, DP_OPTIMAL, 10)
    ensures SaneInputs(s.cfg, s.exp, s.top, ONE_DARK)
    ensures IsOptimalSplit(s.cfg, s.exp, s.top, 15, ONE_DARK, SplitResult([5], s.top))
  {
    var v, litRow := ONE_DARK[0], LitRow(s.cfg, ONE_DARK, 2, s.top);
    assert ONE_DARK[..0] == [];
    assert Positions([], LIT) == [] && Positions([], DARK) == [];
    assert Positions(ONE_DARK, LIT) == [] && Positions(ONE_DARK, DARK) == [0];
    assert LitTables(s.cfg, ONE_DARK, 2, s.top) == [];
    assert litRow == FirstRow(2, s.top) && litRow[0] == 0.0 && litRow[1] == s.top;
    var table := DarkTable(s.cfg, s.exp, v, 2, litRow);
    assert AllTables(s.cfg, s.exp, ONE_DARK, 2, s.top) == [table];
    NeverFills(s, v, 5, litRow);
    NeverFills(s, v, 10, litRow);
    assert table[1] == s.top && table[0] == 0.0;
    LotStaysOut(table, s.top);
    assert OddLotCosts(s.cfg, s.exp, ONE_DARK, 2, s.top, 5) == [0.0];
    assert [0.0][..0] == [];
    assert Cheapest([0.0], s.top) == (0.0, 0);
  }

  // A dark venue that never fills costs what missing costs.
  lemma NeverFills(s: Setup, v: VenueState, quantity: int, litRow: Row)
    requires s.cfg == RouterConfig(10, 0, 0.0) && v == FreeVenue(DARK, 0) && 0 < quantity && quantity / 10 < |litRow|
    ensures 0 <= quantity / 10 && DarkCost(s.cfg, s.exp, v, quantity, litRow) == litRow[quantity / 10]
  {}

  // One lot over one table whose cost for it is the top is not placed.
  lemma LotStaysOut(table: Row, top: real)
    requires |table| == 2 && table[0] == 0.0 && table[1] == top && 0.0 < top
    ensures DpRow([table], 2, top)[1] == top && Backtrack([table], 2, top, 1) == [0]
  {
    var first := FirstRow(2, top);
    assert [table][..0] == [];
    assert DpRow([], 2, top) == first && first[0] == 0.0 && first[1] == top;
    assert ScanCell(table, first, 1, 0, top) == (top, 0);
    assert ScanCell(table, first, 1, 1, top) == (top, 0);
    assert ScanCell(table, first, 1, 2, top) == (top, 0);
    assert Backtrack([], 2, top, 1) == [];
  }

  lemma PartArrives(s: Setup)
    requires IsSetup(s, 0, 1, DP_OPTIMAL, 10)
    ensures Possible(START, Step(PART_ARRIVES, ONE_DARK, SplitResult([5], s.top)), s)
    ensures Next(START, PART_ARRIVES, 0) == PART_SENT
  {
    hide ChildOrders, IsOptimalSplit, SaneInputs;
    OddLotOnly(s);
    OneVenue(NewParent(ODD_ORDER), 1000000, 5);
    var children := ChildOrders(NewParent(ODD_ORDER), 1000000, [5]);
    assert children[..0] == [];
    assert NewChildren(START, PART_ARRIVES, 0) == children;
    assert WithChildren(map[], children, 7) == PART_SENT.router.childToParent;
    assert WithStreams(map[], children, PART_ARRIVES.futures) == PART_SENT.streams;
    FilledWhole(children[0]);
  }

  // A split that places a part strands its parent: alive, with nothing in flight.
  lemma PartialSplitStrands(s: Setup)
    requires IsSetup(s, 0, 1, DP_OPTIMAL, 10)
    ensures RealRun([Step(PART_ARRIVES, ONE_DARK, SplitResult([5], s.top)), Told(1000000, 1)],
                    [START, PART_SENT, STRANDED], s)
    ensures Alive(STRANDED, 7) && STRANDED.streams == map[] && STRANDED.client == Free
    ensures STRANDED.router.active[7].filledQty < STRANDED.router.active[7].totalQty
  {
    hide Possible, Next, IsSetup;
    Reroutable(s, 0, 1, DP_OPTIMAL, 10);
    PartArrives(s);
    PartIsFilled(s);
    assert STRANDED.router.lifecycle[0] == Decision(7, 15);
  }

  lemma PartIsFilled(s: Setup)
    requires IsSetup(s, 0, 1, DP_OPTIMAL, 10)
    ensures Possible(PART_SENT, Told(1000000, 1), s) && Next(PART_SENT, Told(1000000, 1).event, 0) == STRANDED
  {}

  // ---- A sell order that is routed twice ----

  // An order to sell 10 at 95 or better, under the naive strategy, over bids of 98 and 99, with one reroute: its child
  // goes to the second venue and misses, what is left goes there again and misses, and only then is the order given up.
  const SELL_ORDER := ClientRequest(7, SELL, 95, 10)
  const FIRST_MISSED := FillEvent(1000000, -1, 0, 0, 10, CANCELLED)
  const SECOND_MISSED := FillEvent(1000001, -1, 0, 0, 10, CANCELLED)
  const SELL_ARRIVES := Arrive(SELL_ORDER, [0, 10], map[1000000 := [FIRST_MISSED]])
  const SELL_AGAIN := Report(1000000, [0, 10], map[1000001 := [SECOND_MISSED]])
  const TWO_BIDS := [FreeVenue(LIT, 10).(bestBid := 98), FreeVenue(LIT, 10).(bestBid := 99)]

  const SELLING := World(
    RouterState(map[7 := Parent(7, SELL, 95, 10, 0, 0)], map[1000000 := 7], 1000001,
                [ChildOrder(1000000, 1, SELL, 95, 10)], [Decision(7, 10)]),
    Free, map[1000000 := Stream(10, [FIRST_MISSED])])

  const SELLING_AGAIN := World(
    RouterState(map[7 := Parent(7, SELL, 95, 10, 0, 1)], map[1000001 := 7], 1000002,
                SELLING.router.sent + [ChildOrder(1000001, 1, SELL, 95, 10)], [Decision(7, 10), Filled(7, 0)]),
    Free, map[1000001 := Stream(10, [SECOND_MISSED])])

  const UNSOLD := World(
    RouterState(map[], map[], 1000002, SELLING_AGAIN.router.sent,
                [Decision(7, 10), Filled(7, 0), Filled(7, 0), Completion(7, 0, true)]),
    Free, map[])

  lemma SecondVenue(parent: Parent, next: int, a: int)
    requires 0 < a
    ensures ChildOrders(parent, next, [0, a]) == [ChildOrder(next, 1, parent.side, parent.price, a)]
  {
    assert [0, a][..1] == [0] && [0][..0] == [];
    assert ChildOrders(parent, next, [0]) == [];
  }

  // The naive split of a sell goes to the better bid.
  lemma BetterBid(s: Setup) returns (split: SplitResult)
    requires IsSetup(s, 1, 2, NAIVE, 1)
    ensures split.allocations == [0, 10] && SaneInputs(s.cfg, s.exp, s.top, TWO_BIDS)
    ensures IsSplit(NAIVE, s.cfg, s.exp, s.top, 10, SELL, TWO_BIDS, split)
  {
    split := SplitResult([0, 10], LitCost(s.cfg, TWO_BIDS[1], 10, Visible(TWO_BIDS[1]), s.top));
    assert seq(2, _ => 0)[1 := 10] == [0, 10];
    assert IsNaivePick(SELL, TWO_BIDS, 1);
    assert IsNaiveSplit(s.cfg, s.top, 10, TWO_BIDS, 1, split);
  }

  lemma OneChild(child: ChildOrder, parentId: int, futures: map<int, seq<FillEvent>>)
    requires child.id in futures
    ensures Quantity([child]) == child.quantity
    ensures forall m: map<int, int> :: WithChildren(m, [child], parentId) == m[child.id := parentId]
    ensures forall m: map<int, Stream> ::
              WithStreams(m, [child], futures) == m[child.id := Stream(child.quantity, futures[child.id])]
  {
    assert [child][..0] == [];
    assert Quantity([]) == 0;
    forall m: map<int, int> ensures WithChildren(m, [child], parentId) == m[child.id := parentId] {
      assert WithChildren(m, [], parentId) == m;
    }
    forall m: map<int, Stream>
      ensures WithStreams(m, [child], futures) == m[child.id := Stream(child.quantity, futures[child.id])]
    {
      assert WithStreams(m, [], futures) == m;
    }
  }

  lemma SellArrives(s: Setup, split: SplitResult)
    requires IsSetup(s, 1, 2, NAIVE, 1) && split.allocations == [0, 10]
    requires SaneInputs(s.cfg, s.exp, s.top, TWO_BIDS)
    requires IsSplit(NAIVE, s.cfg, s.exp, s.top, 10, SELL, TWO_BIDS, split)
    ensures Possible(START, Step(SELL_ARRIVES, TWO_BIDS, split), s) && Next(START, SELL_ARRIVES, 1) == SELLING
  {
    hide ChildOrders, IsSplit, SaneInputs, WithChildren, WithStreams, Quantity;
    SecondVenue(NewParent(SELL_ORDER), 1000000, 10);
    var child := ChildOrder(1000000, 1, SELL, 95, 10);
    OneChild(child, 7, SELL_ARRIVES.futures);
    assert RouterAfter(START, SELL_ARRIVES, 1) == SELLING.router;
    assert NewChildren(START, SELL_ARRIVES, 1) == [child];
    Unfilled(child);
  }

  lemma SellsAgain(s: Setup, split: SplitResult)
    requires IsSetup(s, 1, 2, NAIVE, 1) && split.allocations == [0, 10]
    requires SaneInputs(s.cfg, s.exp, s.top, TWO_BIDS)
    requires IsSplit(NAIVE, s.cfg, s.exp, s.top, 10, SELL, TWO_BIDS, split)
    ensures Possible(SELLING, Step(SELL_AGAIN, TWO_BIDS, split), s) && Next(SELLING, SELL_AGAIN, 1) == SELLING_AGAIN
  {
    hide ChildOrders, IsSplit, SaneInputs, WithChildren, WithStreams, Quantity;
    SecondVenue(Parent(7, SELL, 95, 10, 0, 1), 1000001, 10);
    var child := ChildOrder(1000001, 1, SELL, 95, 10);
    OneChild(child, 7, SELL_AGAIN.futures);
    assert RouterAfter(SELLING, SELL_AGAIN, 1) == SELLING_AGAIN.router;
    assert NewChildren(SELLING, SELL_AGAIN, 1) == [child];
    Unfilled(child);
  }

  lemma SellMissesAgain(s: Setup)
    requires IsSetup(s, 1, 2, NAIVE, 1)
    ensures Possible(SELLING_AGAIN, Told(1000001, 2), s) && Next(SELLING_AGAIN, Told(1000001, 2).event, 1) == UNSOLD
  {}

  // One reroute means two attempts: the first report that leaves something routes it again, to the same side and at
  // the same limit, and the second gives the order up.
  lemma OneRerouteRun(s: Setup) returns (split: SplitResult)
    requires IsSetup(s, 1, 2, NAIVE, 1)
    ensures RealRun([Step(SELL_ARRIVES, TWO_BIDS, split), Step(SELL_AGAIN, TWO_BIDS, split), Told(1000001, 2)],
                    [START, SELLING, SELLING_AGAIN, UNSOLD], s)
    ensures Alive(SELLING_AGAIN, 7) && !Alive(UNSOLD, 7)
    ensures LeavesSomething(SELLING, SELL_AGAIN, 7) && LeavesSomething(SELLING_AGAIN, Told(1000001, 2).event, 7)
    ensures forall child | child in UNSOLD.router.sent ::
              child.venue == 1 && child.side == SELL && child.price == 95 && child.quantity == 10
    ensures |UNSOLD.router.sent| == 2 && Completion(7, 0, true) in UNSOLD.router.lifecycle
  {
    hide Possible, Next, IsSplit, SaneInputs, IsSetup;
    Reroutable(s, 1, 2, NAIVE, 1);
    split := BetterBid(s);
    SellArrives(s, split);
    SellsAgain(s, split);
    SellMissesAgain(s);
    assert SELLING_AGAIN.router.lifecycle[0] == Decision(7, 10);
    assert UNSOLD.router.lifecycle[3] == Completion(7, 0, true);
  }
}
