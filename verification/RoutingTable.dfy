/** The routing dynamic program as a recurrence over cost tables, and what it computes.

    `costs[k][x]` is the cost of sending x lots to the k-th venue; `top` stands for the largest double,
    the value of an unreachable cell.  A row of the table holds, for every number of lots, the least
    cost found for the venues so far.  */
module RoutingTable {

  type Row = seq<real>

  // The scan of one cell: the best cost over 0 .. count - 1 lots at the last venue, and the lots that give it.
  function ScanCell(cost: Row, prev: Row, n: nat, count: nat, top: real): (r: (real, nat))
    requires count <= n + 1 <= |prev| && |cost| == |prev|
    ensures r.1 <= n
  {
    if count == 0 then (top, 0)
    else
      var (best, lots) := ScanCell(cost, prev, n, count - 1, top);
      var before := prev[n - (count - 1)];
      if before != top && cost[count - 1] + before < best then (cost[count - 1] + before, count - 1) else (best, lots)
  }

  function NextRow(cost: Row, prev: Row, top: real): (r: Row)
    requires |cost| == |prev|
    ensures |r| == |prev|
  {
    seq(|prev|, n requires 0 <= n < |prev| => ScanCell(cost, prev, n, n + 1, top).0)
  }

  function Choices(cost: Row, prev: Row, top: real): (r: seq<nat>)
    requires |cost| == |prev|
    ensures |r| == |prev|
  {
    seq(|prev|, n requires 0 <= n < |prev| => ScanCell(cost, prev, n, n + 1, top).1)
  }

  // Every venue has a cost for each number of lots below the width.
  predicate Tables(costs: seq<Row>, width: nat) {
    forall k | 0 <= k < |costs| :: |costs[k]| == width
  }

  // No lots before the first venue: only the empty cell is reachable.
  function FirstRow(width: nat, top: real): (r: Row)
    requires 0 < width
    ensures |r| == width
  {
    [0.0] + seq(width - 1, _ => top)
  }

  function DpRow(costs: seq<Row>, width: nat, top: real): (r: Row)
    requires 0 < width && Tables(costs, width)
    ensures |r| == width
  {
    if costs == [] then FirstRow(width, top)
    else NextRow(costs[|costs| - 1], DpRow(costs[..|costs| - 1], width, top), top)
  }

  // The lots sent to each venue, read back from the choices.
  function Backtrack(costs: seq<Row>, width: nat, top: real, n: nat): (a: seq<nat>)
    requires n < width && Tables(costs, width)
    ensures |a| == |costs|
  {
    if costs == [] then []
    else
      var k := |costs| - 1;
      var x := Choices(costs[k], DpRow(costs[..k], width, top), top)[n];
      assert x <= n;
      Backtrack(costs[..k], width, top, n - x) + [x]
  }

  function Lots(a: seq<nat>): nat {
    if a == [] then 0 else Lots(a[..|a| - 1]) + a[|a| - 1]
  }

  // The total cost of an allocation.
  function CostOf(costs: seq<Row>, a: seq<nat>): real
    requires |a| == |costs| && forall k | 0 <= k < |a| :: a[k] < |costs[k]|
  {
    if a == [] then 0.0 else CostOf(costs[..|a| - 1], a[..|a| - 1]) + costs[|a| - 1][a[|a| - 1]]
  }

  // Sending nothing is free, and nothing is paid to the router.
  ghost predicate Priced(costs: seq<Row>, width: nat) {
    && 0 < width && Tables(costs, width)
    && forall k, x | 0 <= k < |costs| && 0 <= x < width :: 0.0 <= costs[k][x] && costs[k][0] == 0.0
  }

  // An allocation of exactly n lots over the venues.
  ghost predicate Places(a: seq<nat>, count: nat, n: nat) {
    |a| == count && Lots(a) == n
  }

  lemma {:induction false} LotsBound(a: seq<nat>)
    ensures forall k | 0 <= k < |a| :: a[k] <= Lots(a)
  {
    if a != [] { LotsBound(a[..|a| - 1]); }
  }

  // The scan of a cell never exceeds a candidate it looked at, nor the top.
  lemma {:induction false} ScanIsLeast(cost: Row, prev: Row, n: nat, count: nat, top: real, x: nat)
    requires count <= n + 1 <= |prev| && |cost| == |prev|
    ensures ScanCell(cost, prev, n, count, top).0 <= top
    ensures x < count && prev[n - x] != top ==> ScanCell(cost, prev, n, count, top).0 <= cost[x] + prev[n - x]
  {
    if count > 0 { ScanIsLeast(cost, prev, n, count - 1, top, x); }
  }

  // It is either the top, with the choice 0, or the cost of its choice.
  lemma {:induction false} ScanIsAttained(cost: Row, prev: Row, n: nat, count: nat, top: real)
    requires count <= n + 1 <= |prev| && |cost| == |prev|
    ensures var (best, x) := ScanCell(cost, prev, n, count, top);
            (best == top && x == 0) || (best < top && x < count && prev[n - x] != top && best == cost[x] + prev[n - x])
  {
    if count > 0 { ScanIsAttained(cost, prev, n, count - 1, top); }
  }

  // Of equally cheap choices the one with the fewest lots at the last venue is kept.
  lemma {:induction false} FewestLots(cost: Row, prev: Row, n: nat, count: nat, top: real, x: nat)
    requires count <= n + 1 <= |prev| && |cost| == |prev|
    ensures var (best, lots) := ScanCell(cost, prev, n, count, top);
            x < lots && x < count && prev[n - x] != top ==> best < cost[x] + prev[n - x]
  {
    if count > 0 {
      FewestLots(cost, prev, n, count - 1, top, x);
      ScanIsLeast(cost, prev, n, count - 1, top, x);
      ScanIsAttained(cost, prev, n, count - 1, top);
    }
  }

  lemma {:induction false} RowsNonNegative(costs: seq<Row>, width: nat, top: real, n: nat)
    requires Priced(costs, width) && 0.0 < top && n < width
    ensures 0.0 <= DpRow(costs, width, top)[n] <= top
  {
    if costs != [] {
      var k := |costs| - 1;
      var prev := DpRow(costs[..k], width, top);
      ScanIsLeast(costs[k], prev, n, n + 1, top, 0);
      ScanIsAttained(costs[k], prev, n, n + 1, top);
      var x := ScanCell(costs[k], prev, n, n + 1, top).1;
      RowsNonNegative(costs[..k], width, top, n - x);
    }
  }

  // No allocation of n lots is cheaper than the table's cell.
  lemma {:induction false} CellIsLowerBound(costs: seq<Row>, width: nat, top: real, n: nat, a: seq<nat>)
    requires Priced(costs, width) && 0.0 < top && n < width && Places(a, |costs|, n)
    ensures (forall k | 0 <= k < |a| :: a[k] < width) && DpRow(costs, width, top)[n] <= CostOf(costs, a)
  {
    LotsBound(a);
    RowsNonNegative(costs, width, top, n);
    if costs != [] {
      var k := |costs| - 1;
      var x, prev := a[k], DpRow(costs[..k], width, top);
      CellIsLowerBound(costs[..k], width, top, n - x, a[..k]);
      ScanIsLeast(costs[k], prev, n, n + 1, top, x);
    }
  }

  // The last step of reading a cell back.
  lemma BacktrackStep(costs: seq<Row>, width: nat, top: real, n: nat)
    requires costs != [] && n < width && Tables(costs, width)
    ensures var k := |costs| - 1;
            var prev := DpRow(costs[..k], width, top);
            var (best, x) := ScanCell(costs[k], prev, n, n + 1, top);
            && DpRow(costs, width, top)[n] == best && x <= n
            && Backtrack(costs, width, top, n) == Backtrack(costs[..k], width, top, n - x) + [x]
            && ((best == top && x == 0) || (best < top && prev[n - x] != top && best == costs[k][x] + prev[n - x]))
  {
    hide ScanCell, FirstRow;
    var k := |costs| - 1;
    ScanIsAttained(costs[k], DpRow(costs[..k], width, top), n, n + 1, top);
  }

  predicate Fits(costs: seq<Row>, a: seq<nat>) {
    |a| == |costs| && forall k | 0 <= k < |a| :: a[k] < |costs[k]|
  }

  lemma CostAppend(costs: seq<Row>, a: seq<nat>, cost: Row, x: nat)
    requires Fits(costs, a) && x < |cost|
    ensures Fits(costs + [cost], a + [x]) && CostOf(costs + [cost], a + [x]) == CostOf(costs, a) + cost[x]
  {
    assert (costs + [cost])[..|costs|] == costs && (a + [x])[..|a|] == a;
  }

  // An allocation over all but the last venue, extended by x lots at the last one.
  lemma GrowAllocation(costs: seq<Row>, a: seq<nat>, x: nat)
    requires costs != [] && Fits(costs[..|costs| - 1], a) && x < |costs[|costs| - 1]|
    ensures var k := |costs| - 1;
            && Fits(costs, a + [x]) && Lots(a + [x]) == Lots(a) + x
            && CostOf(costs, a + [x]) == CostOf(costs[..k], a) + costs[k][x]
  {
    assert (a + [x])[..|a|] == a;
  }

  lemma PricedPrefix(costs: seq<Row>, width: nat, k: nat)
    requires Priced(costs, width) && k <= |costs|
    ensures Priced(costs[..k], width)
  {}

  lemma EmptyCell(width: nat, top: real, n: nat)
    requires n < width && DpRow([], width, top)[n] < top
    ensures var a := Backtrack([], width, top, n);
            Places(a, 0, n) && Fits([], a) && CostOf([], a) == DpRow([], width, top)[n]
  {}

  // A cell below the top is the cost of the allocation read back from it, which places exactly n lots.
  lemma {:induction false} CellBelowTop(costs: seq<Row>, width: nat, top: real, n: nat)
    requires Priced(costs, width) && 0.0 < top && n < width && DpRow(costs, width, top)[n] < top
    ensures var a := Backtrack(costs, width, top, n);
            && Places(a, |costs|, n) && Fits(costs, a)
            && CostOf(costs, a) == DpRow(costs, width, top)[n]
  {
    hide ScanCell, NextRow, Choices, DpRow, Backtrack, Priced, CostOf, Lots, Fits;
    if costs == [] {
      EmptyCell(width, top, n);
    } else {
      var k := |costs| - 1;
      IsPriced(costs, width);
      var x := ScanCell(costs[k], DpRow(costs[..k], width, top), n, n + 1, top).1;
      BacktrackStep(costs, width, top, n);
      PricedPrefix(costs, width, k);
      RowsNonNegative(costs[..k], width, top, n - x);
      CellBelowTop(costs[..k], width, top, n - x);
      var b := Backtrack(costs[..k], width, top, n - x);
      assert Backtrack(costs, width, top, n) == b + [x] && Lots(b) == n - x;
      GrowAllocation(costs, b, x);
      assert CostOf(costs, b + [x]) == DpRow(costs, width, top)[n];
    }
  }

  lemma IsPriced(costs: seq<Row>, width: nat)
    requires Priced(costs, width)
    ensures 0 < width && Tables(costs, width)
  {}

  // From a cell at the top, nothing at all is read back.
  lemma {:induction false} CellAtTop(costs: seq<Row>, width: nat, top: real, n: nat)
    requires Priced(costs, width) && 0.0 < top && n < width && DpRow(costs, width, top)[n] == top
    ensures forall k | 0 <= k < |costs| :: Backtrack(costs, width, top, n)[k] == 0
  {
    if costs != [] {
      var k := |costs| - 1;
      BacktrackStep(costs, width, top, n);
      ScanIsLeast(costs[k], DpRow(costs[..k], width, top), n, n + 1, top, 0);
      RowsNonNegative(costs[..k], width, top, n);
      CellAtTop(costs[..k], width, top, n);
    }
  }

  // The table computes the smaller of the top and the least cost over all allocations.
  ghost predicate IsLeastCost(costs: seq<Row>, width: nat, top: real, n: nat, best: real)
    requires n < width && Tables(costs, width)
  {
    && best <= top
    && (forall a | Places(a, |costs|, n) :: Fits(costs, a) && best <= CostOf(costs, a))
    && (best == top || exists a :: Places(a, |costs|, n) && Fits(costs, a) && best == CostOf(costs, a))
  }

  lemma CellIsLeastCost(costs: seq<Row>, width: nat, top: real, n: nat)
    requires Priced(costs, width) && 0.0 < top && n < width
    ensures IsLeastCost(costs, width, top, n, DpRow(costs, width, top)[n])
  {
    RowsNonNegative(costs, width, top, n);
    if DpRow(costs, width, top)[n] < top { CellBelowTop(costs, width, top, n); }
    forall a | Places(a, |costs|, n) ensures Fits(costs, a) && DpRow(costs, width, top)[n] <= CostOf(costs, a) {
      CellIsLowerBound(costs, width, top, n, a);
    }
  }
}
