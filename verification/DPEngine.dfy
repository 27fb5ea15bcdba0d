/** The routing engine's dynamic program, filling flat tables in place. */
module DPEngine {
  import opened Arithmetic
  import opened RoutingCosts
  import opened RoutingSplit
  import opened RoutingTable

  // Rows 0 .. |tables| of the flat table hold the recurrence for the first venues' tables, and the
  // choice rows what it chose.
  ghost predicate Filled(dp: seq<real>, choice: seq<nat>, tables: seq<Row>, width: nat, top: real) {
    && 0 < width && Tables(tables, width) && |dp| == |choice|
    && (forall j | 0 <= j <= |tables| :: RowAt(dp, choice, tables, width, top, j))
  }

  ghost predicate RowAt(dp: seq<real>, choice: seq<nat>, tables: seq<Row>, width: nat, top: real, j: nat)
    requires 0 < width && Tables(tables, width) && |dp| == |choice| && j <= |tables|
  {
    && 0 <= j * width && j * width + width <= |dp|
    && dp[j * width..j * width + width] == DpRow(tables[..j], width, top)
    && (0 < j ==>
          choice[j * width..j * width + width] == Choices(tables[j - 1], DpRow(tables[..j - 1], width, top), top))
  }

  lemma RowsInBounds(j: nat, k: nat, width: nat)
    requires j <= k
    ensures 0 <= j * width && j * width <= k * width
    ensures j < k ==> j * width + width <= k * width
    ensures (k + 1) * width == k * width + width
  {
    ProductOfNats(j, width);
    ProductOfNats(k - j, width);
    assert k * width == j * width + (k - j) * width;
    if j < k {
      ProductOfNats(k - j - 1, width);
      assert (k - j) * width == width + (k - j - 1) * width;
    }
  }

  // One more row, written behind the others.
  lemma FilledStep(dp: seq<real>, choice: seq<nat>, dp': seq<real>, choice': seq<nat>, tables: seq<Row>, cost: Row,
                   width: nat, top: real)
    requires Filled(dp, choice, tables, width, top) && |cost| == width && |dp'| == |choice'| == |dp|
    requires var base := (|tables| + 1) * width;
             0 <= base && base + width <= |dp| && dp'[..base] == dp[..base] && choice'[..base] == choice[..base]
    requires var base := (|tables| + 1) * width;
             var prev := DpRow(tables, width, top);
             dp'[base..base + width] == NextRow(cost, prev, top)
               && choice'[base..base + width] == Choices(cost, prev, top)
    ensures Filled(dp', choice', tables + [cost], width, top)
  {
    hide ScanCell, NextRow, Choices;
    var all, base := tables + [cost], (|tables| + 1) * width;
    forall j | 0 <= j <= |all| ensures RowAt(dp', choice', all, width, top, j) {
      if j <= |tables| {
        RowsInBounds(j, |tables| + 1, width);
        assert RowAt(dp, choice, tables, width, top, j);
        assert all[..j] == tables[..j];
        assert dp'[j * width..j * width + width] == dp'[..base][j * width..j * width + width];
        assert choice'[j * width..j * width + width] == choice'[..base][j * width..j * width + width];
        if 0 < j { assert all[..j - 1] == tables[..j - 1]; }
      } else {
        assert all[..j] == all && all[..|tables|] == tables;
      }
    }
  }

  // Fills row `base` from the row before it, through a reversed copy of that row.
  method FillRow(dp: array<real>, choice: array<nat>, base: nat, width: nat, cost: array<real>,
                 prevReversed: array<real>, top: real)
    requires 0 < width <= base && base + width <= dp.Length == choice.Length
    requires cost.Length == prevReversed.Length == width && dp != cost && dp != prevReversed && cost != prevReversed
    modifies dp, choice, prevReversed
    ensures dp[..base] == old(dp[..base]) && choice[..base] == old(choice[..base])
    ensures var prev := old(dp[base - width..base]);
            dp[base..base + width] == NextRow(cost[..], prev, top)
              && choice[base..base + width] == Choices(cost[..], prev, top)
  {
    ghost var prev := dp[base - width..base];
    for i := 0 to width
      modifies prevReversed
      invariant forall j | 0 <= j < i :: prevReversed[j] == prev[width - 1 - j]
    {
      prevReversed[i] := dp[base - width + (width - 1 - i)];
    }
    for n := 0 to width
      modifies dp, choice
      invariant dp[..base] == old(dp[..base]) && choice[..base] == old(choice[..base])
      invariant forall j | 0 <= j < width :: prevReversed[j] == prev[width - 1 - j]
      invariant forall i | base <= i < base + n ::
                  (dp[i], choice[i]) == ScanCell(cost[..], prev, i - base, i - base + 1, top)
    {
      var minCost, bestX: nat := top, 0;
      for x := 0 to n + 1
        invariant (minCost, bestX) == ScanCell(cost[..], prev, n, x, top)
      {
        var prevVal := prevReversed[width - 1 - n + x];
        if prevVal != top {
          var totalCost := cost[x] + prevVal;
          if totalCost < minCost {
            minCost, bestX := totalCost, x;
          }
        }
      }
      dp[base + n], choice[base + n] := minCost, bestX;
    }
    assert dp[base..base + width] == NextRow(cost[..], prev, top);
  }

  // The positions of the venues of each kind, in order.
  method PartitionVenues(venues: seq<VenueState>) returns (lit: seq<nat>, dark: seq<nat>)
    ensures lit == Positions(venues, LIT) && dark == Positions(venues, DARK)
  {
    lit, dark := [], [];
    for i := 0 to |venues|
      invariant lit == Positions(venues[..i], LIT) && dark == Positions(venues[..i], DARK)
    {
      assert venues[..i + 1][..i] == venues[..i];
      if venues[i].kind == LIT { lit := lit + [i]; } else { dark := dark + [i]; }
    }
    assert venues[..|venues|] == venues;
  }

  // Row k from row k - 1 and the costs of the k-th venue.
  method AddRow(dp: array<real>, choice: array<nat>, k: nat, width: nat, cost: array<real>, prevReversed: array<real>,
                top: real, ghost tables: seq<Row>)
    requires 0 < width && 1 <= k == |tables| + 1 && dp.Length == choice.Length && (k + 1) * width <= dp.Length
    requires cost.Length == prevReversed.Length == width && dp != cost && dp != prevReversed && cost != prevReversed
    requires Filled(dp[..], choice[..], tables, width, top)
    modifies dp, choice, prevReversed
    ensures Filled(dp[..], choice[..], tables + [cost[..]], width, top)
  {
    RowsInBounds(k - 1, k, width);
    RowsInBounds(k, k, width);
    RowsInBounds(0, k - 1, width);
    var base := k * width;
    assert RowAt(dp[..], choice[..], tables, width, top, k - 1) && tables[..k - 1] == tables;
    ghost var d, c := dp[..], choice[..];
    assert d[base - width..base] == DpRow(tables, width, top);
    FillRow(dp, choice, base, width, cost, prevReversed, top);
    FilledStep(d, c, dp[..], choice[..], tables, cost[..], width, top);
  }

  // The cost of every number of lots at a lit venue.
  method FillLitCosts(cfg: RouterConfig, v: VenueState, costForX: array<real>, top: real)
    modifies costForX
    ensures costForX[..] == LitTable(cfg, v, costForX.Length, top)
  {
    for x := 0 to costForX.Length
      invariant forall y | 0 <= y < x :: costForX[y] == LitCost(cfg, v, y * cfg.lotSize, Visible(v), top)
    {
      costForX[x] := LitCost(cfg, v, x * cfg.lotSize, Visible(v), top);
    }
  }

  // The cost of every number of lots at a dark venue, a miss being priced by the lit row.
  method FillDarkCosts(cfg: RouterConfig, exp: real -> real, v: VenueState, costForX: array<real>, litRow: seq<real>)
    requires 1 <= cfg.lotSize && |litRow| == costForX.Length
    modifies costForX
    ensures costForX[..] == DarkTable(cfg, exp, v, costForX.Length, litRow)
  {
    for x := 0 to costForX.Length
      invariant forall y | 0 <= y < x :: costForX[y] == DarkTable(cfg, exp, v, costForX.Length, litRow)[y]
    {
      LotsFit(cfg.lotSize, x);
      costForX[x] := DarkCost(cfg, exp, v, x * cfg.lotSize, litRow);
    }
  }

  // Adds the rows of the lit venues.
  method FillLitRows(cfg: RouterConfig, top: real, venues: seq<VenueState>, lit: seq<nat>, width: nat, dp: array<real>,
                     choice: array<nat>)
    requires 0 < width && lit == Positions(venues, LIT) && dp.Length == choice.Length
    requires (|lit| + 1) * width <= dp.Length && Filled(dp[..], choice[..], [], width, top)
    modifies dp, choice
    ensures Filled(dp[..], choice[..], LitTables(cfg, venues, width, top), width, top)
  {
    var costForX, prevReversed := new real[width](_ => 0.0), new real[width](_ => 0.0);
    ghost var tables := LitTables(cfg, venues, width, top);
    assert tables[..0] == [];
    for k := 1 to |lit| + 1
      invariant Filled(dp[..], choice[..], tables[..k - 1], width, top)
    {
      FillLitCosts(cfg, venues[lit[k - 1]], costForX, top);
      RowsInBounds(k + 1, |lit| + 1, width);
      AddRow(dp, choice, k, width, costForX, prevReversed, top, tables[..k - 1]);
      assert tables[..k] == tables[..k - 1] + [costForX[..]];
    }
    assert tables[..|lit|] == tables;
  }

  // Adds the rows of the dark venues, which read the finished lit row.
  method FillDarkRows(cfg: RouterConfig, exp: real -> real, top: real, venues: seq<VenueState>, litCount: nat,
                      dark: seq<nat>, width: nat,
                      dp: array<real>, choice: array<nat>)
    requires 1 <= cfg.lotSize && 0 < width && dark == Positions(venues, DARK) && litCount == |Positions(venues, LIT)|
    requires dp.Length == choice.Length && (litCount + |dark| + 1) * width <= dp.Length
    requires Filled(dp[..], choice[..], LitTables(cfg, venues, width, top), width, top)
    modifies dp, choice
    ensures Filled(dp[..], choice[..], AllTables(cfg, exp, venues, width, top), width, top)
  {
    hide DpRow, Choices, DarkTable, LitTables;
    var costForX, prevReversed := new real[width](_ => 0.0), new real[width](_ => 0.0);
    ghost var litTables := LitTables(cfg, venues, width, top);
    RowsInBounds(litCount, litCount + |dark| + 1, width);
    assert RowAt(dp[..], choice[..], litTables, width, top, litCount) && litTables[..litCount] == litTables;
    var litRow := dp[litCount * width..litCount * width + width];
    ghost var tables := DarkTables(cfg, exp, venues, width, litRow);
    assert litTables + tables[..0] == litTables;
    for k := litCount + 1 to litCount + |dark| + 1
      invariant Filled(dp[..], choice[..], litTables + tables[..k - litCount - 1], width, top)
    {
      FillDarkCosts(cfg, exp, venues[dark[k - litCount - 1]], costForX, litRow);
      RowsInBounds(k + 1, litCount + |dark| + 1, width);
      AddRow(dp, choice, k, width, costForX, prevReversed, top, litTables + tables[..k - litCount - 1]);
      assert litTables + tables[..k - litCount] == litTables + tables[..k - litCount - 1] + [costForX[..]];
    }
    assert tables[..|dark|] == tables;
  }

  // One choice read back.
  lemma ReadStep(dp: seq<real>, choice: seq<nat>, tables: seq<Row>, width: nat, top: real, k: nat, remaining: nat,
                 lots: seq<nat>)
    requires Filled(dp, choice, tables, width, top) && 0 < k <= |tables| == |lots| && remaining < width
    requires Backtrack(tables[..k], width, top, remaining) == lots[..k]
    ensures 0 <= k * width && k * width + width <= |choice|
    ensures var x := choice[k * width + remaining];
            x == lots[k - 1] && x <= remaining && Backtrack(tables[..k - 1], width, top, remaining - x) == lots[..k - 1]
  {
    hide ScanCell, NextRow, DpRow;
    assert RowAt(dp, choice, tables, width, top, k);
    assert tables[..k][..k - 1] == tables[..k - 1];
    BacktrackStep(tables[..k], width, top, remaining);
    var x := choice[k * width + remaining];
    assert x == choice[k * width..k * width + width][remaining];
    assert lots[..k][k - 1] == x && lots[..k][..k - 1] == lots[..k - 1];
  }

  // Walks the choices back from the last cell, and puts each venue's lots at its own position.
  method ReadBack(cfg: RouterConfig, top: real, order: seq<nat>, venueCount: nat, width: nat, n: nat, choice: seq<nat>,
                  ghost dp: seq<real>, ghost tables: seq<Row>) returns (allocations: seq<int>)
    requires Filled(dp, choice, tables, width, top) && n < width && |order| == |tables|
    requires (forall k | 0 <= k < |order| :: order[k] < venueCount)
             && (forall j, k | 0 <= j < k < |order| :: order[j] != order[k])
    ensures |allocations| == venueCount
    ensures var lots := Backtrack(tables, width, top, n);
            forall k | 0 <= k < |order| :: allocations[order[k]] == lots[k] * cfg.lotSize
  {
    hide DpRow, Choices, Backtrack, RowAt;
    allocations := seq(venueCount, _ => 0);
    ghost var lots := Backtrack(tables, width, top, n);
    var remainingLots, k := n, |order|;
    assert tables[..k] == tables;
    while k > 0
      invariant 0 <= k <= |order| && 0 <= remainingLots < width && |allocations| == venueCount
      invariant Backtrack(tables[..k], width, top, remainingLots) == lots[..k]
      invariant forall j | k <= j < |order| :: allocations[order[j]] == lots[j] * cfg.lotSize
    {
      ReadStep(dp, choice, tables, width, top, k, remainingLots, lots);
      var lotsToSend := choice[k * width + remainingLots];
      allocations := allocations[order[k - 1] := lotsToSend * cfg.lotSize];
      remainingLots, k := remainingLots - lotsToSend, k - 1;
    }
  }

  // The cheapest venue for the odd lot, lit venues before dark ones, or -1.
  method PickOddLot(cfg: RouterConfig, exp: real -> real, top: real, venues: seq<VenueState>, order: seq<nat>,
                    litRow: seq<real>, width: nat, remainder: int)
    returns (pick: int)
    requires 1 <= cfg.lotSize && 0 < width && 0 < remainder < cfg.lotSize
    requires order == VenueOrder(venues) && litRow == LitRow(cfg, venues, width, top)
    ensures pick == OddLotPick(cfg, exp, venues, width, top, remainder)
  {
    assert remainder / cfg.lotSize == 0;
    ghost var costs := OddLotCosts(cfg, exp, venues, width, top, remainder);
    var bestCost := top;
    pick := -1;
    for k := 0 to |order|
      invariant (bestCost, pick) == Cheapest(costs[..k], top)
    {
      var v := venues[order[k]];
      var cost :=
        if v.kind == LIT then LitCost(cfg, v, remainder, Visible(v), top)
        else DarkCost(cfg, exp, v, remainder, litRow);
      assert costs[..k + 1][..k] == costs[..k];
      if cost < bestCost {
        bestCost, pick := cost, k;
      }
    }
    assert costs[..|order|] == costs;
  }

  // The whole table: lit rows, then dark rows.
  method FillTables(cfg: RouterConfig, exp: real -> real, top: real, venues: seq<VenueState>, lit: seq<nat>,
                    dark: seq<nat>, width: nat)
    returns (dp: array<real>, choice: array<nat>)
    requires 1 <= cfg.lotSize && 0 < width && lit == Positions(venues, LIT) && dark == Positions(venues, DARK)
    ensures fresh(dp) && fresh(choice)
    ensures Filled(dp[..], choice[..], AllTables(cfg, exp, venues, width, top), width, top)
  {
    var V := |lit| + |dark|;
    RowsInBounds(0, V, width);
    RowsInBounds(V, V, width);
    RowsInBounds(|lit| + 1, V + 1, width);
    dp, choice := new real[(V + 1) * width](_ => top), new nat[(V + 1) * width](_ => 0);
    dp[0] := 0.0;
    assert dp[..width] == FirstRow(width, top);
    assert RowAt(dp[..], choice[..], [], width, top, 0);
    FillLitRows(cfg, top, venues, lit, width, dp, choice);
    FillDarkRows(cfg, exp, top, venues, |lit|, dark, width, dp, choice);
  }

  // The lit row and the last cell of a finished table.
  lemma FinishedRows(cfg: RouterConfig, exp: real -> real, top: real, venues: seq<VenueState>, width: nat,
                     dp: seq<real>, choice: seq<nat>, n: nat)
    requires 1 <= cfg.lotSize && 0 < width && n < width
    requires Filled(dp, choice, AllTables(cfg, exp, venues, width, top), width, top)
    ensures var L, V := |Positions(venues, LIT)|, |VenueOrder(venues)|;
            && 0 <= L * width && L * width + width <= |dp|
               && dp[L * width..L * width + width] == LitRow(cfg, venues, width, top)
            && 0 <= V * width && V * width + width <= |dp|
               && dp[V * width + n] == DpRow(AllTables(cfg, exp, venues, width, top), width, top)[n]
  {
    var L, V := |Positions(venues, LIT)|, |VenueOrder(venues)|;
    var tables := AllTables(cfg, exp, venues, width, top);
    assert RowAt(dp, choice, tables, width, top, L) && tables[..L] == LitTables(cfg, venues, width, top);
    assert RowAt(dp, choice, tables, width, top, V) && tables[..V] == tables;
    assert dp[V * width + n] == dp[V * width..V * width + width][n];
  }

  method ComputeOptimalSplit(cfg: RouterConfig, exp: real -> real, top: real, totalSize: nat, venues: seq<VenueState>)
    returns (result: SplitResult)
    requires 1 <= cfg.lotSize
    ensures IsOptimalSplit(cfg, exp, top, totalSize, venues, result)
  {
    hide Filled, DpRow, AllTables, LitRow, OddLotPick, Backtrack;
    NumLots(totalSize, cfg.lotSize);
    var numLots := totalSize / cfg.lotSize;
    var W := numLots + 1;
    var lit, dark := PartitionVenues(venues);
    var dp, choice := FillTables(cfg, exp, top, venues, lit, dark, W);
    FinishedRows(cfg, exp, top, venues, W, dp[..], choice[..], numLots);
    var order, V := lit + dark, |lit| + |dark|;
    OrderIsPermutation(venues);
    var allocations := ReadBack(cfg, top, order, |venues|, W, numLots, choice[..], dp[..],
                                AllTables(cfg, exp, venues, W, top));
    var expectedCost := dp[V * W + numLots];

    var remainder := totalSize % cfg.lotSize;
    if remainder > 0 && allocations != [] {
      var pick := PickOddLot(cfg, exp, top, venues, order, dp[|lit| * W..|lit| * W + W], W, remainder);
      if pick != -1 {
        allocations := allocations[order[pick] := allocations[order[pick]] + remainder];
      }
    }
    result := SplitResult(allocations, expectedCost);
  }
}
