/** The two baselines the optimal split is measured against: lots in proportion to displayed size, and
    everything to the venue with the best price.  */
module Baselines {
  import opened Arithmetic
  import opened Apportionment
  import opened MarketTypes
  import opened RoutingCosts
  import opened RoutingSplit

  function DisplayedAt(v: VenueState): int {
    if v.kind == LIT then Visible(v) else 0
  }

  function Displayed(venues: seq<VenueState>): (d: seq<int>)
    ensures |d| == |venues|
  {
    seq(|venues|, i requires 0 <= i < |venues| => DisplayedAt(venues[i]))
  }

  // The cost of an allocation on the lit venues it uses.
  function SplitCost(cfg: RouterConfig, venues: seq<VenueState>, allocations: seq<int>, top: real): real
    requires |allocations| == |venues|
  {
    if venues == [] then 0.0
    else
      var k := |venues| - 1;
      SplitCost(cfg, venues[..k], allocations[..k], top)
      + if allocations[k] > 0 then LitCost(cfg, venues[k], allocations[k], DisplayedAt(venues[k]), top) else 0.0
  }

  // The venue that takes the odd lot displays most: if no venue comes before it for a leftover lot it is one of those
  // that are first in line, and otherwise the first of the venues that display most.
  ghost predicate TakesOdd(n: nat, d: seq<int>, deepest: nat) {
    && 0 < Total(d) && deepest < |d| && (forall i | 0 <= i < |d| :: d[i] <= d[deepest])
    && ((forall j: nat | j < |d| && d[j] > 0 :: Before(n, d, Total(d), deepest, j))
        || forall i | 0 <= i < deepest :: d[i] < d[deepest])
  }

  // Lots by largest remainder, the odd lot on a venue that displays most.
  ghost predicate IsProportionalSplit(cfg: RouterConfig, top: real, totalSize: nat, venues: seq<VenueState>,
                                      lots: seq<int>, deepest: nat, result: SplitResult)
    requires 1 <= cfg.lotSize
  {
    var d := Displayed(venues);
    NumLots(totalSize, cfg.lotSize);
    && |result.allocations| == |venues|
    && if Total(d) == 0 then result == SplitResult(seq(|venues|, _ => 0), top)
       else
         && LargestRemainder(totalSize / cfg.lotSize, d, lots)
         && (totalSize % cfg.lotSize > 0 ==> TakesOdd(totalSize / cfg.lotSize, d, deepest))
         && (forall i | 0 <= i < |venues| ::
               result.allocations[i] == lots[i] * cfg.lotSize + if i == deepest then totalSize % cfg.lotSize else 0)
         && result.expectedCost == SplitCost(cfg, venues, result.allocations, top)
  }

  // The venues with displayed size, in order.
  function Shown(d: seq<int>): (r: seq<nat>)
    ensures forall k | 0 <= k < |r| :: r[k] < |d|
  {
    if d == [] then []
    else
      var k := |d| - 1;
      if d[k] > 0 then Shown(d[..k]) + [k] else Shown(d[..k])
  }

  lemma {:induction false} ShownAre(d: seq<int>)
    ensures |Shown(d)| == Total(Marks(d))
    ensures forall i: nat :: i in Shown(d) <==> i < |d| && d[i] > 0
    ensures forall j, k | 0 <= j < k < |Shown(d)| :: Shown(d)[j] != Shown(d)[k]
  {
    if d != [] {
      var k := |d| - 1;
      ShownAre(d[..k]);
      assert Marks(d)[..k] == Marks(d[..k]);
    }
  }

  // A reordering of `parts` in which no entry comes after a worse one.
  ghost predicate SortedParts(n: nat, d: seq<int>, t: int, parts: seq<nat>, sorted: seq<nat>)
    requires 0 < t
  {
    && |sorted| == |parts| && (forall k | 0 <= k < |sorted| :: sorted[k] < |d|)
    && (forall i: nat :: i in sorted <==> i in parts)
    && (forall j, k | 0 <= j < k < |sorted| :: sorted[j] != sorted[k] && Before(n, d, t, sorted[j], sorted[k]))
  }

  // Puts one more part into sorted parts.
  method InsertPart(n: nat, d: seq<int>, t: int, ghost parts: seq<nat>, sorted: seq<nat>, x: nat) returns (r: seq<nat>)
    requires 0 < t && SortedParts(n, d, t, parts, sorted) && x < |d| && x !in parts
    ensures SortedParts(n, d, t, parts + [x], r)
  {
    var k := 0;
    while k < |sorted| && Before(n, d, t, sorted[k], x)
      invariant 0 <= k <= |sorted|
      invariant forall j | 0 <= j < k :: Before(n, d, t, sorted[j], x)
    {
      k := k + 1;
    }
    r := sorted[..k] + [x] + sorted[k..];
    forall j | k <= j < |sorted| ensures Before(n, d, t, x, sorted[j]) {
      assert j == k || Before(n, d, t, sorted[k], sorted[j]);
    }
    forall i: nat ensures i in r <==> i in parts + [x] {
      assert i in r <==> i in sorted[..k] || i == x || i in sorted[k..];
      assert sorted == sorted[..k] + sorted[k..];
    }
  }

  // Orders the fractional parts; the order of equal ones is not relied on.
  method SortParts(n: nat, d: seq<int>, t: int, parts: seq<nat>) returns (sorted: seq<nat>)
    requires 0 < t && (forall k | 0 <= k < |parts| :: parts[k] < |d|)
    requires forall j, k | 0 <= j < k < |parts| :: parts[j] != parts[k]
    ensures SortedParts(n, d, t, parts, sorted)
  {
    sorted := [];
    assert parts[..0] == [];
    for k := 0 to |parts|
      invariant SortedParts(n, d, t, parts[..k], sorted)
    {
      sorted := InsertPart(n, d, t, parts[..k], sorted, parts[k]);
      assert parts[..k + 1] == parts[..k] + [parts[k]];
    }
    assert parts[..|parts|] == parts;
  }

  // Lots after k leftover lots are dealt: one more for each of the first k parts.
  ghost predicate Dealt(n: nat, d: seq<int>, t: int, parts: seq<nat>, k: nat, lots: seq<int>)
    requires 0 < t && k <= |parts|
  {
    && |lots| == |d|
    && forall i: nat | i < |d| :: lots[i] == Whole(n, d[i], t) + if i in parts[..k] then 1 else 0
  }

  lemma DealtStep(n: nat, d: seq<int>, t: int, parts: seq<nat>, k: nat, lots: seq<int>)
    requires 0 < t && k < |parts| && Dealt(n, d, t, parts, k, lots) && parts[k] < |d| && parts[k] !in parts[..k]
    ensures Dealt(n, d, t, parts, k + 1, lots[parts[k] := lots[parts[k]] + 1])
  {
    assert parts[..k + 1] == parts[..k] + [parts[k]];
  }

  lemma InPrefix(parts: seq<nat>, k: nat, b: nat)
    requires k <= |parts| && b < |parts|
    ensures b < k ==> parts[b] in parts[..k]
  {
    if b < k { assert parts[..k][b] == parts[b]; }
  }

  lemma DealtIsFair(n: nat, d: seq<int>, t: int, parts: seq<nat>, k: nat, lots: seq<int>, i: nat, j: nat)
    requires 0 < t && k <= |parts| && SortedParts(n, d, t, Shown(d), parts) && Dealt(n, d, t, parts, k, lots)
    requires i < |d| && j < |d| && d[j] > 0 && lots[i] > Whole(n, d[i], t) && lots[j] == Whole(n, d[j], t)
    ensures Before(n, d, t, i, j)
  {
    ShownAre(d);
    assert i in parts[..k] && j in parts && j !in parts[..k];
    var a :| 0 <= a < k && parts[a] == i;
    var b :| 0 <= b < |parts| && parts[b] == j;
    InPrefix(parts, k, b);
  }

  lemma DealtIsLargestRemainder(n: nat, d: seq<int>, parts: seq<nat>, k: nat, lots: seq<int>)
    requires 0 < Total(d) && k <= |parts| && SortedParts(n, d, Total(d), Shown(d), parts)
             && Dealt(n, d, Total(d), parts, k, lots)
    requires Total(lots) == n
    ensures LargestRemainder(n, d, lots)
  {
    var t := Total(d);
    ShownAre(d);
    forall i, j | 0 <= i < |d| && 0 <= j < |d| && d[j] > 0 && lots[i] > Whole(n, d[i], t)
      && lots[j] == Whole(n, d[j], t)
      ensures Before(n, d, t, i, j)
    {
      DealtIsFair(n, d, t, parts, k, lots, i, j);
    }
    forall i: nat | i < |d| && i in parts[..k] ensures d[i] > 0 {
      assert i in parts;
    }
  }

  // Distinct parts are as many as the venues that display size.
  lemma PartsCount(d: seq<int>, parts: seq<nat>)
    requires |parts| == |Shown(d)|
    ensures |parts| == Total(Marks(d))
  {
    ShownAre(d);
  }

  lemma FirstInLine(n: nat, d: seq<int>, parts: seq<nat>)
    requires 0 < Total(d) && SortedParts(n, d, Total(d), Shown(d), parts) && parts != []
    ensures forall j: nat | j < |d| && d[j] > 0 :: Before(n, d, Total(d), parts[0], j)
  {
    ShownAre(d);
    forall j: nat | j < |d| && d[j] > 0 ensures Before(n, d, Total(d), parts[0], j) {
      assert j in parts;
      var k :| 0 <= k < |parts| && parts[k] == j;
    }
  }

  // Deals one leftover lot to each of the first parts; `k % |parts|` never wraps.
  method DealLeftover(n: nat, d: seq<int>, wholes: seq<int>, dealt: int, parts: seq<nat>) returns (lots: seq<int>)
    requires Displays(d) && 0 < Total(d) && wholes == Wholes(n, d, Total(d)) && dealt == Total(wholes)
    requires SortedParts(n, d, Total(d), Shown(d), parts)
    ensures LargestRemainder(n, d, lots)
  {
    LeftoverFits(n, d);
    PartsCount(d, parts);
    ghost var t := Total(d);
    lots := wholes;
    var k, assignedLots := 0, dealt;
    while assignedLots < n
      invariant 0 <= k <= |parts| && assignedLots == dealt + k <= n && Total(lots) == assignedLots
      invariant Dealt(n, d, t, parts, k, lots)
    {
      SmallRemainder(k, |parts|);
      var i := parts[k % |parts|];
      DealtStep(n, d, t, parts, k, lots);
      TotalUpdate(lots, i, lots[i] + 1);
      lots, k, assignedLots := lots[i := lots[i] + 1], k + 1, assignedLots + 1;
    }
    DealtIsLargestRemainder(n, d, parts, k, lots);
  }

  lemma {:induction false} TotalUpdate(a: seq<int>, i: nat, x: int)
    requires i < |a|
    ensures Total(a[i := x]) == Total(a) - a[i] + x
  {
    var k := |a| - 1;
    if i < k {
      TotalUpdate(a[..k], i, x);
      assert a[i := x][..k] == a[..k][i := x];
    } else {
      assert a[i := x][..k] == a[..k];
    }
  }

  lemma {:induction false} TotalOfZeros(m: nat)
    ensures Total(seq(m, _ => 0)) == 0
  {
    if m > 0 {
      assert seq(m, _ => 0)[..m - 1] == seq(m - 1, _ => 0);
      TotalOfZeros(m - 1);
    }
  }

  // Whole lots of every venue, their sum, and the venues with displayed size.
  method WholeLots(n: nat, d: seq<int>, t: int) returns (lots: seq<int>, dealt: int, parts: seq<nat>)
    requires Displays(d) && 0 < t
    ensures lots == Wholes(n, d, t) && dealt == Total(lots) && parts == Shown(d)
  {
    lots, dealt, parts := seq(|d|, _ => 0), 0, [];
    TotalOfZeros(|d|);
    for i := 0 to |d|
      invariant |lots| == |d| && parts == Shown(d[..i])
      invariant forall j | 0 <= j < |d| :: lots[j] == if j < i then Whole(n, d[j], t) else 0
      invariant dealt == Total(lots)
    {
      assert d[..i + 1][..i] == d[..i];
      if d[i] == 0 {
        ShareSplits(n, d[i], t);
      } else {
        TotalUpdate(lots, i, Whole(n, d[i], t));
        lots := lots[i := Whole(n, d[i], t)];
        dealt, parts := dealt + lots[i], parts + [i];
      }
    }
    assert d[..|d|] == d;
    assert lots == Wholes(n, d, t);
  }

  // The venue that displays most, the first of the parts unless another displays more.
  method Deepest(d: seq<int>, first: nat) returns (deepest: nat)
    requires first < |d|
    ensures deepest < |d| && forall i | 0 <= i < |d| :: d[i] <= d[deepest]
    ensures deepest == first || forall i | 0 <= i < deepest :: d[i] < d[deepest]
  {
    deepest := first;
    for i := 0 to |d|
      invariant deepest < |d| && (forall j | 0 <= j < i :: d[j] <= d[deepest])
      invariant deepest == first || forall j | 0 <= j < deepest :: d[j] < d[deepest]
    {
      if d[i] > d[deepest] { deepest := i; }
    }
  }

  method CostSplit(cfg: RouterConfig, venues: seq<VenueState>, allocations: seq<int>, displayed: seq<int>, top: real)
    returns (cost: real)
    requires |allocations| == |venues| && displayed == Displayed(venues)
    ensures cost == SplitCost(cfg, venues, allocations, top)
  {
    cost := 0.0;
    for i := 0 to |venues|
      invariant cost == SplitCost(cfg, venues[..i], allocations[..i], top)
    {
      assert venues[..i + 1][..i] == venues[..i] && allocations[..i + 1][..i] == allocations[..i];
      if allocations[i] > 0 { cost := cost + LitCost(cfg, venues[i], allocations[i], displayed[i], top); }
    }
    assert venues[..|venues|] == venues && allocations[..|venues|] == allocations;
  }

  lemma {:induction false} DisplayedSane(venues: seq<VenueState>)
    requires forall i | 0 <= i < |venues| :: 0 <= venues[i].visible
    ensures Displays(Displayed(venues)) && 0 <= Total(Displayed(venues))
  {
    var d := Displayed(venues);
    TotalOfZeros(|d|);
    TotalMonotone(seq(|d|, _ => 0), d);
  }

  method ComputeProportionalSplit(cfg: RouterConfig, top: real, totalSize: nat, venues: seq<VenueState>)
    returns (result: SplitResult)
    requires 1 <= cfg.lotSize && forall i | 0 <= i < |venues| :: 0 <= venues[i].visible
    ensures exists lots, deepest :: IsProportionalSplit(cfg, top, totalSize, venues, lots, deepest, result)
  {
    NumLots(totalSize, cfg.lotSize);
    DisplayedSane(venues);
    var displayed, totalDisplayed := [], 0;
    for i := 0 to |venues|
      invariant displayed == Displayed(venues)[..i] && totalDisplayed == Total(displayed)
    {
      displayed := displayed + [DisplayedAt(venues[i])];
      assert displayed[..i] == Displayed(venues)[..i];
      totalDisplayed := totalDisplayed + displayed[i];
    }
    assert displayed == Displayed(venues);
    result := SplitResult(seq(|venues|, _ => 0), top);
    if totalDisplayed == 0 {
      assert IsProportionalSplit(cfg, top, totalSize, venues, [], 0, result);
    }
    if totalDisplayed != 0 {
      var numLots := totalSize / cfg.lotSize;
      var wholes, dealt, parts := WholeLots(numLots, displayed, totalDisplayed);
      ShownAre(displayed);
      MarksPositive(displayed);
      var ordered := SortParts(numLots, displayed, totalDisplayed, parts);
      var shares := DealLeftover(numLots, displayed, wholes, dealt, ordered);
      var allocations := seq(|venues|, i requires 0 <= i < |venues| => shares[i] * cfg.lotSize);
      var remainder, best := totalSize % cfg.lotSize, 0;
      if remainder > 0 {
        best := Deepest(displayed, ordered[0]);
        FirstInLine(numLots, displayed, ordered);
        allocations := allocations[best := allocations[best] + remainder];
      }
      var cost := CostSplit(cfg, venues, allocations, displayed, top);
      result := SplitResult(allocations, cost);
      assert IsProportionalSplit(cfg, top, totalSize, venues, shares, best, result);
    }
  }

  // The price at which a venue would be hit, and the one no venue is taken at.
  function Touch(side: Side, v: VenueState): int {
    if side == BUY then v.bestAsk else v.bestBid
  }

  predicate Quotes(side: Side, v: VenueState) {
    v.kind == LIT && Better(Opposite(side), Touch(side, v), Sentinel(Opposite(side)))
  }

  // Everything goes to the first of the lit venues with the best price.
  ghost predicate IsNaivePick(side: Side, venues: seq<VenueState>, pick: int) {
    if pick == -1 then forall i | 0 <= i < |venues| :: !Quotes(side, venues[i])
    else
      && 0 <= pick < |venues| && Quotes(side, venues[pick])
      && forall i | 0 <= i < |venues| && Quotes(side, venues[i]) ::
           i == pick || Better(Opposite(side), Touch(side, venues[pick]), Touch(side, venues[i]))
           || (pick < i && Touch(side, venues[pick]) == Touch(side, venues[i]))
  }

  ghost predicate IsNaiveSplit(cfg: RouterConfig, top: real, totalSize: nat, venues: seq<VenueState>, pick: int,
                               result: SplitResult)
  {
    if 0 <= pick < |venues| then
      && result.allocations == seq(|venues|, _ => 0)[pick := totalSize]
      && result.expectedCost == LitCost(cfg, venues[pick], totalSize, Visible(venues[pick]), top)
    else
      result == SplitResult(seq(|venues|, _ => 0), top)
  }

  method ComputeNaiveSplit(cfg: RouterConfig, top: real, totalSize: nat, side: Side, venues: seq<VenueState>)
    returns (result: SplitResult, pick: int)
    ensures IsNaivePick(side, venues, pick) && IsNaiveSplit(cfg, top, totalSize, venues, pick, result)
  {
    result, pick := SplitResult(seq(|venues|, _ => 0), top), -1;
    var bestPrice := if side == BUY then NO_ASK else NO_BID;
    for i := 0 to |venues|
      invariant IsNaivePick(side, venues[..i], pick)
      invariant bestPrice == if pick == -1 then Sentinel(Opposite(side)) else Touch(side, venues[pick])
    {
      if venues[i].kind == LIT {
        if side == BUY {
          var ask := venues[i].bestAsk;
          if ask < bestPrice { bestPrice, pick := ask, i; }
        } else {
          var bid := venues[i].bestBid;
          if bid > bestPrice { bestPrice, pick := bid, i; }
        }
      }
    }
    assert venues[..|venues|] == venues;
    if pick != -1 {
      var visible := Visible(venues[pick]);
      result := SplitResult(result.allocations[pick := totalSize], LitCost(cfg, venues[pick], totalSize, visible, top));
    }
  }
}
