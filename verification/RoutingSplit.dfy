/** The router's optimal split as a function of its inputs: cost tables for the lit venues, then for the
    dark venues priced against the finished lit row, the table's last cell, the allocation read back
    from it, and the odd lot on the cheapest venue.  */
module RoutingSplit {
  import opened Arithmetic
  import opened RoutingCosts
  import opened RoutingTable

  datatype SplitResult = SplitResult(allocations: seq<int>, expectedCost: real)

  // The positions of the venues of one kind, in order.
  function Positions(venues: seq<VenueState>, kind: VenueKind): (r: seq<nat>)
    ensures forall k | 0 <= k < |r| :: r[k] < |venues|
  {
    if venues == [] then []
    else
      var n := |venues| - 1;
      var before := Positions(venues[..n], kind);
      if venues[n].kind == kind then before + [n] else before
  }

  // Lit venues first, then dark ones.
  function VenueOrder(venues: seq<VenueState>): (r: seq<nat>)
    ensures forall k | 0 <= k < |r| :: r[k] < |venues|
  {
    Positions(venues, LIT) + Positions(venues, DARK)
  }

  function LitTable(cfg: RouterConfig, v: VenueState, width: nat, top: real): (r: Row)
    ensures |r| == width
  {
    seq(width, x => LitCost(cfg, v, x * cfg.lotSize, Visible(v), top))
  }

  lemma LotsFit(lot: int, x: int)
    requires 1 <= lot
    ensures x * lot / lot == x
  {
    DivisionIsUnique(lot, x * lot / lot, x * lot % lot, x, 0);
  }

  function DarkTable(cfg: RouterConfig, exp: real -> real, v: VenueState, width: nat, litRow: Row): (r: Row)
    requires 1 <= cfg.lotSize && |litRow| == width
    ensures |r| == width
  {
    seq(width, x requires 0 <= x < width =>
      LotsFit(cfg.lotSize, x);
      DarkCost(cfg, exp, v, x * cfg.lotSize, litRow))
  }

  function LitTables(cfg: RouterConfig, venues: seq<VenueState>, width: nat, top: real): (r: seq<Row>)
    ensures |r| == |Positions(venues, LIT)| && Tables(r, width)
  {
    var lit := Positions(venues, LIT);
    seq(|lit|, k requires 0 <= k < |lit| => LitTable(cfg, venues[lit[k]], width, top))
  }

  function DarkTables(cfg: RouterConfig, exp: real -> real, venues: seq<VenueState>, width: nat,
                      litRow: Row): (r: seq<Row>)
    requires 1 <= cfg.lotSize && |litRow| == width
    ensures |r| == |Positions(venues, DARK)| && Tables(r, width)
  {
    var dark := Positions(venues, DARK);
    seq(|dark|, k requires 0 <= k < |dark| => DarkTable(cfg, exp, venues[dark[k]], width, litRow))
  }

  // The finished lit row: the least cost of every number of lots on the lit venues alone.
  function LitRow(cfg: RouterConfig, venues: seq<VenueState>, width: nat, top: real): (r: Row)
    requires 0 < width
    ensures |r| == width
  {
    DpRow(LitTables(cfg, venues, width, top), width, top)
  }

  function AllTables(cfg: RouterConfig, exp: real -> real, venues: seq<VenueState>, width: nat,
                     top: real): (r: seq<Row>)
    requires 1 <= cfg.lotSize && 0 < width
    ensures |r| == |VenueOrder(venues)| && Tables(r, width)
  {
    LitTables(cfg, venues, width, top) + DarkTables(cfg, exp, venues, width, LitRow(cfg, venues, width, top))
  }

  // The first venue, in order, with the least cost below the top.
  function Cheapest(costs: seq<real>, top: real): (r: (real, int))
    ensures -1 <= r.1 < |costs|
  {
    if costs == [] then (top, -1)
    else
      var (best, k) := Cheapest(costs[..|costs| - 1], top);
      if costs[|costs| - 1] < best then (costs[|costs| - 1], |costs| - 1) else (best, k)
  }

  lemma {:induction false} CheapestIsLeast(costs: seq<real>, top: real)
    ensures var (best, k) := Cheapest(costs, top);
            && best <= top && (forall j | 0 <= j < |costs| :: best <= costs[j])
            && (k == -1 <==> best == top)
            && (k != -1 ==> costs[k] == best && forall j | 0 <= j < k :: best < costs[j])
  {
    if costs != [] { CheapestIsLeast(costs[..|costs| - 1], top); }
  }

  // What sending the odd lot would cost at each venue.
  function OddLotCosts(cfg: RouterConfig, exp: real -> real, venues: seq<VenueState>, width: nat, top: real,
                       remainder: int): (r: seq<real>)
    requires 1 <= cfg.lotSize && 0 < width && 0 <= remainder < cfg.lotSize
    ensures |r| == |VenueOrder(venues)|
  {
    var order, litRow := VenueOrder(venues), LitRow(cfg, venues, width, top);
    assert remainder / cfg.lotSize == 0;
    seq(|order|, k requires 0 <= k < |order| =>
      var v := venues[order[k]];
      if v.kind == LIT then LitCost(cfg, v, remainder, Visible(v), top) else DarkCost(cfg, exp, v, remainder, litRow))
  }

  function Total(a: seq<int>): int {
    if a == [] then 0 else Total(a[..|a| - 1]) + a[|a| - 1]
  }

  // The venue that takes the odd lot, as a position in the order, or -1.
  function OddLotPick(cfg: RouterConfig, exp: real -> real, venues: seq<VenueState>, width: nat, top: real,
                      remainder: int): (k: int)
    requires 1 <= cfg.lotSize && 0 < width && 0 <= remainder < cfg.lotSize
    ensures -1 <= k < |VenueOrder(venues)|
  {
    if remainder == 0 then -1 else Cheapest(OddLotCosts(cfg, exp, venues, width, top, remainder), top).1
  }

  // The engine's answer: the last cell of the table, its allocation, and the odd lot on top of it.
  ghost predicate IsOptimalSplit(cfg: RouterConfig, exp: real -> real, top: real, totalSize: nat,
                                 venues: seq<VenueState>, result: SplitResult)
    requires 1 <= cfg.lotSize
  {
    NumLots(totalSize, cfg.lotSize);
    var n := totalSize / cfg.lotSize;
    var tables, order := AllTables(cfg, exp, venues, n + 1, top), VenueOrder(venues);
    var lots := Backtrack(tables, n + 1, top, n);
    var pick := OddLotPick(cfg, exp, venues, n + 1, top, totalSize % cfg.lotSize);
    && |result.allocations| == |venues|
    && result.expectedCost == DpRow(tables, n + 1, top)[n]
    && forall k | 0 <= k < |order| ::
         result.allocations[order[k]] == lots[k] * cfg.lotSize + if k == pick then totalSize % cfg.lotSize else 0
  }

  lemma NumLots(total: int, lot: int)
    requires 0 <= total && 1 <= lot
    ensures 0 <= total / lot && 0 <= total % lot < lot && total == total / lot * lot + total % lot
  {}

  // Positions of venues of one kind: in ascending order, and all of them.
  ghost predicate AllOfKind(venues: seq<VenueState>, kind: VenueKind, r: seq<nat>) {
    && (forall k | 0 <= k < |r| :: r[k] < |venues| && venues[r[k]].kind == kind)
    && (forall j, k | 0 <= j < k < |r| :: r[j] < r[k])
    && (forall i: nat | i < |venues| && venues[i].kind == kind :: i in r)
  }

  lemma AllOfKindStep(venues: seq<VenueState>, kind: VenueKind, r: seq<nat>, v: VenueState)
    requires AllOfKind(venues, kind, r)
    ensures AllOfKind(venues + [v], kind, if v.kind == kind then r + [|venues|] else r)
  {
    var more := if v.kind == kind then r + [|venues|] else r;
    forall i: nat | i < |venues| + 1 && (venues + [v])[i].kind == kind ensures i in more {
      if i == |venues| {
        assert more[|r|] == i;
      } else {
        assert i in r;
      }
    }
  }

  lemma {:induction false} PositionsArePartition(venues: seq<VenueState>, kind: VenueKind)
    ensures AllOfKind(venues, kind, Positions(venues, kind))
  {
    if venues != [] {
      hide AllOfKind;
      var n := |venues| - 1;
      PositionsArePartition(venues[..n], kind);
      AllOfKindStep(venues[..n], kind, Positions(venues[..n], kind), venues[n]);
      assert venues[..n] + [venues[n]] == venues;
    } else {
      assert AllOfKind(venues, kind, []);
    }
  }

  // The order lists every venue exactly once.
  lemma OrderIsPermutation(venues: seq<VenueState>)
    ensures var r := VenueOrder(venues);
            && (forall j, k | 0 <= j < k < |r| :: r[j] != r[k])
            && (forall i | 0 <= i < |venues| :: i in r)
  {
    PositionsArePartition(venues, LIT);
    PositionsArePartition(venues, DARK);
    var lit, dark := Positions(venues, LIT), Positions(venues, DARK);
    forall i | 0 <= i < |venues| ensures i in VenueOrder(venues) {
      assert i in lit || i in dark;
    }
  }
}
