/** When the sweep that the book performs is the one of the price-time book, exactly: as long as something is wanted and
    some level is within the limit, the book's best price must be the extremal one.  */
module Sightings {
  import opened BookLaws
  import opened Deltas
  import opened Ladder
  import opened LadderSweeps
  import opened Liquidities
  import opened MarketTypes
  import opened OrderIds
  import opened OrderedKeys
  import opened PriceTimeBook
  import opened Scans
  import opened Totals

  ghost predicate NoneAdmitted(side: Side, kind: OrderType, limit: int, prices: set<int>) {
    forall p | p in prices :: !Admits(side, kind, limit, p)
  }

  // The order never looks for its next level in vain: wherever it goes on, the best price is the extremal one.
  ghost predicate InSight(side: Side, kind: OrderType, limit: int, w: Window, qs: Queues, want: int)
    decreases |qs|
  {
    want <= 0 || NoneAdmitted(side, kind, limit, qs.Keys) ||
    (IsBest(Opposite(side), w.best, qs.Keys) && w.best in qs &&
     var (q, rest) := MatchQueue(qs[w.best], want);
     var left := qs - {w.best};
     q != [] || InSight(side, kind, limit, AfterBest(Opposite(side), w, left.Keys), left, rest))
  }

  // The sweeps agree exactly then; otherwise already their fills differ.
  lemma {:induction false} SweepExactly(side: Side, kind: OrderType, limit: int, w: Window, qs: Queues, want: int)
    requires Sound(qs)
    ensures var here, there := LadderSweep(side, kind, limit, w, qs, want), Sweep(side, kind, limit, qs, want);
            if InSight(side, kind, limit, w, qs, want) then here == there else here.fills != there.fills
    decreases |qs|
  {
    hide LadderSweep, Sweep, LadderWindow, First, AfterBest, MatchQueue;
    var t := Opposite(side);
    if want <= 0 || NoneAdmitted(side, kind, limit, qs.Keys) {
      LadderEnds(side, kind, limit, w, qs, want);
      SweepEnds(side, kind, limit, qs, want);
    } else {
      FirstIsAdmitted(side, kind, limit, qs.Keys);
      var p := First(t, qs.Keys).value;
      var (q, rest) := MatchQueue(qs[p], want);
      SweepStep(side, kind, limit, qs, want, p, q, rest);
      assert IsBest(t, w.best, qs.Keys) <==> w.best == p;
      if w.best == p {
        var left := qs - {p};
        LadderTrades(side, kind, limit, w, qs, want, q, rest);
        if q == [] {
          var w' := AfterBest(t, w, left.Keys);
          SweepExactly(side, kind, limit, w', left, rest);
          TailsDiffer(Fill(-1, want - rest, p), LadderSweep(side, kind, limit, w', left, rest).fills,
                      Sweep(side, kind, limit, left, rest).fills);
        } else {
          MatchLeft(qs[p], want);
          LadderEnds(side, kind, limit, w, WithQueue(qs, p, q), rest);
          SweepEnds(side, kind, limit, WithQueue(qs, p, q), rest);
        }
      } else if w.best in qs && Admits(side, kind, limit, w.best) {
        var (q', rest') := MatchQueue(qs[w.best], want);
        LadderTrades(side, kind, limit, w, qs, want, q', rest');
        assert LadderSweep(side, kind, limit, w, qs, want).fills[0].price == w.best;
        assert Sweep(side, kind, limit, qs, want).fills[0].price == p;
      } else {
        LadderEnds(side, kind, limit, w, qs, want);
      }
    }
  }

  lemma TailsDiffer(fill: Fill, a: seq<Fill>, b: seq<Fill>)
    ensures [fill] + a == [fill] + b ==> a == b
  {
    if [fill] + a == [fill] + b {
      assert ([fill] + a)[1..] == a && ([fill] + b)[1..] == b;
    }
  }

  lemma FirstIsAdmitted(side: Side, kind: OrderType, limit: int, prices: set<int>)
    requires !NoneAdmitted(side, kind, limit, prices)
    ensures prices != {} && Admits(side, kind, limit, First(Opposite(side), prices).value)
  {}

  // ---- On an exact side: the scan must reach ----

  // The best price is the extremal one, and the window has not run past it.
  ghost predicate Faced(side: Side, v: SideView) {
    ExactSide(side, v) && Placed(side, v) && Legal(v.quantities.Keys)
  }

  // Whenever the order empties its level and goes on to an admissible one, the scan reaches the next level.
  ghost predicate Sighted(side: Side, kind: OrderType, limit: int, w: Window, qs: Queues, want: int)
    decreases |qs|
  {
    want <= 0 || w.best !in qs || !Admits(side, kind, limit, w.best) ||
    var (q, rest) := MatchQueue(qs[w.best], want);
    var left := qs - {w.best};
    || q != [] || rest <= 0 || NoneAdmitted(side, kind, limit, left.Keys)
    || (Reaches(Opposite(side), w.lower, w.best, left.Keys)
        && Sighted(side, kind, limit, AfterBest(Opposite(side), w, left.Keys), left, rest))
  }

  // The scan reaches exactly if it leaves the side exact.
  lemma ReachesExactly(t: Side, w: Window, qs: Queues)
    requires Faced(t, SideOf(w, qs)) && w.best in qs
    ensures var left := qs - {w.best};
            Reaches(t, w.lower, w.best, left.Keys) <==> Faced(t, SideOf(AfterBest(t, w, left.Keys), left))
  {
    var left := qs - {w.best};
    NextBestVerdict(t, w.lower, w.best, left.Keys);
  }

  lemma {:induction false} SightedExactly(side: Side, kind: OrderType, limit: int, w: Window, qs: Queues, want: int)
    requires Faced(Opposite(side), SideOf(w, qs))
    ensures Sighted(side, kind, limit, w, qs, want) <==> InSight(side, kind, limit, w, qs, want)
    decreases |qs|
  {
    var t := Opposite(side);
    if 0 < want && w.best in qs && Admits(side, kind, limit, w.best) {
      var (q, rest) := MatchQueue(qs[w.best], want);
      var left := qs - {w.best};
      if q == [] && 0 < rest && !NoneAdmitted(side, kind, limit, left.Keys) {
        ReachesExactly(t, w, qs);
        if Reaches(t, w.lower, w.best, left.Keys) {
          SightedExactly(side, kind, limit, AfterBest(t, w, left.Keys), left, rest);
        }
      }
    }
  }

  // ---- How far the sweep gets ----

  // Everything on the ladder's own chain of admissible best prices.
  ghost function LadderReach(side: Side, kind: OrderType, limit: int, w: Window, qs: Queues): int
    decreases |qs|
  {
    if w.best !in qs || !Admits(side, kind, limit, w.best) then 0
    else
      var left := qs - {w.best};
      Sum(qs[w.best]) + LadderReach(side, kind, limit, AfterBest(Opposite(side), w, left.Keys), left)
  }

  // On any sound levels the sweep takes the lesser of what is wanted and that.
  lemma {:induction false} WantLeft(side: Side, kind: OrderType, limit: int, w: Window, qs: Queues, want: int)
    requires Sound(qs) && 0 <= want
    ensures LadderSweep(side, kind, limit, w, qs, want).want == Max0(want - LadderReach(side, kind, limit, w, qs))
    decreases |qs|
  {
    hide LadderSweep, LadderWindow, AfterBest, MatchQueue, Sum;
    if 0 < want && w.best in qs && Admits(side, kind, limit, w.best) {
      var (q, rest) := MatchQueue(qs[w.best], want);
      var left := qs - {w.best};
      var w' := AfterBest(Opposite(side), w, left.Keys);
      MatchAmount(qs[w.best], want);
      LadderTrades(side, kind, limit, w, qs, want, q, rest);
      ReachNonnegative(side, kind, limit, w', left);
      if q == [] {
        WantLeft(side, kind, limit, w', left, rest);
      } else {
        LadderEnds(side, kind, limit, w, WithQueue(qs, w.best, q), rest);
      }
    } else {
      LadderEnds(side, kind, limit, w, qs, want);
      ReachNonnegative(side, kind, limit, w, qs);
    }
  }

  lemma {:induction false} ReachNonnegative(side: Side, kind: OrderType, limit: int, w: Window, qs: Queues)
    requires Sound(qs)
    ensures 0 <= LadderReach(side, kind, limit, w, qs)
    decreases |qs|
  {
    if w.best in qs {
      hide AfterBest;
      var left := qs - {w.best};
      Nonnegative(qs[w.best]);
      ReachNonnegative(side, kind, limit, AfterBest(Opposite(side), w, left.Keys), left);
    }
  }

  // ---- Whole orders ----

  ghost function OrderReach(lb: LadderBook, side: Side, kind: OrderType, price: int): int {
    LadderReach(side, kind, price, lb.WindowOf(Opposite(side)), lb.book.Of(Opposite(side)))
  }

  // What an order fills, on any sound book.
  lemma FillsExactly(lb: LadderBook, side: Side, kind: OrderType, price: int, quantity: int)
    requires Sound(lb.book.bids) && Sound(lb.book.asks) && 0 <= quantity
    ensures 0 <= OrderReach(lb, side, kind, price)
    ensures FillTotal(LadderOrder(lb, side, kind, price, quantity).1) ==
            if Passes(lb, side, kind, price, quantity) then Least(quantity, OrderReach(lb, side, kind, price)) else 0
  {
    hide LadderSweep, LadderReach, Volume, SeenDepth;
    SubmitLaws(lb, side, kind, price, quantity);
    WantLeft(side, kind, price, lb.WindowOf(Opposite(side)), lb.book.Of(Opposite(side)), quantity);
    ReachNonnegative(side, kind, price, lb.WindowOf(Opposite(side)), lb.book.Of(Opposite(side)));
  }

  // A fill-or-kill order is all or nothing exactly if it is refused, or the ladder's chain is long enough or empty.
  lemma FillOrKillExactly(lb: LadderBook, side: Side, price: int, quantity: int)
    requires Sound(lb.book.bids) && Sound(lb.book.asks) && 0 <= quantity
    ensures var t, filled := Opposite(side), FillTotal(LadderOrder(lb, side, FOK, price, quantity).1);
            var v, reach := lb.Shows(t), OrderReach(lb, side, FOK, price);
            && (filled in {0, quantity} <==> SeenDepth(t, v, price) < quantity || quantity <= reach || reach == 0)
            && (Faced(t, v) && Shown(t, v, price) ==>
                  (filled in {0, quantity} <==> Depth(t, v.quantities, price) < quantity || quantity <= reach))
  {
    hide LadderOrder, Found, Eligible, Unobstructed;
    var t := Opposite(side);
    var v := lb.Shows(t);
    FillsExactly(lb, side, FOK, price, quantity);
    if Faced(t, v) && Shown(t, v, price) {
      SoundIsPositive(lb.book.Of(t));
      FoundExactly(t, v.window.lower, v.window.best, v.quantities, price);
      if OrderReach(lb, side, FOK, price) == 0 { NothingInReach(lb, side, price); }
    }
  }

  // On an exact side, an empty chain means that nothing stands within the limit.
  lemma NothingInReach(lb: LadderBook, side: Side, price: int)
    requires Sound(lb.book.Of(Opposite(side))) && Faced(Opposite(side), lb.Shows(Opposite(side)))
    requires OrderReach(lb, side, FOK, price) == 0
    ensures Depth(Opposite(side), lb.Shows(Opposite(side)).quantities, price) == 0
  {
    var t := Opposite(side);
    var w, qs := lb.WindowOf(t), lb.book.Of(t);
    if w.best in qs && Admits(side, FOK, price, w.best) {
      var left := qs - {w.best};
      Nonnegative(qs[w.best]);
      ReachNonnegative(side, FOK, price, AfterBest(t, w, left.Keys), left);
    }
    forall p | p in Eligible(t, Sums(qs), price) ensures false {}
    assert Eligible(t, Sums(qs), price) == {};
  }

  // What the order asks of the book it meets: the fill-or-kill test must not refuse what could be filled, and an order
  // that is not refused must sweep in sight.
  ghost predicate OrderInSight(lb: LadderBook, side: Side, kind: OrderType, price: int, quantity: int) {
    var t := Opposite(side);
    if Passes(lb, side, kind, price, quantity) then InSight(side, kind, price, lb.WindowOf(t), lb.book.Of(t), quantity)
    else Depth(t, lb.Shows(t).quantities, price) < quantity
  }

  // An order gets what the price-time book says exactly then; otherwise already its fills differ.
  lemma OrderExactly(lb: LadderBook, side: Side, kind: OrderType, price: int, quantity: int)
    requires Sound(lb.book.bids) && Sound(lb.book.asks) && 0 <= quantity
    ensures var (lb', fills) := LadderOrder(lb, side, kind, price, quantity);
            var (b', fills') := Submitted(lb.book, side, kind, price, quantity);
            if OrderInSight(lb, side, kind, price, quantity) then (lb'.book, fills) == (b', fills') else fills != fills'
  {
    hide LadderSweep, LadderWindow, Sweep, InSight, Liquidity, Depth;
    var t := Opposite(side);
    var w, qs := lb.WindowOf(t), lb.book.Of(t);
    SoundIsPositive(qs);
    FoundIsEligible(t, w.lower, w.best, Sums(qs), price);
    if Passes(lb, side, kind, price, quantity) {
      SweepExactly(side, kind, price, w, qs, quantity);
      if !InSight(side, kind, price, w, qs, quantity) { FillsDiffer(lb, side, kind, price, quantity); }
    } else {
      FillOrKill(lb.book, side, price, quantity);
    }
  }

  // Sweeps with different fills make different reports.
  lemma FillsDiffer(lb: LadderBook, side: Side, kind: OrderType, price: int, quantity: int)
    requires Sound(lb.book.bids) && Sound(lb.book.asks) && 0 <= quantity
    requires var t := Opposite(side);
             LadderSweep(side, kind, price, lb.WindowOf(t), lb.book.Of(t), quantity).fills !=
             Sweep(side, kind, price, lb.book.Of(t), quantity).fills
    requires kind == FOK ==> quantity <= Depth(Opposite(side), Sums(lb.book.Of(Opposite(side))), price)
    ensures LadderSubmit(lb, side, kind, price, quantity).1 != Submitted(lb.book, side, kind, price, quantity).1
  {
    hide LadderSweep, LadderWindow, Sweep, Depth, Volume;
    var t := Opposite(side);
    var here := LadderSweep(side, kind, price, lb.WindowOf(t), lb.book.Of(t), quantity);
    var there := Sweep(side, kind, price, lb.book.Of(t), quantity);
    LadderBalance(side, kind, price, lb.WindowOf(t), lb.book.Of(t), quantity);
    SweepBalance(side, kind, price, lb.book.Of(t), quantity);
    var rest := [Fill(MakeId(side, price, lb.book.NextIndex()), 0, price)];
    FillTotalConcat(here.fills, rest);
    FillTotalConcat(there.fills, rest);
    StillDiffer(here.fills, there.fills, rest);
  }

  lemma StillDiffer(a: seq<Fill>, b: seq<Fill>, c: seq<Fill>)
    ensures a + c == b + c ==> a == b
  {
    if a + c == b + c {
      assert (a + c)[..|a|] == a && (b + c)[..|b|] == b;
    }
  }

  // ... on an exact side, in terms of what the scan reaches.
  ghost predicate OrderSighted(lb: LadderBook, side: Side, kind: OrderType, price: int, quantity: int) {
    var t := Opposite(side);
    if Passes(lb, side, kind, price, quantity) then Sighted(side, kind, price, lb.WindowOf(t), lb.book.Of(t), quantity)
    else Depth(t, lb.Shows(t).quantities, price) < quantity
  }

  // On an exact side in place the condition is one on what the scan reaches.
  lemma OrderSightedExactly(lb: LadderBook, side: Side, kind: OrderType, price: int, quantity: int)
    requires Faced(Opposite(side), lb.Shows(Opposite(side)))
    ensures OrderInSight(lb, side, kind, price, quantity) <==> OrderSighted(lb, side, kind, price, quantity)
  {
    hide Faced, InSight, Sighted, Depth, Passes;
    SightedExactly(side, kind, price, lb.WindowOf(Opposite(side)), lb.book.Of(Opposite(side)), quantity);
  }

  // On a plain side every order is in sight.
  lemma PlainInSight(lb: LadderBook, side: Side, kind: OrderType, price: int, quantity: int)
    requires PlainSide(lb, Opposite(side)) && Sound(lb.book.bids) && Sound(lb.book.asks) && 0 <= quantity
    ensures OrderInSight(lb, side, kind, price, quantity)
  {
    hide Plain, LadderOrder, Submitted, OrderInSight;
    PlainSubmit(lb, side, kind, price, quantity);
    OrderExactly(lb, side, kind, price, quantity);
  }

  // All of this at once, for the order (lb', fills) that was made of lb.
  lemma OrderAnswers(lb: LadderBook, side: Side, kind: OrderType, price: int, quantity: int)
    requires Sound(lb.book.bids) && Sound(lb.book.asks) && 0 <= quantity
    ensures var t, reach := Opposite(side), OrderReach(lb, side, kind, price);
            var (lb', fills) := LadderOrder(lb, side, kind, price, quantity);
            var right := (lb'.book, fills) == Submitted(lb.book, side, kind, price, quantity);
            && (right <==> OrderInSight(lb, side, kind, price, quantity))
            && (Faced(t, lb.Shows(t)) ==> (right <==> OrderSighted(lb, side, kind, price, quantity)))
            && (PlainSide(lb, t) ==> right)
            && FillTotal(fills) == (if Passes(lb, side, kind, price, quantity) then Least(quantity, reach) else 0)
            && (kind == FOK ==> (FillTotal(fills) in {0, quantity} <==>
                                 !Passes(lb, side, kind, price, quantity) || quantity <= reach || reach == 0))
            && (kind == FOK && Faced(t, lb.Shows(t)) && Shown(t, lb.Shows(t), price) ==>
                  (FillTotal(fills) in {0, quantity} <==>
                   Depth(t, lb.Shows(t).quantities, price) < quantity || quantity <= reach))
  {
    hide LadderOrder, Submitted, OrderInSight, OrderSighted, OrderReach, Faced, Shown, Depth, SeenDepth, Plain;
    OrderExactly(lb, side, kind, price, quantity);
    if Faced(Opposite(side), lb.Shows(Opposite(side))) { OrderSightedExactly(lb, side, kind, price, quantity); }
    if PlainSide(lb, Opposite(side)) { PlainInSight(lb, side, kind, price, quantity); }
    FillsExactly(lb, side, kind, price, quantity);
    if kind == FOK { FillOrKillExactly(lb, side, price, quantity); }
  }
}
