/** What a stream of published level changes says about a book: the quantity at every price, and, from
    the best prices it implies, where the ladder windows stand.  */
module Deltas {
  import opened Ladder
  import opened MarketTypes
  import opened OrderedKeys
  import opened Scans
  import opened Snapshots
  import opened Totals

  datatype Window = Window(lower: int, best: int)

  datatype SideView = SideView(window: Window, quantities: map<int, int>)

  datatype BookView = BookView(bids: SideView, asks: SideView) {
    function Of(side: Side): SideView {
      if side == BUY then bids else asks
    }

    function With(side: Side, v: SideView): BookView {
      if side == BUY then this.(bids := v) else this.(asks := v)
    }

    function Quotes(): (map<int, int>, map<int, int>) {
      (bids.quantities, asks.quantities)
    }
  }

  const EMPTY_VIEW := BookView(SideView(Window(0, NO_BID), map[]), SideView(Window(0, NO_ASK), map[]))

  // The window once the best level is gone and `prices` are left.
  ghost function AfterBest(side: Side, w: Window, prices: set<int>): Window {
    var best := NextBest(side, w.lower, w.best, prices);
    Window(SlidAfterRemoval(side, w.lower, best), best)
  }

  // The window once there is a level at `price`.
  function AfterLevel(side: Side, w: Window, price: int): Window {
    var best := if Better(side, price, w.best) then price else w.best;
    Window(SlidAfterAdd(side, w.lower, w.best, best), best)
  }

  // The window after a new level, in numbers: the best price is the better of the two, and only a better one moves the
  // window, to 25 ticks in front of it.
  lemma WindowAfterLevel(side: Side, w: Window, price: int)
    ensures var now := AfterLevel(side, w, price);
            && now.best == (if side == BUY then if price > w.best then price else w.best
                            else if price < w.best then price else w.best)
            && now.lower == (if now.best == w.best then w.lower
                             else if side == BUY then if price <= w.lower + 230 then w.lower else price - 230
                             else if w.lower + 25 <= price then w.lower else price - 25)
  {
    AdditionWindow(side, w.lower, w.best, AfterLevel(side, w, price).best);
  }

  // ... and after the best level is gone.
  lemma WindowAfterBest(side: Side, w: Window, prices: set<int>)
    ensures var now := AfterBest(side, w, prices);
            if now.best == Sentinel(side) then now.lower == w.lower
            else if side == BUY then
              now.lower == if w.lower + 50 <= now.best <= w.lower + 230 then w.lower else now.best - 230
            else
              now.lower == if w.lower + 25 <= now.best <= w.lower + 205 then w.lower else now.best - 25
  {
    var best := AfterBest(side, w, prices).best;
    if best != Sentinel(side) { RemovalWindow(side, w.lower, best); }
  }

  // One level change as a mirror takes it in: the quantity is replaced, zero removes the level.
  ghost function DeliverSide(side: Side, v: SideView, price: int, quantity: int): SideView {
    if quantity == 0 then
      var rest := v.quantities - {price};
      SideView(if price == v.window.best then AfterBest(side, v.window, rest.Keys) else v.window, rest)
    else
      SideView(AfterLevel(side, v.window, price), v.quantities[price := quantity])
  }

  lemma DeliveredWindow(side: Side, v: SideView, price: int, quantity: int)
    requires quantity != 0
    ensures DeliverSide(side, v, price, quantity).window == AfterLevel(side, v.window, price)
  {}

  // One change of a standing level as the venue makes it: only a removal moves the best price.
  ghost function StoreSide(side: Side, v: SideView, price: int, quantity: int): SideView {
    if quantity == 0 then DeliverSide(side, v, price, 0) else SideView(v.window, v.quantities[price := quantity])
  }

  // A change the venue's best price does not follow and a mirror's does: one that leaves something at a
  // level better than the best price.
  predicate Silent(side: Side, w: Window, price: int, quantity: int) {
    quantity != 0 && Better(side, price, w.best)
  }

  lemma SilentDiffers(side: Side, v: SideView, price: int, quantity: int)
    ensures StoreSide(side, v, price, quantity) == DeliverSide(side, v, price, quantity) <==>
            !Silent(side, v.window, price, quantity)
    ensures StoreSide(side, v, price, quantity).quantities == DeliverSide(side, v, price, quantity).quantities
  {}

  ghost function Deliver(v: BookView, d: Delta): BookView {
    v.With(d.side, DeliverSide(d.side, v.Of(d.side), d.price, d.quantity))
  }

  ghost function DeliverAll(history: seq<Delta>): BookView {
    if history == [] then EMPTY_VIEW
    else Deliver(DeliverAll(history[..|history| - 1]), history[|history| - 1])
  }

  // No two levels of a side are 193 to 255 ticks apart.
  ghost predicate Separated(prices: set<int>) {
    forall p, q | p in prices && q in prices :: !(193 <= q - p <= 255)
  }

  // ... at any moment of a history.
  ghost predicate SeparatedRun(history: seq<Delta>) {
    forall i | 0 <= i <= |history| :: SeparatedView(DeliverAll(history[..i]))
  }

  ghost predicate SeparatedView(v: BookView) {
    Separated(v.bids.quantities.Keys) && Separated(v.asks.quantities.Keys)
  }

  ghost predicate LegalDelta(d: Delta) {
    0 < d.price < PRICE_LIMIT && 0 <= d.quantity
  }

  lemma Append(history: seq<Delta>, d: Delta)
    ensures DeliverAll(history + [d]) == Deliver(DeliverAll(history), d)
    ensures SeparatedRun(history + [d]) ==> SeparatedRun(history)
    ensures SeparatedRun(history) ==> SeparatedView(DeliverAll(history))
  {
    var h := history + [d];
    assert h[..|history|] == history && history[..|history|] == history;
    if SeparatedRun(h) {
      forall i | 0 <= i <= |history| ensures SeparatedView(DeliverAll(history[..i])) {
        assert h[..i] == history[..i];
      }
    }
  }

  // Levels a history leaves behind have positive quantities.
  lemma {:induction false} DeliveredPositive(history: seq<Delta>)
    requires LegalHistory(history)
    ensures Positive(DeliverAll(history).bids.quantities) && Positive(DeliverAll(history).asks.quantities)
  {
    if history != [] {
      var n := |history| - 1;
      DeliveredPositive(history[..n]);
      assert LegalDelta(history[n]);
    }
  }

  // Removals and changes of standing levels never end the separation; a new level ends it exactly when a
  // level of its side stands 193 to 255 ticks away.
  lemma SeparationGrows(history: seq<Delta>, d: Delta)
    requires SeparatedRun(history)
    ensures SeparatedRun(history + [d]) <==>
              d.quantity == 0 || forall q | q in DeliverAll(history).Of(d.side).quantities ::
                  !(193 <= q - d.price <= 255) && !(193 <= d.price - q <= 255)
  {
    var v, h := DeliverAll(history), history + [d];
    var m := v.Of(d.side).quantities;
    Append(history, d);
    assert h[..|h|] == h;
    assert SeparatedView(DeliverAll(h)) <==> Separated(Deliver(v, d).Of(d.side).quantities.Keys);
    KeysAfter(m, d);
    if SeparatedView(DeliverAll(h)) {
      forall i | 0 <= i <= |h| ensures SeparatedView(DeliverAll(h[..i])) {
        assert i <= |history| ==> h[..i] == history[..i];
      }
    }
  }

  lemma KeysAfter(m: map<int, int>, d: Delta)
    requires Separated(m.Keys)
    ensures d.quantity == 0 ==> Separated((m - {d.price}).Keys)
    ensures Separated(m[d.price := d.quantity].Keys) <==>
              forall q | q in m :: !(193 <= q - d.price <= 255) && !(193 <= d.price - q <= 255)
  {
    var keys := m[d.price := d.quantity].Keys;
    assert d.price in keys;
    forall q | q in m ensures q in keys {}
  }

  // A separated side hides nothing from the scan or from the liquidity walk.
  lemma SeparatedSuffices(side: Side, lower: int, best: int, prices: set<int>, worst: int)
    requires Separated(prices + {best}) && IsBest(side, best, prices + {best})
    requires if side == SELL then lower <= best else best <= lower + 255
    ensures Reaches(side, lower, best, prices) && Unobstructed(side, lower, best, prices, worst)
  {
    forall q | q in prices && lower <= q <= lower + 255 ensures !AtLeast(side, best, 4, q) {
      assert q in prices + {best} && best in prices + {best};
    }
  }

  lemma SeparatedIsStraight(side: Side, lower: int, best: int, prices: set<int>)
    requires Separated(prices) && IsBest(side, best, prices)
    requires prices == {} || if side == SELL then lower <= best else best <= lower + 255
    ensures Straight(side, lower, best, prices)
  {
    forall q | q in prices && lower <= q <= lower + 255 ensures !AtLeast(side, best, 4, q) {
      assert q == best || Better(side, best, q);
    }
  }

  lemma SeparatedNow(history: seq<Delta>)
    requires SeparatedRun(history)
    ensures SeparatedView(DeliverAll(history))
  {
    assert history[..|history|] == history;
  }

  lemma AddedLevel(levels: Levels, v: PriceLevel)
    ensures Quantities(levels[v.price := v]) == Quantities(levels)[v.price := v.quantity]
  {}

  lemma ErasedLevel(levels: Levels, p: int)
    ensures Quantities(levels - {p}) == Quantities(levels) - {p}
  {}

  // The best price of the view is the extremal one.
  ghost predicate ExactSide(side: Side, v: SideView) {
    IsBest(side, v.window.best, v.quantities.Keys)
  }

  ghost predicate LegalHistory(history: seq<Delta>) {
    forall i | 0 <= i < |history| :: LegalDelta(history[i])
  }

  // The window has not run past its best price.
  ghost predicate Placed(side: Side, v: SideView) {
    v.quantities.Keys == {} ||
    if side == SELL then v.window.lower <= v.window.best else v.window.best <= v.window.lower + 255
  }

  // A side on which the scan, the liquidity walk and the snapshot see everything.
  ghost predicate Plain(side: Side, v: SideView) {
    ExactSide(side, v) && Placed(side, v) && Separated(v.quantities.Keys) && Legal(v.quantities.Keys)
  }

  // The liquidity walk of a side meets no level worse than `worst` too early.
  ghost predicate Shown(side: Side, v: SideView, worst: int) {
    Unobstructed(side, v.window.lower, v.window.best, v.quantities.Keys, worst)
  }

  lemma PlainShows(side: Side, v: SideView, worst: int)
    requires Plain(side, v)
    ensures Shown(side, v, worst)
  {
    var keys := v.quantities.Keys;
    if keys != {} {
      assert keys + {v.window.best} == keys;
      SeparatedSuffices(side, v.window.lower, v.window.best, keys, worst);
    }
  }

  // Removing the best level of a plain side leaves it plain, with the best of the other levels.
  lemma RemovalKeepsPlain(side: Side, v: SideView)
    requires Plain(side, v) && v.window.best in v.quantities
    ensures Plain(side, DeliverSide(side, v, v.window.best, 0))
  {
    var w, rest := v.window, (v.quantities - {v.window.best}).Keys;
    assert rest + {w.best} == v.quantities.Keys;
    SeparatedSuffices(side, w.lower, w.best, rest, w.best);
    NextBestVerdict(side, w.lower, w.best, rest);
  }

  // A change of a standing level leaves a plain side plain.
  lemma StoreKeepsPlain(side: Side, v: SideView, price: int, quantity: int)
    requires price in v.quantities
    ensures Plain(side, v) ==> Plain(side, StoreSide(side, v, price, quantity))
  {
    if Plain(side, v) {
      if quantity == 0 {
        assert (v.quantities - {price}).Keys <= v.quantities.Keys;
        DeliveryKeepsPlain(side, v, price, 0);
      } else {
        assert v.quantities[price := quantity].Keys == v.quantities.Keys;
      }
    }
  }

  // A plain side stays plain through every level change, as long as its levels stay separated.
  lemma DeliveryKeepsPlain(side: Side, v: SideView, price: int, quantity: int)
    requires Plain(side, v) && 0 < price < PRICE_LIMIT
    requires Separated(DeliverSide(side, v, price, quantity).quantities.Keys)
    ensures Plain(side, DeliverSide(side, v, price, quantity))
  {
    if quantity == 0 {
      if price == v.window.best {
        if price in v.quantities { RemovalKeepsPlain(side, v); }
      } else {
        var rest := (v.quantities - {price}).Keys;
        if v.window.best !in rest {
          forall q | q in rest ensures false {}
          assert rest == {};
        }
      }
    } else {
      var keys, w := v.quantities[price := quantity].Keys, AfterLevel(side, v.window, price);
      assert price in keys && (v.quantities.Keys == {} ==> w.best == price);
      forall q | q in keys ensures q == w.best || Better(side, w.best, q) {
        assert q == price || q in v.quantities.Keys;
      }
    }
  }

  // A separated history leaves both sides plain.
  lemma {:induction false} SeparatedIsPlain(history: seq<Delta>)
    requires LegalHistory(history) && SeparatedRun(history)
    ensures Plain(BUY, DeliverAll(history).bids) && Plain(SELL, DeliverAll(history).asks)
  {
    if history == [] {
      var nothing: map<int, int> := map[];
      assert nothing.Keys == {};
    } else {
      var n := |history| - 1;
      var d := history[n];
      assert history[..n] + [d] == history && LegalDelta(d);
      Append(history[..n], d);
      SeparatedIsPlain(history[..n]);
      SeparatedNow(history);
      DeliveryKeepsPlain(d.side, DeliverAll(history[..n]).Of(d.side), d.price, d.quantity);
    }
  }

  // The quantities are those of the history; while the book is in step with it, so are best prices and
  // windows; and it falls out of step only if the history did not stay separated.
  ghost predicate Tracks(v: BookView, history: seq<Delta>, inStep: bool) {
    && LegalHistory(history)
    && v.Quotes() == DeliverAll(history).Quotes()
    && (inStep ==> v == DeliverAll(history))
    && (SeparatedRun(history) ==> inStep)
  }

  // A mirror's step keeps it in step.
  lemma DeliverTracks(v: BookView, history: seq<Delta>, inStep: bool, d: Delta)
    requires Tracks(v, history, inStep) && LegalDelta(d)
    ensures Tracks(Deliver(v, d), history + [d], inStep)
    ensures inStep ==> Deliver(v, d) == DeliverAll(history + [d])
  {
    Append(history, d);
  }

  // A venue's step to a standing level keeps it in step exactly when it is not silent.
  lemma StoreTracks(v: BookView, history: seq<Delta>, inStep: bool, d: Delta)
    requires Tracks(v, history, inStep) && LegalDelta(d) && d.price in v.Of(d.side).quantities
    ensures var v' := v.With(d.side, StoreSide(d.side, v.Of(d.side), d.price, d.quantity));
            var still := inStep && !Silent(d.side, v.Of(d.side).window, d.price, d.quantity);
            && Tracks(v', history + [d], still)
            && (inStep ==> (v' == DeliverAll(history + [d]) <==> still))
  {
    Append(history, d);
    SilentDiffers(d.side, v.Of(d.side), d.price, d.quantity);
    if SeparatedRun(history + [d]) { SeparatedIsPlain(history); }
  }
}
