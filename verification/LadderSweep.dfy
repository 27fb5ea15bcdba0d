/** The sweep the book performs: level after level at the ladder's own best price, whatever the scan makes of it.
    On a plain side it is the sweep of the price-time book.  */
module LadderSweeps {
  import opened BookLaws
  import opened Deltas
  import opened Liquidities
  import opened MarketTypes
  import opened OrderIds
  import opened OrderedKeys
  import opened PriceTimeBook
  import opened Scans
  import opened Totals

  // An incoming order trading at the best price of the window until that is no level or not admissible.
  ghost function LadderSweep(side: Side, kind: OrderType, limit: int, w: Window, qs: Queues, want: int): Swept
    decreases |qs|
  {
    if want <= 0 || w.best !in qs || !Admits(side, kind, limit, w.best) then Swept(qs, want, [])
    else
      var (q, rest) := MatchQueue(qs[w.best], want);
      var fill := Fill(-1, want - rest, w.best);
      if q != [] then Swept(qs[w.best := q], rest, [fill])
      else
        var left := qs - {w.best};
        FirstThen(fill, LadderSweep(side, kind, limit, AfterBest(Opposite(side), w, left.Keys), left, rest))
  }

  // Where the window stands after that.
  ghost function LadderWindow(side: Side, kind: OrderType, limit: int, w: Window, qs: Queues, want: int): Window
    decreases |qs|
  {
    if want <= 0 || w.best !in qs || !Admits(side, kind, limit, w.best) then w
    else
      var (q, rest) := MatchQueue(qs[w.best], want);
      if q != [] then w
      else
        var left := qs - {w.best};
        LadderWindow(side, kind, limit, AfterBest(Opposite(side), w, left.Keys), left, rest)
  }

  // What one turn of the matching loop does: it trades `fill` and leaves w' and qs', or it ends.
  ghost predicate LadderTurn(side: Side, kind: OrderType, limit: int, w: Window, qs: Queues, want: int,
                             fill: Option<Fill>, w': Window, qs': Queues)
  {
    match fill
    case None => LadderSweep(side, kind, limit, w, qs, want) == Swept(qs', want, [])
      && w' == w == LadderWindow(side, kind, limit, w, qs, want)
    case Some(f) =>
      && LadderSweep(side, kind, limit, w, qs, want) ==
           FirstThen(f, LadderSweep(side, kind, limit, w', qs', want - f.quantity))
      && LadderWindow(side, kind, limit, w, qs, want) == LadderWindow(side, kind, limit, w', qs', want - f.quantity)
  }

  lemma LadderTrades(side: Side, kind: OrderType, limit: int, w: Window, qs: Queues, want: int, q: Queue, rest: int)
    requires 0 < want && w.best in qs && Admits(side, kind, limit, w.best)
    requires PositiveQueue(qs[w.best]) && MatchQueue(qs[w.best], want) == (q, rest)
    ensures var qs' := WithQueue(qs, w.best, q);
            LadderTurn(side, kind, limit, w, qs, want, Some(Fill(-1, want - rest, w.best)),
                       if q == [] then AfterBest(Opposite(side), w, qs'.Keys) else w, qs')
  {
    hide AfterBest, MatchQueue;
    MatchLeft(qs[w.best], want);
  }

  lemma LadderEnds(side: Side, kind: OrderType, limit: int, w: Window, qs: Queues, want: int)
    requires want <= 0 || w.best !in qs || !Admits(side, kind, limit, w.best)
    ensures LadderTurn(side, kind, limit, w, qs, want, None, w, qs)
  {}

  // The loop has traded `fills`, and what is left to do is the sweep from here.
  ghost predicate SweptSoFar(side: Side, kind: OrderType, limit: int, w0: Window, qs0: Queues, quantity: int,
                             w: Window, qs: Queues, want: int, fills: seq<Fill>)
  {
    var s := LadderSweep(side, kind, limit, w, qs, want);
    && LadderSweep(side, kind, limit, w0, qs0, quantity) == s.(fills := fills + s.fills)
    && LadderWindow(side, kind, limit, w0, qs0, quantity) == LadderWindow(side, kind, limit, w, qs, want)
  }

  lemma SweepStarts(side: Side, kind: OrderType, limit: int, w: Window, qs: Queues, quantity: int)
    ensures SweptSoFar(side, kind, limit, w, qs, quantity, w, qs, quantity, [])
  {
    var s := LadderSweep(side, kind, limit, w, qs, quantity);
    assert [] + s.fills == s.fills;
  }

  lemma SweepGoesOn(side: Side, kind: OrderType, limit: int, w0: Window, qs0: Queues, quantity: int,
                    w: Window, qs: Queues, want: int, fills: seq<Fill>, fill: Option<Fill>, w': Window, qs': Queues)
    requires SweptSoFar(side, kind, limit, w0, qs0, quantity, w, qs, want, fills)
    requires LadderTurn(side, kind, limit, w, qs, want, fill, w', qs')
    ensures match fill
            case None => SweepIs(side, kind, limit, w0, qs0, quantity, w', qs', want, fills)
            case Some(f) =>
              SweptSoFar(side, kind, limit, w0, qs0, quantity, w', qs', want - f.quantity, fills + [f])
  {
    hide LadderSweep, LadderWindow;
    match fill
    case None => assert fills + [] == fills;
    case Some(f) =>
      var s := LadderSweep(side, kind, limit, w', qs', want - f.quantity);
      assert fills + ([f] + s.fills) == fills + [f] + s.fills;
  }

  // The whole sweep leaves w, qs and `want`, and has traded `fills`.
  ghost predicate SweepIs(side: Side, kind: OrderType, limit: int, w0: Window, qs0: Queues, quantity: int,
                          w: Window, qs: Queues, want: int, fills: seq<Fill>)
  {
    && LadderSweep(side, kind, limit, w0, qs0, quantity) == Swept(qs, want, fills)
    && LadderWindow(side, kind, limit, w0, qs0, quantity) == w
  }

  // Each trade publishes what it leaves at its price.
  function Published(t: Side, fills: seq<Fill>, left: Queues): seq<Delta> {
    seq(|fills|, i requires 0 <= i < |fills| => Delta(t, fills[i].price, Sum(QueueAt(left, fills[i].price))))
  }

  // An order publishes its trades and, if the rest of it rests, the level it rests at.
  ghost function Publishes(b: Book, side: Side, kind: OrderType, price: int, quantity: int,
                           fills: seq<Fill>): seq<Delta>
  {
    var t := Opposite(side);
    if kind == LIMIT && FillTotal(fills) < quantity && fills != [] then
      Published(t, fills[..|fills| - 1], b.Of(t)) + [Delta(side, price, Sum(QueueAt(b.Of(side), price)))]
    else Published(t, fills, b.Of(t))
  }

  lemma PublishesNothing(b: Book, side: Side, kind: OrderType, price: int, quantity: int)
    ensures Publishes(b, side, kind, price, quantity, []) == []
  {}

  // One turn of the matching loop publishes its own trade, at a level that is gone unless the order is filled.
  ghost predicate TurnPublishes(t: Side, qs: Queues, want: int, fill: Option<Fill>, qs': Queues, before: seq<Delta>,
                                after: seq<Delta>)
  {
    match fill
    case None => after == before && qs' == qs
    case Some(f) =>
      && f.price in qs && qs'.Keys <= qs.Keys && (f.quantity < want ==> f.price !in qs')
      && (forall p | p in qs && p != f.price :: p in qs' && qs'[p] == qs[p])
      && after == before + Published(t, [f], qs')
  }

  // So far the trades have been published, and their levels are gone as long as something is wanted.
  ghost predicate AllPublished(t: Side, qs: Queues, want: int, fills: seq<Fill>, before: seq<Delta>,
                               after: seq<Delta>)
  {
    && after == before + Published(t, fills, qs)
    && (0 < want ==> forall i | 0 <= i < |fills| :: fills[i].price !in qs)
  }

  lemma PublishesNext(t: Side, qs: Queues, want: int, fills: seq<Fill>, fill: Option<Fill>, qs': Queues,
                      history: seq<Delta>, before: seq<Delta>, after: seq<Delta>)
    requires 0 < want && AllPublished(t, qs, want, fills, history, before)
    requires TurnPublishes(t, qs, want, fill, qs', before, after)
    ensures fill == None ==> AllPublished(t, qs', want, fills, history, after)
    ensures fill != None ==>
              AllPublished(t, qs', want - fill.value.quantity, fills + [fill.value], history, after)
  {
    if fill != None {
      var f := fill.value;
      forall i | 0 <= i < |fills| ensures QueueAt(qs', fills[i].price) == QueueAt(qs, fills[i].price) {
        assert fills[i].price !in qs && fills[i].price !in qs'.Keys;
      }
      assert Published(t, fills + [f], qs') == Published(t, fills, qs) + Published(t, [f], qs');
    }
  }

  lemma NonePublished(t: Side, qs: Queues, want: int, history: seq<Delta>)
    ensures AllPublished(t, qs, want, [], history, history)
  {}

  lemma ShowPublished(t: Side, qs: Queues, want: int, fills: seq<Fill>, before: seq<Delta>, after: seq<Delta>)
    requires AllPublished(t, qs, want, fills, before, after)
    ensures after == before + Published(t, fills, qs)
  {}

  lemma EndPublishes(t: Side, qs: Queues, want: int, history: seq<Delta>)
    ensures TurnPublishes(t, qs, want, None, qs, history, history)
  {}

  lemma TradePublishes(t: Side, qs: Queues, p: int, q: Queue, want: int, quantity: int, before: seq<Delta>)
    requires p in qs && quantity <= want && (q != [] ==> quantity == want)
    ensures TurnPublishes(t, qs, want, Some(Fill(-1, quantity, p)), WithQueue(qs, p, q), before,
                          before + [Delta(t, p, Sum(q))])
  {
    var qs' := WithQueue(qs, p, q);
    assert Published(t, [Fill(-1, quantity, p)], qs') == [Delta(t, p, Sum(q))];
  }

  // A side as its queues and its window show it.
  ghost function SideOf(w: Window, qs: Queues): SideView {
    SideView(w, Sums(qs))
  }

  // On a plain side the ladder's sweep is the price-time book's.
  lemma {:induction false} PlainSweep(side: Side, kind: OrderType, limit: int, w: Window, qs: Queues, want: int)
    requires Plain(Opposite(side), SideOf(w, qs))
    ensures LadderSweep(side, kind, limit, w, qs, want) == Sweep(side, kind, limit, qs, want)
    decreases |qs|
  {
    var t := Opposite(side);
    if qs == map[] {
      assert w.best !in qs;
    } else if want > 0 && Admits(side, kind, limit, w.best) {
      assert w.best in qs.Keys && First(t, qs.Keys) == Some(w.best);
      var (q, rest) := MatchQueue(qs[w.best], want);
      if q == [] {
        var left := qs - {w.best};
        WithoutBest(t, w, qs);
        PlainSweep(side, kind, limit, AfterBest(t, w, left.Keys), left, rest);
      }
    } else {
      assert First(t, qs.Keys) == Some(w.best);
    }
  }

  lemma WithoutBest(t: Side, w: Window, qs: Queues)
    requires Plain(t, SideOf(w, qs)) && w.best in qs
    ensures var left := qs - {w.best}; Plain(t, SideOf(AfterBest(t, w, left.Keys), left))
  {
    var left := qs - {w.best};
    assert Sums(left) == Sums(qs) - {w.best};
    RemovalKeepsPlain(t, SideOf(w, qs));
  }

  // Trading with the best level of a plain side leaves it plain.
  lemma {:induction false} SweepKeepsPlain(side: Side, kind: OrderType, limit: int, w: Window, qs: Queues, want: int)
    requires Plain(Opposite(side), SideOf(w, qs))
    ensures Plain(Opposite(side), SideOf(LadderWindow(side, kind, limit, w, qs, want),
                                         LadderSweep(side, kind, limit, w, qs, want).left))
    decreases |qs|
  {
    if want > 0 && w.best in qs && Admits(side, kind, limit, w.best) {
      var t := Opposite(side);
      var (q, rest) := MatchQueue(qs[w.best], want);
      if q == [] {
        var left := qs - {w.best};
        WithoutBest(t, w, qs);
        SweepKeepsPlain(side, kind, limit, AfterBest(t, w, left.Keys), left, rest);
      } else {
        assert qs[w.best := q].Keys == qs.Keys;
      }
    }
  }

  // Whatever the scan makes of the book, the sweep conserves quantity and reports trades.
  lemma {:induction false} LadderBalance(side: Side, kind: OrderType, limit: int, w: Window, qs: Queues, want: int)
    requires Sound(qs) && 0 <= want
    ensures var s := LadderSweep(side, kind, limit, w, qs, want);
            && 0 <= s.want <= want && FillTotal(s.fills) == want - s.want && Traded(s.fills)
            && Volume(s.left) == Volume(qs) - (want - s.want)
    decreases |qs|
  {
    if want > 0 && w.best in qs && Admits(side, kind, limit, w.best) {
      var (q, rest) := MatchQueue(qs[w.best], want);
      MatchLeft(qs[w.best], want);
      VolumeStep(qs, w.best, q);
      TradesSomething(qs[w.best], want);
      if q == [] {
        var left := qs - {w.best};
        LadderBalance(side, kind, limit, AfterBest(Opposite(side), w, left.Keys), left, rest);
      }
    }
  }

  lemma TradesSomething(q: Queue, want: int)
    requires PositiveQueue(q) && q != [] && 0 < want
    ensures MatchQueue(q, want).1 < want
  {
    if want >= q[0].quantity {
      assert forall i | 0 <= i < |q[1..]| :: q[1..][i] == q[i + 1];
      MatchLeft(q[1..], want - q[0].quantity);
    }
  }

  // What was traded at a price.
  function FilledAt(fills: seq<Fill>, p: int): int {
    if fills == [] then 0 else (if fills[0].price == p then fills[0].quantity else 0) + FilledAt(fills[1..], p)
  }

  lemma {:induction false} FilledAtConcat(a: seq<Fill>, b: seq<Fill>, p: int)
    ensures FilledAt(a + b, p) == FilledAt(a, p) + FilledAt(b, p)
  {
    if a == [] {
      assert a + b == b;
    } else {
      assert (a + b)[1..] == a[1..] + b;
      FilledAtConcat(a[1..], b, p);
    }
  }

  // On any levels, each one loses exactly what was traded at its price, and every trade is within the limit.
  lemma {:induction false} LadderTakes(side: Side, kind: OrderType, limit: int, w: Window, qs: Queues, want: int,
                                       p: int)
    requires Sound(qs) && 0 <= want
    ensures var s := LadderSweep(side, kind, limit, w, qs, want);
            && LevelSum(s.left, p) == LevelSum(qs, p) - FilledAt(s.fills, p)
            && forall i | 0 <= i < |s.fills| :: Admits(side, kind, limit, s.fills[i].price)
    decreases |qs|
  {
    hide LadderSweep, LadderWindow, AfterBest, MatchQueue;
    if 0 < want && w.best in qs && Admits(side, kind, limit, w.best) {
      var (q, rest) := MatchQueue(qs[w.best], want);
      MatchLeft(qs[w.best], want);
      LadderTrades(side, kind, limit, w, qs, want, q, rest);
      var fill, qs' := Fill(-1, want - rest, w.best), WithQueue(qs, w.best, q);
      if q == [] {
        var w' := AfterBest(Opposite(side), w, qs'.Keys);
        LadderTakes(side, kind, limit, w', qs', rest, p);
        OneMore(fill, LadderSweep(side, kind, limit, w', qs', rest).fills, p);
      } else {
        LadderEnds(side, kind, limit, w, qs', rest);
        OneMore(fill, [], p);
      }
    } else {
      LadderEnds(side, kind, limit, w, qs, want);
    }
  }

  lemma OneMore(fill: Fill, fills: seq<Fill>, p: int)
    ensures FilledAt([fill] + fills, p) == (if fill.price == p then fill.quantity else 0) + FilledAt(fills, p)
  {
    assert ([fill] + fills)[1..] == fills;
  }

  // The book together with where its windows stand.
  datatype LadderBook = LadderBook(book: Book, bids: Window, asks: Window) {
    function WindowOf(side: Side): Window {
      if side == BUY then bids else asks
    }

    function With(side: Side, w: Window, b: Book): LadderBook {
      if side == BUY then LadderBook(b, w, asks) else LadderBook(b, bids, w)
    }

    // One side as it shows.
    ghost function Shows(side: Side): SideView {
      SideOf(WindowOf(side), book.Of(side))
    }
  }

  // The matching of an incoming order.
  ghost function LadderMatch(lb: LadderBook, side: Side, kind: OrderType, price: int, quantity: int)
    : (LadderBook, int, seq<Fill>)
  {
    var t := Opposite(side);
    var s := LadderSweep(side, kind, price, lb.WindowOf(t), lb.book.Of(t), quantity);
    (lb.With(t, LadderWindow(side, kind, price, lb.WindowOf(t), lb.book.Of(t), quantity), lb.book.With(t, s.left)),
     s.want, s.fills)
  }

  // Resting what is left of it.
  function LadderRest(lb: LadderBook, side: Side, price: int, quantity: int): LadderBook {
    lb.With(side, AfterLevel(side, lb.WindowOf(side), price), WithResting(lb.book, side, price, quantity))
  }

  lemma RestsElsewhere(lb: LadderBook, side: Side, price: int, quantity: int)
    ensures var b := LadderRest(lb, side, price, quantity).book; b.Of(Opposite(side)) == lb.book.Of(Opposite(side))
  {}

  // What the book makes of an order, unless it is a fill-or-kill order that is refused.
  ghost function LadderSubmit(lb: LadderBook, side: Side, kind: OrderType, price: int,
                              quantity: int): (LadderBook, seq<Fill>)
  {
    var (matched, want, fills) := LadderMatch(lb, side, kind, price, quantity);
    if want > 0 && kind == LIMIT then
      (LadderRest(matched, side, price, want), fills + [Fill(MakeId(side, price, lb.book.NextIndex()), 0, price)])
    else (matched, fills)
  }

  // What the liquidity walk of a side finds within a limit.
  ghost function SeenDepth(side: Side, v: SideView, worst: int): int {
    Liquidity(side, v.window.lower, v.window.best, v.quantities, worst)
  }

  // The fill-or-kill test.
  ghost predicate Passes(lb: LadderBook, side: Side, kind: OrderType, price: int, quantity: int) {
    kind == FOK ==> quantity <= SeenDepth(Opposite(side), lb.Shows(Opposite(side)), price)
  }

  // What the book makes of an order.
  ghost function LadderOrder(lb: LadderBook, side: Side, kind: OrderType, price: int,
                             quantity: int): (LadderBook, seq<Fill>)
  {
    if Passes(lb, side, kind, price, quantity) then LadderSubmit(lb, side, kind, price, quantity) else (lb, [])
  }

  ghost predicate PlainSide(lb: LadderBook, side: Side) {
    Plain(side, lb.Shows(side))
  }

  // What a cancellation makes of the book.
  ghost function LadderCancel(lb: LadderBook, id: int): (LadderBook, bool) {
    var side, price := IdSide(id), IdPrice(id);
    var (b, ok) := Cancelled(lb.book, id);
    var w := lb.WindowOf(side);
    var w' := if ok && price == w.best && price !in b.Of(side) then AfterBest(side, w, b.Of(side).Keys) else w;
    (lb.With(side, w', b), ok)
  }

  lemma CancelKeepsIssued(b: Book, id: int)
    ensures Cancelled(b, id).0.issued == b.issued
  {}

  lemma {:induction false} SoundIsPositive(qs: Queues)
    requires Sound(qs)
    ensures Positive(Sums(qs))
  {
    forall p | p in qs ensures 0 < Sum(qs[p]) { Nonnegative(qs[p]); }
  }

  // On a plain side the walk sees the depth at the limit.
  lemma PlainDepth(side: Side, v: SideView, worst: int)
    requires Plain(side, v) && Positive(v.quantities)
    ensures SeenDepth(side, v, worst) == Depth(side, v.quantities, worst)
  {
    FoundExactly(side, v.window.lower, v.window.best, v.quantities, worst);
    PlainShows(side, v, worst);
  }

  // If the opposite side is plain, an order gets what the price-time book says, and the side stays plain.
  lemma PlainSubmit(lb: LadderBook, side: Side, kind: OrderType, price: int, quantity: int)
    requires PlainSide(lb, Opposite(side)) && Sound(lb.book.Of(Opposite(side)))
    ensures var (lb', fills) := LadderOrder(lb, side, kind, price, quantity);
            && (lb'.book, fills) == Submitted(lb.book, side, kind, price, quantity) && PlainSide(lb', Opposite(side))
  {
    hide Plain, Depth, Liquidity;
    var t := Opposite(side);
    PlainSweep(side, kind, price, lb.WindowOf(t), lb.book.Of(t), quantity);
    SweepKeepsPlain(side, kind, price, lb.WindowOf(t), lb.book.Of(t), quantity);
    SoundIsPositive(lb.book.Of(t));
    PlainDepth(t, lb.Shows(t), price);
  }

  // The order's own side stays plain exactly when its levels stay separated.
  lemma PlainOwnSide(lb: LadderBook, side: Side, kind: OrderType, price: int, quantity: int)
    requires PlainSide(lb, side) && (kind == LIMIT ==> 0 < price < PRICE_LIMIT)
    ensures var lb' := LadderOrder(lb, side, kind, price, quantity).0;
            PlainSide(lb', side) <==> Separated(lb'.book.Of(side).Keys)
  {
    hide LadderSweep, LadderWindow, Passes;
    var (matched, want, fills) := LadderMatch(lb, side, kind, price, quantity);
    if want > 0 && kind == LIMIT {
      RestKeepsPlain(matched, side, price, want);
    }
  }

  lemma RestKeepsPlain(lb: LadderBook, side: Side, price: int, quantity: int)
    requires PlainSide(lb, side) && 0 < price < PRICE_LIMIT
    ensures var lb' := LadderRest(lb, side, price, quantity);
            PlainSide(lb', side) <==> Separated(lb'.book.Of(side).Keys)
  {
    var v, lb' := lb.Shows(side), LadderRest(lb, side, price, quantity);
    var d := DeliverSide(side, v, price, 1);
    assert d.quantities.Keys == lb'.book.Of(side).Keys;
    if Separated(lb'.book.Of(side).Keys) {
      DeliveryKeepsPlain(side, v, price, 1);
    }
  }

  // A cancellation leaves plain sides plain.
  lemma PlainCancel(lb: LadderBook, id: int, side: Side)
    requires PlainSide(lb, side)
    ensures PlainSide(LadderCancel(lb, id).0, side)
  {
    var price, v := IdPrice(id), lb.Shows(side);
    var (b, ok) := Cancelled(lb.book, id);
    if ok && side == IdSide(id) {
      var i :| 0 <= i < |lb.book.Of(side)[price]| && b == lb.book.With(side, Removed(lb.book.Of(side), price, i));
      var q := lb.book.Of(side)[price][..i] + lb.book.Of(side)[price][i + 1..];
      StoreKeepsPlain(side, v, price, if q == [] then 0 else 1);
      assert b.Of(side).Keys == if q == [] then (v.quantities - {price}).Keys else v.quantities.Keys;
    }
  }

  // What holds of every order that is not refused, on any book.
  lemma SubmitLaws(lb: LadderBook, side: Side, kind: OrderType, price: int, quantity: int)
    requires Sound(lb.book.bids) && Sound(lb.book.asks) && 0 <= quantity
    ensures var (lb', fills) := LadderSubmit(lb, side, kind, price, quantity);
            && 0 <= FillTotal(fills) <= quantity && Reported(kind, price, quantity, fills)
            && (if kind == LIMIT && FillTotal(fills) < quantity
                then fills != [] && lb'.book.issued == lb.book.issued + [fills[|fills| - 1].orderId]
                else lb'.book.issued == lb.book.issued)
            && (kind == LIMIT ==> (FillTotal(fills) < quantity <==> 0 < LadderMatch(lb, side, kind, price, quantity).1))
            && FillTotal(fills) == quantity - LadderMatch(lb, side, kind, price, quantity).1
            && Volume(lb'.book.Of(Opposite(side))) == Volume(lb.book.Of(Opposite(side))) - FillTotal(fills)
            && Volume(lb'.book.Of(side)) ==
               Volume(lb.book.Of(side)) + if kind == LIMIT then quantity - FillTotal(fills) else 0
  {
    hide LadderSweep, LadderWindow, Volume;
    var t := Opposite(side);
    LadderBalance(side, kind, price, lb.WindowOf(t), lb.book.Of(t), quantity);
    var (matched, want, fills) := LadderMatch(lb, side, kind, price, quantity);
    var n := lb.book.NextIndex();
    if want > 0 && kind == LIMIT {
      VolumeOfJoin(lb.book.Of(side), price, Resting(n, want));
      FillTotalConcat(fills, [Fill(MakeId(side, price, n), 0, price)]);
      assert (fills + [Fill(MakeId(side, price, n), 0, price)])[..|fills|] == fills;
    }
  }

  // ... and of every order.
  lemma OrderLaws(lb: LadderBook, side: Side, kind: OrderType, price: int, quantity: int)
    requires Sound(lb.book.bids) && Sound(lb.book.asks) && 0 <= quantity
    ensures var (lb', fills) := LadderOrder(lb, side, kind, price, quantity);
            && 0 <= FillTotal(fills) <= quantity && Reported(kind, price, quantity, fills)
            && (if kind == LIMIT && FillTotal(fills) < quantity
                then fills != [] && lb'.book.issued == lb.book.issued + [fills[|fills| - 1].orderId]
                else lb'.book.issued == lb.book.issued)
            && Volume(lb'.book.Of(Opposite(side))) == Volume(lb.book.Of(Opposite(side))) - FillTotal(fills)
            && Volume(lb'.book.Of(side)) ==
               Volume(lb.book.Of(side)) + if kind == LIMIT then quantity - FillTotal(fills) else 0
  {
    hide LadderSubmit, Volume, SeenDepth;
    SubmitLaws(lb, side, kind, price, quantity);
  }

  // Each level of the opposite side loses exactly what an order traded at its price, and it trades within its limit.
  lemma OrderTakes(lb: LadderBook, side: Side, kind: OrderType, price: int, quantity: int, p: int)
    requires Sound(lb.book.bids) && Sound(lb.book.asks) && 0 <= quantity
    ensures var t, (lb', fills) := Opposite(side), LadderOrder(lb, side, kind, price, quantity);
            && LevelSum(lb'.book.Of(t), p) == LevelSum(lb.book.Of(t), p) - FilledAt(fills, p)
            && forall i | 0 <= i < |fills| :: 0 < fills[i].quantity ==> Admits(side, kind, price, fills[i].price)
  {
    hide LadderSweep, LadderWindow, SeenDepth;
    var t := Opposite(side);
    LadderTakes(side, kind, price, lb.WindowOf(t), lb.book.Of(t), quantity, p);
    var (matched, want, fills) := LadderMatch(lb, side, kind, price, quantity);
    var rest := [Fill(MakeId(side, price, lb.book.NextIndex()), 0, price)];
    FilledAtConcat(fills, rest, p);
    assert rest[1..] == [];
  }
}
