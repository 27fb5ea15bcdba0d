/** The venue: one request against the book, and the fill events it reports. */
module Venues {
  import opened BookLaws
  import opened Deltas
  import opened LadderSweeps
  import opened LimitOrderBooks
  import opened MarketTypes
  import opened OrderIds
  import opened PriceTimeBook
  import opened Sightings

  datatype Sender = SOR | MM | NOISE

  datatype Status = PARTIAL | FILLED | CANCELLED

  datatype FillEvent = FillEvent(childId: int, lobOrderId: int, filled: int, price: int, remaining: int, status: Status)

  datatype OrderRequest =
    | NewOrder(orderId: int, sender: Sender, side: Side, kind: OrderType, price: int, quantity: int)
    | CancelOrder(orderId: int)

  // The id under which the rest of an order rests, or -1.
  function RestingId(fills: seq<Fill>): int {
    if fills != [] && fills[|fills| - 1].quantity == 0 then fills[|fills| - 1].orderId else -1
  }

  function FinalStatus(sender: Sender, remaining: int, restingId: int): Status {
    if remaining == 0 then FILLED
    else if sender == MM || restingId != -1 then PARTIAL
    else CANCELLED
  }

  // The i-th report, and all of them.
  function Event(orderId: int, sender: Sender, quantity: int, fills: seq<Fill>, i: nat): FillEvent
    requires i < |fills|
  {
    var remaining := quantity - FillTotal(fills[..i + 1]);
    FillEvent(orderId, RestingId(fills), fills[i].quantity, fills[i].price, remaining,
              if i == |fills| - 1 then FinalStatus(sender, remaining, RestingId(fills)) else PARTIAL)
  }

  function Events(orderId: int, sender: Sender, quantity: int, fills: seq<Fill>): seq<FillEvent> {
    if fills == [] then [FillEvent(orderId, -1, 0, 0, quantity, if sender == MM then PARTIAL else CANCELLED)]
    else seq(|fills|, i requires 0 <= i < |fills| => Event(orderId, sender, quantity, fills, i))
  }

  class Venue {
    const lob: LimitOrderBook
    var sorFills: seq<FillEvent>
    var mmFills: seq<FillEvent>

    constructor (lob: LimitOrderBook)
      ensures this.lob == lob && sorFills == [] && mmFills == []
    {
      this.lob := lob;
      sorFills, mmFills := [], [];
    }

    // The reports for a router order.
    method ReportToRouter(orderId: int, quantity: int, fills: seq<Fill>)
      modifies this`sorFills
      ensures sorFills == old(sorFills) + Events(orderId, SOR, quantity, fills)
    {
      var lobOrderId := RestingId(fills);
      var runningRemaining := quantity;
      if fills == [] {
        sorFills := sorFills + [FillEvent(orderId, -1, 0, 0, runningRemaining, CANCELLED)];
        return;
      }
      ghost var events := Events(orderId, SOR, quantity, fills);
      for i := 0 to |fills|
        invariant runningRemaining == quantity - FillTotal(fills[..i]) && sorFills == old(sorFills) + events[..i]
      {
        assert fills[..i + 1] == fills[..i] + [fills[i]];
        FillTotalConcat(fills[..i], [fills[i]]);
        runningRemaining := runningRemaining - fills[i].quantity;
        var currentStatus := PARTIAL;
        if i == |fills| - 1 {
          if runningRemaining == 0 {
            currentStatus := FILLED;
          } else {
            currentStatus := if lobOrderId != -1 then PARTIAL else CANCELLED;
          }
        }
        sorFills := sorFills + [FillEvent(orderId, lobOrderId, fills[i].quantity, fills[i].price, runningRemaining,
                                          currentStatus)];
      }
    }

    // The reports for a market maker's order.
    method ReportToMaker(orderId: int, quantity: int, fills: seq<Fill>)
      modifies this`mmFills
      ensures mmFills == old(mmFills) + Events(orderId, MM, quantity, fills)
    {
      var lobOrderId := RestingId(fills);
      var runningRemaining := quantity;
      if fills == [] {
        mmFills := mmFills + [FillEvent(orderId, -1, 0, 0, runningRemaining, PARTIAL)];
        return;
      }
      ghost var events := Events(orderId, MM, quantity, fills);
      for i := 0 to |fills|
        invariant runningRemaining == quantity - FillTotal(fills[..i]) && mmFills == old(mmFills) + events[..i]
      {
        assert fills[..i + 1] == fills[..i] + [fills[i]];
        FillTotalConcat(fills[..i], [fills[i]]);
        runningRemaining := runningRemaining - fills[i].quantity;
        var currentStatus := PARTIAL;
        if i == |fills| - 1 {
          currentStatus := if runningRemaining == 0 then FILLED else PARTIAL;
        }
        mmFills := mmFills + [FillEvent(orderId, lobOrderId, fills[i].quantity, fills[i].price, runningRemaining,
                                        currentStatus)];
      }
    }

    // One request.  A cancellation may name any id; one that was never issued can hit another client's order, and
    // only then is the book not promised to stay sound.
    method ProcessRequest(req: OrderRequest) returns (ghost fills: seq<Fill>)
      requires lob.Valid()
      requires req.NewOrder? ==>
                 0 <= req.quantity && (req.kind == LIMIT ==> 0 < req.price < PRICE_LIMIT && lob.nextIndex < TWO_31)
      modifies this`sorFills, this`mmFills
      modifies lob, lob.bids, lob.bids.ladder, lob.bids.mask, lob.asks, lob.asks.ladder, lob.asks.mask
      ensures req.CancelOrder? ==>
                && sorFills == old(sorFills) && mmFills == old(mmFills)
                && (req.orderId in old(lob.book).issued || !old(lob.Finds(req.orderId)) ==>
                      lob.Valid() && lob.Ladder() == LadderCancel(old(lob.Ladder()), req.orderId).0)
      ensures req.NewOrder? ==>
                && lob.Valid() && 0 <= FillTotal(fills) <= req.quantity
                && Reported(req.kind, req.price, req.quantity, fills)
                && (lob.Ladder(), fills) == LadderOrder(old(lob.Ladder()), req.side, req.kind, req.price, req.quantity)
                && ((lob.book, fills) == Submitted(old(lob.book), req.side, req.kind, req.price, req.quantity) <==>
                    OrderInSight(old(lob.Ladder()), req.side, req.kind, req.price, req.quantity))
                && lob.history == old(lob.history)
                                  + Publishes(lob.book, req.side, req.kind, req.price, req.quantity, fills)
      ensures req.NewOrder? && req.kind == LIMIT && FillTotal(fills) < req.quantity ==>
                RestingId(fills) in lob.book.issued && RestingId(fills) != -1
      ensures req.NewOrder? ==>
                && sorFills == old(sorFills)
                               + (if req.sender == SOR then Events(req.orderId, SOR, req.quantity, fills) else [])
                && mmFills == old(mmFills)
                              + (if req.sender == MM then Events(req.orderId, MM, req.quantity, fills) else [])
      ensures req.NewOrder? ==>
                var t := Opposite(req.side);
                forall p ::
                  && (req.sender == SOR ==> ReportedAt(sorFills[|old(sorFills)|..], p) ==
                                            LevelSum(old(lob.book).Of(t), p) - LevelSum(lob.book.Of(t), p))
                  && (req.sender == MM ==> ReportedAt(mmFills[|old(mmFills)|..], p) ==
                                           LevelSum(old(lob.book).Of(t), p) - LevelSum(lob.book.Of(t), p))
      ensures req.NewOrder? && req.sender == SOR && req.kind != LIMIT && 0 < req.quantity ==>
                OrderStream(req.orderId, req.quantity, sorFills[|old(sorFills)|..])
    {
      hide LimitOrderBook.Quoting, LimitOrderBook.Linked, Submitted, Cancelled, LadderOrder, LadderCancel, PlainSide;
      hide Events, Publishes, OrderStream, OrderInSight, OrderSighted, OrderReach, Passes, ExactSide,
        ReportedAt, LevelSum;
      fills := [];
      if req.CancelOrder? {
        var _ := lob.Cancel(req.orderId);
        return;
      }
      ghost var lb := lob.Ladder();
      lob.BookIsValid();
      var traded := lob.Submit(req.side, req.kind, req.price, req.quantity);
      fills := traded;
      ReportsTellAll(lb, req.orderId, req.sender, req.side, req.kind, req.price, req.quantity);
      IssuedIdsNotMinusOne(lob);
      if req.sender == SOR {
        ReportToRouter(req.orderId, req.quantity, traded);
        if req.kind != LIMIT && 0 < req.quantity {
          RouterOrdersTerminate(req.orderId, req.kind, req.price, req.quantity, traded);
        }
      } else if req.sender == MM {
        ReportToMaker(req.orderId, req.quantity, traded);
      }
    }
  }

  // No order is ever issued the id that stands for none.
  lemma IssuedIdsNotMinusOne(lob: LimitOrderBook)
    requires lob.Valid()
    ensures -1 !in lob.book.issued
  {
    hide LimitOrderBook.Quoting, LimitOrderBook.Apart;
    NotIssued(lob.book.issued);
  }

  lemma NotIssued(issued: seq<int>)
    requires IdsInOrder(issued) && |issued| < TWO_31
    ensures -1 !in issued
  {
    assert IdIndex(-1) == TWO_32 - 1;
    forall j | 0 <= j < |issued| ensures issued[j] != -1 {}
  }

  // ---- What the event stream of one order promises ----

  function Reports(events: seq<FillEvent>): int {
    if events == [] then 0 else events[0].filled + Reports(events[1..])
  }

  // A stream of reports about one order of `left` still unreported: every report but the last leaves
  // something and is partial, the last one is terminal, and each remaining quantity follows from the one before.
  ghost predicate OrderStream(orderId: int, left: int, events: seq<FillEvent>) {
    && events != [] && events[0].childId == orderId && 0 <= events[0].filled
    && events[0].remaining == left - events[0].filled
    && if |events| == 1 then
         && 0 <= events[0].remaining && events[0].status == if events[0].remaining == 0 then FILLED else CANCELLED
       else
         0 < events[0].remaining && events[0].status == PARTIAL
           && OrderStream(orderId, events[0].remaining, events[1..])
  }

  lemma {:induction false} StreamFrom(orderId: int, quantity: int, fills: seq<Fill>, i: nat)
    requires Traded(fills) && FillTotal(fills) <= quantity && i < |fills| && RestingId(fills) == -1
    ensures OrderStream(orderId, quantity - FillTotal(fills[..i]), Events(orderId, SOR, quantity, fills)[i..])
    decreases |fills| - i
  {
    var events := Events(orderId, SOR, quantity, fills);
    assert fills[..i + 1] == fills[..i] + [fills[i]];
    FillTotalConcat(fills[..i], [fills[i]]);
    assert fills == fills[..i + 1] + fills[i + 1..];
    FillTotalConcat(fills[..i + 1], fills[i + 1..]);
    TradedTotal(fills[i + 1..]);
    if i + 1 < |fills| {
      StreamFrom(orderId, quantity, fills, i + 1);
      assert events[i..][1..] == events[i + 1..];
    }
  }

  lemma {:induction false} TradedTotal(fills: seq<Fill>)
    requires Traded(fills)
    ensures if fills == [] then FillTotal(fills) == 0 else 0 < FillTotal(fills)
  {
    if fills != [] {
      assert forall i | 0 <= i < |fills[1..]| :: fills[1..][i] == fills[i + 1];
      TradedTotal(fills[1..]);
    }
  }

  // ---- What the reports say of the book ----

  // What was reported as filled at a price.
  function ReportedAt(events: seq<FillEvent>, p: int): int {
    if events == [] then 0
    else (if events[0].price == p then events[0].filled else 0) + ReportedAt(events[1..], p)
  }

  lemma {:induction false} ReportsFrom(orderId: int, sender: Sender, quantity: int, fills: seq<Fill>, i: nat, p: int)
    requires fills != [] && i <= |fills|
    ensures ReportedAt(Events(orderId, sender, quantity, fills)[i..], p) == FilledAt(fills[i..], p)
    decreases |fills| - i
  {
    var events := Events(orderId, sender, quantity, fills);
    if i < |fills| {
      ReportsFrom(orderId, sender, quantity, fills, i + 1, p);
      assert events[i..][1..] == events[i + 1..] && fills[i..][1..] == fills[i + 1..];
    }
  }

  // The reports of an order tell, price by price, exactly what the levels of the opposite side lost to it, and
  // nothing is reported beyond its limit.
  lemma ReportsTellLosses(lb: LadderBook, orderId: int, sender: Sender, side: Side, kind: OrderType, price: int,
                          quantity: int, p: int)
    requires Sound(lb.book.bids) && Sound(lb.book.asks) && 0 <= quantity
    ensures var t, (lb', fills) := Opposite(side), LadderOrder(lb, side, kind, price, quantity);
            var events := Events(orderId, sender, quantity, fills);
            && ReportedAt(events, p) == LevelSum(lb.book.Of(t), p) - LevelSum(lb'.book.Of(t), p)
            && forall i | 0 <= i < |events| :: 0 < events[i].filled ==> Admits(side, kind, price, events[i].price)
  {
    hide LadderOrder, LevelSum;
    OrderTakes(lb, side, kind, price, quantity, p);
    var fills := LadderOrder(lb, side, kind, price, quantity).1;
    var events := Events(orderId, sender, quantity, fills);
    if fills == [] {
      assert events[1..] == [];
    } else {
      ReportsFrom(orderId, sender, quantity, fills, 0, p);
      assert events[0..] == events && fills[0..] == fills;
    }
  }

  lemma ReportsTellAll(lb: LadderBook, orderId: int, sender: Sender, side: Side, kind: OrderType, price: int,
                       quantity: int)
    requires Sound(lb.book.bids) && Sound(lb.book.asks) && 0 <= quantity
    ensures var t, (lb', fills) := Opposite(side), LadderOrder(lb, side, kind, price, quantity);
            var events := Events(orderId, sender, quantity, fills);
            forall p :: ReportedAt(events, p) == LevelSum(lb.book.Of(t), p) - LevelSum(lb'.book.Of(t), p)
  {
    hide LadderOrder, LevelSum, ReportedAt, Events;
    var t := Opposite(side);
    var (lb', fills) := LadderOrder(lb, side, kind, price, quantity);
    forall p
      ensures ReportedAt(Events(orderId, sender, quantity, fills), p) ==
              LevelSum(lb.book.Of(t), p) - LevelSum(lb'.book.Of(t), p)
    {
      ReportsTellLosses(lb, orderId, sender, side, kind, price, quantity, p);
    }
  }

  // Where the order is in sight its trades are reported from the best price to the worst, and none beyond the limit.
  lemma ReportsInPriority(lb: LadderBook, orderId: int, sender: Sender, side: Side, kind: OrderType, price: int,
                          quantity: int)
    requires Sound(lb.book.bids) && Sound(lb.book.asks) && 0 <= quantity
    requires OrderInSight(lb, side, kind, price, quantity)
    ensures var events := Events(orderId, sender, quantity, LadderOrder(lb, side, kind, price, quantity).1);
            && (forall i, j | 0 <= i < j < |events| && 0 < events[j].filled ::
                  if side == BUY then events[i].price < events[j].price else events[i].price > events[j].price)
            && (forall i | 0 <= i < |events| && 0 < events[i].filled ::
                  kind == MARKET || if side == BUY then events[i].price <= price else events[i].price >= price)
  {
    hide LadderOrder, OrderInSight, Sweep;
    OrderExactly(lb, side, kind, price, quantity);
    FillsInPriority(side, kind, price, lb.book.Of(Opposite(side)), quantity);
  }

  // An order of the router that cannot rest is reported by exactly one such stream.
  lemma RouterOrdersTerminate(orderId: int, kind: OrderType, price: int, quantity: int, fills: seq<Fill>)
    requires kind != LIMIT && 0 < quantity && FillTotal(fills) <= quantity && Reported(kind, price, quantity, fills)
    ensures OrderStream(orderId, quantity, Events(orderId, SOR, quantity, fills))
  {
    if fills != [] {
      StreamFrom(orderId, quantity, fills, 0);
      assert Events(orderId, SOR, quantity, fills)[0..] == Events(orderId, SOR, quantity, fills);
      assert fills[..0] == [];
    }
  }

  // The reports of a stream add up to the order: what they filled and what the last one leaves.
  lemma {:induction false} StreamBalances(orderId: int, left: int, events: seq<FillEvent>)
    requires OrderStream(orderId, left, events)
    ensures Reports(events) + events[|events| - 1].remaining == left && 0 <= Reports(events)
    ensures forall i | 0 <= i < |events| :: events[i].status == PARTIAL <==> i < |events| - 1
  {
    if |events| > 1 {
      StreamBalances(orderId, events[0].remaining, events[1..]);
      forall i | 0 <= i < |events| ensures events[i].status == PARTIAL <==> i < |events| - 1 {
        assert i > 0 ==> events[i] == events[1..][i - 1];
      }
    }
  }

  // A limit order whose rest was booked gets no terminal report from the venue: every one is partial, and
  // names the id it rests under.
  lemma RestingOrdersStayOpen(orderId: int, sender: Sender, price: int, quantity: int, fills: seq<Fill>)
    requires Reported(LIMIT, price, quantity, fills) && 0 <= FillTotal(fills) < quantity && RestingId(fills) != -1
    ensures var events := Events(orderId, sender, quantity, fills);
            && events[|events| - 1].filled == 0 && events[|events| - 1].price == price
            && forall i | 0 <= i < |events| :: events[i].status == PARTIAL && events[i].lobOrderId == RestingId(fills)
  {
    assert fills[..|fills|] == fills;
  }

  // A market maker never sees a cancellation; it is told FILLED, last, exactly when nothing remains of a traded order.
  lemma MakerReports(orderId: int, kind: OrderType, price: int, quantity: int, fills: seq<Fill>)
    requires Reported(kind, price, quantity, fills) && FillTotal(fills) <= quantity
    ensures var events := Events(orderId, MM, quantity, fills);
            && (forall i | 0 <= i < |events| ::
                  events[i].status != CANCELLED && (i < |events| - 1 ==> events[i].status == PARTIAL))
            && (events[|events| - 1].status == FILLED <==> fills != [] && FillTotal(fills) == quantity)
            && events[|events| - 1].remaining == quantity - FillTotal(fills)
  {
    assert fills[..|fills|] == fills;
  }
}
