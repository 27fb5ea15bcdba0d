/** The limit order book: two ladder sides over one slab of orders, with submit, cancel and the
    mirror's apply-delta updating them in place.

    `book` is the price-time book the object stands for, `history` the level changes it has published
    (or, for a mirror, applied), and `inStep` says that none of them was silent: that its best prices and
    windows are those the history alone implies.  */
module LimitOrderBooks {
  import opened BookLaws
  import opened BookSides
  import opened Deltas
  import opened Ladder
  import opened LadderSweeps
  import opened MarketTypes
  import opened OrderIds
  import opened OrderSlab
  import opened OrderedKeys
  import opened PriceTimeBook
  import opened Scans
  import opened Sightings
  import opened Snapshots
  import opened Totals

  // A listing of an exact side is its top exactly if the walk meets its levels in order, as on a plain side.
  ghost predicate ListsTop(side: Side, v: SideView, quantities: map<int, int>, list: seq<SnapshotLevel>, cap: nat) {
    && (ExactSide(side, v) ==>
          (list == TopLevels(side, quantities, cap) <==>
           cap == 0 || Straight(side, v.window.lower, v.window.best, v.quantities.Keys)))
    && (Plain(side, v) ==> list == TopLevels(side, quantities, cap))
  }

  // Doubling some number of times leads from one size to the other.
  predicate Doubled(from: nat, to: nat) {
    to == from || (from < to && to % 2 == 0 && Doubled(from, to / 2))
  }

  class LimitOrderBook {
    const bids: BookSide
    const asks: BookSide
    var pool: seq<Order>
    var nextIndex: int
    var history: seq<Delta>

    ghost var book: Book
    ghost var inStep: bool

    ghost predicate Apart() {
      && bids.side == BUY && asks.side == SELL
      && bids != asks && bids.ladder != asks.ladder && bids.mask != asks.mask
    }

    function Of(side: Side): BookSide {
      if side == BUY then bids else asks
    }

    ghost function View(): BookView
      reads bids, asks
    {
      BookView(bids.View(), asks.View())
    }

    // Both sides are sound, and their quantities are those of the delta history; as long as the book is in
    // step with it, so are the best prices and the windows.
    ghost predicate Quoting()
      reads this`history, this`inStep, bids, bids.ladder, bids.mask, asks, asks.ladder, asks.mask
    {
      && Apart() && bids.Valid() && asks.Valid()
      && Tracks(View(), history, inStep)
    }

    constructor (initialCapacity: nat)
      ensures Valid() && history == [] && inStep && View() == EMPTY_VIEW && book == Book(map[], map[], [])
      ensures Quoting() && fresh(bids) && fresh(bids.ladder) && fresh(bids.mask) && fresh(asks) && fresh(asks.ladder)
              && fresh(asks.mask)
    {
      bids := new BookSide(BUY);
      asks := new BookSide(SELL);
      pool := seq(initialCapacity, _ => NO_ORDER);
      nextIndex := 1;
      book := Book(map[], map[], []);
      history, inStep := [], true;
      new;
      assert Quantities(map[]) == map[];
    }

    // Writes a level back, publishes its quantity, and removes it when it is empty.  The book stays in step
    // exactly when the change is not silent.
    method Store(side: Side, v: PriceLevel)
      requires Quoting() && v.price in Of(side).levels && 0 <= v.quantity && (v.quantity == 0 ==> Clear(v))
      modifies this`history, this`inStep, Of(side), Of(side).ladder, Of(side).mask
      ensures Quoting() && history == old(history) + [Delta(side, v.price, v.quantity)]
      ensures Of(side).levels == Updated(old(Of(side).levels), v)
      ensures View() == old(View()).With(side, StoreSide(side, old(View()).Of(side), v.price, v.quantity))
      ensures inStep == (old(inStep) && !Silent(side, old(View()).Of(side).window, v.price, v.quantity))
      ensures old(inStep) ==> (View() == DeliverAll(history) <==> inStep)
    {
      hide BookSide.Valid, Tracks, StoreSide, DeliverAll;
      ghost var before := View();
      var d := Delta(side, v.price, v.quantity);
      if side == BUY {
        bids.StoreLevel(v);
      } else {
        asks.StoreLevel(v);
      }
      StoreTracks(before, history, inStep, d);
      history := history + [d];
      inStep := inStep && !Silent(side, before.Of(side).window, v.price, v.quantity);
    }

    // Every level's list is a queue of the abstract book, and every active order is in one.
    ghost predicate Linked()
      reads this`pool, this`nextIndex, this`book, bids`levels, asks`levels
    {
      nextIndex == book.NextIndex() <= TWO_31 && IdsInOrder(book.issued)
        && BookLinked(pool, bids.levels, asks.levels, book)
    }

    ghost predicate Valid()
      reads this, bids, bids.ladder, bids.mask, asks, asks.ladder, asks.mask
    {
      Apart() && Quoting() && Linked()
    }

    // Fills the oldest order of a level, completely or in part.
    method FillHead(target: Side, level0: PriceLevel, want: int, ghost q0: Queue)
      returns (level: PriceLevel, matched: int, ghost q: Queue)
      requires Listed(pool, target, level0, q0) && Complete(pool, target, level0.price, q0) && q0 != [] && 0 < want
      modifies this`pool
      ensures Listed(pool, target, level, q) && Complete(pool, target, level.price, q)
      ensures OnlyLevel(old(pool), pool, target, level0.price) && NoneRevived(old(pool), pool)
      ensures level.price == level0.price && level.quantity == level0.quantity - matched && 0 < matched <= want
      ensures MatchQueue(q0, want) == MatchQueue(q, want - matched)
    {
      level := level0;
      var k := level.head;
      assert EntryAt(pool, target, level0.price, q0, 0);
      if want >= pool[k].quantity {
        matched := pool[k].quantity;
        HeadFilledKeeps(pool, target, level0, q0,
                        PriceLevel(level0.price, level0.quantity - matched, LinkTo(q0, 1),
                                   if |q0| == 1 then -1 else level0.tail));
        pool := pool[k := pool[k].(active := false)];
        var newHead := pool[k].next;
        level := level.(head := newHead);
        if newHead != -1 {
          pool := pool[newHead := pool[newHead].(prev := -1)];
        } else {
          level := level.(tail := -1);
        }
        q := q0[1..];
      } else {
        matched := want;
        HeadReducedKeeps(pool, target, level0, q0, want);
        HeadReducedTouches(pool, target, level0, q0, want);
        q := ReducedQueue(q0, want);
      }
      level := level.(quantity := level.quantity - matched);
      pool := pool[k := pool[k].(quantity := pool[k].quantity - matched)];
      assert matched == q0[0].quantity ==> pool == HeadFilled(old(pool), k);
    }

    // Fills resting orders of one level, oldest first, until the level or the incoming quantity is used up.
    method MatchLevel(target: Side, level0: PriceLevel, want: int, ghost q0: Queue)
      returns (level: PriceLevel, matched: int, ghost q: Queue)
      requires Listed(pool, target, level0, q0) && Complete(pool, target, level0.price, q0) && q0 != [] && 0 < want
      modifies this`pool
      ensures Listed(pool, target, level, q) && Complete(pool, target, level.price, q)
      ensures OnlyLevel(old(pool), pool, target, level0.price) && NoneRevived(old(pool), pool)
      ensures level.price == level0.price && level.quantity == level0.quantity - matched
      ensures MatchQueue(q0, want) == (q, want - matched) && 0 < matched <= want
    {
      level, matched, q := level0, 0, q0;
      var remaining := want;
      SumPositive(q);
      while remaining > 0 && level.quantity > 0
        invariant Listed(pool, target, level, q) && Complete(pool, target, level.price, q)
        invariant OnlyLevel(old(pool), pool, target, level0.price) && NoneRevived(old(pool), pool)
        invariant level.price == level0.price && level.quantity == level0.quantity - matched
        invariant MatchQueue(q0, want) == MatchQueue(q, remaining)
        invariant 0 <= matched == want - remaining <= want && (matched == 0 ==> level == level0)
        decreases remaining
      {
        SumPositive(q);
        ghost var before := pool;
        var filled;
        level, filled, q := FillHead(target, level, remaining, q);
        OnlyLevelTransitive(old(pool), before, pool, target, level0.price);
        matched, remaining := matched + filled, remaining - filled;
      }
      SumPositive(q);
    }

    // Writes back a level whose list now is q, and publishes it.
    method Settle(target: Side, v: PriceLevel, ghost pool0: seq<Order>, ghost q: Queue)
      requires Quoting() && v.price in Of(target).levels && nextIndex == book.NextIndex() <= TWO_31
               && IdsInOrder(book.issued)
      requires BookLinked(pool0, bids.levels, asks.levels, book)
      requires OnlyLevel(pool0, pool, target, v.price) && NoneRevived(pool0, pool)
      requires Listed(pool, target, v, q) && Complete(pool, target, v.price, q)
      modifies this`history, this`inStep, this`book, Of(target), Of(target).ladder, Of(target).mask
      ensures Valid() && history == old(history) + [Delta(target, v.price, v.quantity)]
      ensures book == old(book).With(target, WithQueue(old(book).Of(target), v.price, q))
      ensures View() == old(View()).With(target, StoreSide(target, old(View()).Of(target), v.price, v.quantity))
      ensures inStep == (old(inStep) && !Silent(target, old(View()).Of(target).window, v.price, v.quantity))
    {
      hide BookSide.Valid, Tracks, StoreSide;
      SumPositive(q);
      Relinked(pool0, pool, bids.levels, asks.levels, book, target, v, q, book.issued);
      book := book.With(target, WithQueue(book.Of(target), v.price, q));
      Store(target, v);
    }

    function WindowOf(side: Side): Window
      reads bids`lower, bids`best, asks`lower, asks`best
    {
      Window(Of(side).lower, Of(side).best)
    }

    // The book together with where its windows stand: all that decides what it does.
    ghost function Ladder(): LadderBook
      reads this`book, bids`lower, bids`best, asks`lower, asks`best
    {
      LadderBook(book, WindowOf(BUY), WindowOf(SELL))
    }

    lemma KeysAgree(side: Side)
      requires Valid()
      ensures Of(side).levels.Keys == book.Of(side).Keys == View().Of(side).quantities.Keys
      ensures View().Of(side) == Ladder().Shows(side) && Legal(book.Of(side).Keys) && Sound(book.Of(side))
      ensures Of(side).Valid() && Of(side).side == side
    {
      PositiveLevels(side);
      SoundQueues(pool, side, Of(side).levels, book.Of(side));
    }

    // Trades an incoming order against the best level of the opposite side.
    method TradeBest(target: Side, level0: PriceLevel, want: int) returns (fill: Fill, ghost q: Queue)
      requires Valid() && 0 < want && level0.price in Of(target).levels && level0 == Of(target).levels[level0.price]
      requires level0.price == Of(target).best
      modifies this`pool, this`history, this`inStep, this`book, Of(target), Of(target).ladder, Of(target).mask
      ensures Valid() && inStep == old(inStep)
      ensures level0.price in old(book).Of(target) && 0 < fill.quantity <= want
      ensures fill == Fill(-1, fill.quantity, level0.price)
      ensures MatchQueue(old(book).Of(target)[level0.price], want) == (q, want - fill.quantity)
      ensures PositiveQueue(old(book).Of(target)[level0.price])
      ensures Sum(q) == Sum(old(book).Of(target)[level0.price]) - fill.quantity
      ensures q != [] ==> fill.quantity == want
      ensures book == old(book).With(target, WithQueue(old(book).Of(target), level0.price, q))
      ensures WindowOf(target) ==
              if q == [] then AfterBest(target, old(WindowOf(target)), book.Of(target).Keys) else old(WindowOf(target))
      ensures history == old(history) + [Delta(target, level0.price, Sum(q))]
    {
      hide BookSide.Valid, Tracks, Quoting, NextBest;
      ghost var pool0, w, before := pool, WindowOf(target), View();
      KeysAgree(target);
      var level, matched;
      level, matched, q := MatchLevel(target, level0, want, book.Of(target)[level0.price]);
      fill := Fill(-1, matched, level0.price);
      MatchLeft(book.Of(target)[level0.price], want);
      SumPositive(q);
      Settle(target, level, pool0, q);
      KeysAgree(target);
      assert View().Of(target) == StoreSide(target, before.Of(target), level.price, level.quantity);
    }

    // `valid_price`: the limit of an incoming order admits a book price.
    static function ValidPrice(side: Side, bookBestPrice: int, orderPrice: int): (ok: bool)
      ensures ok <==> !Better(Opposite(side), orderPrice, bookBestPrice)
    {
      if side == BUY then orderPrice >= bookBestPrice else orderPrice <= bookBestPrice
    }

    // The best level of the opposite side, if an order with this limit may trade with it.
    method BestAdmissible(side: Side, kind: OrderType, price: int, ghost want: int) returns (level: Option<PriceLevel>)
      requires Valid()
      ensures var t, best := Of(Opposite(side)), Of(Opposite(side)).best;
              if best in t.levels && Admits(side, kind, price, best)
              then level == Some(t.levels[best]) && t.levels[best].price == best
              else level == None
    {
      hide Valid, BookSide.Valid;
      var target := Opposite(side);
      KeysAgree(target);
      if Of(target).best == Sentinel(target) {
        return None;
      }
      var v := Of(target).GetBest();
      if kind != MARKET && !ValidPrice(side, v.price, price) {
        return None;
      }
      return Some(v);
    }

    // One turn of the matching loop: a trade with the best level, or None when the loop ends.
    method MatchStep(side: Side, kind: OrderType, price: int, want: int) returns (fill: Option<Fill>)
      requires Valid() && 0 < want
      modifies this`pool, this`history, this`inStep, this`book
      modifies Of(Opposite(side)), Of(Opposite(side)).ladder, Of(Opposite(side)).mask
      ensures Valid() && inStep == old(inStep) && old(history) <= history
      ensures book == old(book).With(Opposite(side), book.Of(Opposite(side)))
      ensures TurnEffect(old(book).Of(Opposite(side)), want, fill, book.Of(Opposite(side)))
      ensures TurnPublishes(Opposite(side), old(book).Of(Opposite(side)), want, fill, book.Of(Opposite(side)),
                            old(history), history)
      ensures LadderTurn(side, kind, price, old(WindowOf(Opposite(side))), old(book).Of(Opposite(side)), want, fill,
                         WindowOf(Opposite(side)), book.Of(Opposite(side)))
    {
      hide Valid, BookSide.Valid, LadderTurn, LadderSweep, LadderWindow, TurnEffect, TurnPublishes, MatchQueue,
          AfterBest;
      var t := Opposite(side);
      ghost var qs, w, before := book.Of(t), WindowOf(t), history;
      KeysAgree(t);
      var level := BestAdmissible(side, kind, price, want);
      if level == None {
        NoTrade(qs, want);
        EndPublishes(t, qs, want, history);
        LadderEnds(side, kind, price, w, qs, want);
        return None;
      }
      var f;
      ghost var q;
      f, q := TradeBest(t, level.value, want);
      fill := Some(f);
      TradeEffect(qs, level.value.price, q, want, f.quantity);
      TradePublishes(t, qs, level.value.price, q, want, f.quantity, before);
      LadderTrades(side, kind, price, w, qs, want, q, want - f.quantity);
    }

    // Trades an incoming order until it is filled, or its limit or the opposite side is exhausted.
    method MatchAll(side: Side, kind: OrderType, price: int, quantity: int) returns (remaining: int, fills: seq<Fill>)
      requires Valid() && 0 <= quantity
      modifies this`pool, this`history, this`inStep, this`book
      modifies Of(Opposite(side)), Of(Opposite(side)).ladder, Of(Opposite(side)).mask
      ensures Valid() && inStep == old(inStep) && old(history) <= history
      ensures (Ladder(), remaining, fills) == LadderMatch(old(Ladder()), side, kind, price, quantity)
      ensures history == old(history) + Published(Opposite(side), fills, book.Of(Opposite(side)))
    {
      hide Valid, LadderTurn, LadderSweep, LadderWindow, SweptSoFar, TurnEffect, TurnPublishes, AllPublished;
      ghost var t := Opposite(side);
      ghost var qs0, w0, done := book.Of(t), WindowOf(t), false;
      remaining, fills := quantity, [];
      NonePublished(t, qs0, remaining, history);
      SweepStarts(side, kind, price, w0, qs0, remaining);
      assert bids != asks by { KeysAgree(BUY); KeysAgree(SELL); }
      while remaining > 0
        invariant Valid() && inStep == old(inStep) && 0 <= remaining && book == old(book).With(t, book.Of(t))
        invariant AllPublished(t, book.Of(t), remaining, fills, old(history), history)
        invariant if done then SweepIs(side, kind, price, w0, qs0, quantity, WindowOf(t), book.Of(t), remaining, fills)
                  else SweptSoFar(side, kind, price, w0, qs0, quantity, WindowOf(t), book.Of(t), remaining, fills)
        decreases |book.Of(t)|, remaining
      {
        ghost var w, qs, before := WindowOf(t), book.Of(t), history;
        var fill := MatchStep(side, kind, price, remaining);
        PublishesNext(t, qs, remaining, fills, fill, book.Of(t), old(history), before, history);
        SweepGoesOn(side, kind, price, w0, qs0, quantity, w, qs, remaining, fills, fill, WindowOf(t), book.Of(t));
        TurnShrinks(qs, remaining, fill, book.Of(t));
        if fill == None {
          done := true;
          break;
        }
        fills, remaining := fills + [fill.value], remaining - fill.value.quantity;
      }
      if !done {
        LadderEnds(side, kind, price, WindowOf(t), book.Of(t), remaining);
        SweepGoesOn(side, kind, price, w0, qs0, quantity, WindowOf(t), book.Of(t), remaining, fills, None, WindowOf(t),
                    book.Of(t));
      }
      ShowPublished(t, book.Of(t), remaining, fills, old(history), history);
    }

    // Doubles the slab until the index exists.
    method EnsurePoolCapacity(orderIndex: int)
      requires 0 <= orderIndex
      modifies this`pool
      ensures old(pool) <= pool && orderIndex < |pool|
      ensures orderIndex < |old(pool)| ==> pool == old(pool)
      ensures |old(pool)| <= orderIndex ==>
                Doubled(if old(pool) == [] then 1 else |old(pool)|, |pool|) && (|pool| == 1 || |pool| / 2 <= orderIndex)
      ensures forall i | |old(pool)| <= i < |pool| :: pool[i] == NO_ORDER
    {
      var required := orderIndex + 1;
      if required <= |pool| {
        return;
      }
      var newSize := if |pool| == 0 then 1 else |pool|;
      while newSize < required
        invariant 1 <= newSize && |pool| <= newSize
        invariant Doubled(if pool == [] then 1 else |pool|, newSize)
        invariant newSize == (if pool == [] then 1 else |pool|) || newSize / 2 < required
        decreases required - newSize
      {
        newSize := newSize * 2;
      }
      pool := pool + seq(newSize - |pool|, _ => NO_ORDER);
    }

    // Stores a new order at a fresh slab index.
    method StoreOrder(k: int, order: Order)
      requires 0 <= k && order.active
      modifies this`pool
      ensures Grown(old(pool), pool, k, order)
    {
      EnsurePoolCapacity(k);
      pool := pool[k := order];
    }

    // Links the order at index k behind the old tail of its level.
    method LinkBehind(k: int, level: PriceLevel)
      requires 0 <= k < |pool| && -1 <= level.tail < |pool|
      modifies this`pool
      ensures pool == Appended(old(pool), level, k)
    {
      var previousTail := level.tail;
      pool := pool[k := pool[k].(prev := previousTail)];
      if previousTail != -1 {
        pool := pool[previousTail := pool[previousTail].(next := k)];
      }
    }

    // Adds a new order's quantity to its level and publishes the level.
    method AddToLevel(side: Side, price: int, quantity: int, k: int) returns (level: PriceLevel)
      requires Quoting() && 0 < price < PRICE_LIMIT && 0 < quantity
      requires price in Of(side).levels ==> 0 < Of(side).levels[price].quantity
      modifies this`history, Of(side), Of(side).ladder, Of(side).mask
      ensures Quoting() && history == old(history) + [Delta(side, price, level.quantity + quantity)]
      ensures View() == old(View()).With(side,
                                         DeliverSide(side, old(View()).Of(side), price, level.quantity + quantity))
      ensures level.price == price
      ensures level ==
              if price in old(Of(side).levels) then old(Of(side).levels)[price] else PriceLevel(price, 0, -1, -1)
      ensures Of(side).levels == old(Of(side).levels)[price := Extended(level, quantity, k)]
    {
      hide BookSide.Valid, Tracks, DeliverSide;
      ghost var before := View();
      level := Of(side).AddQuantity(price, quantity, k);
      DeliverTracks(before, history, inStep, Delta(side, price, level.quantity + quantity));
      history := history + [Delta(side, price, level.quantity + quantity)];
    }

    // Stores an order under the next slab index, adds its quantity to its level and links it behind the tail.
    method Shelve(side: Side, price: int, quantity: int, k: int, id: int)
      requires Quoting() && 0 < price < PRICE_LIMIT && 0 < quantity && k == book.NextIndex()
      requires id == MakeId(side, price, k) && BookLinked(pool, bids.levels, asks.levels, book)
      modifies this`pool, this`history, Of(side), Of(side).ladder, Of(side).mask
      ensures Quoting() && BookLinked(pool, bids.levels, asks.levels, WithResting(book, side, price, quantity))
      ensures var sum := Sum(QueueAt(WithResting(book, side, price, quantity).Of(side), price));
              && sum != 0 && history == old(history) + [Delta(side, price, sum)]
              && View() == old(View()).With(side, DeliverSide(side, old(View()).Of(side), price, sum))
    {
      hide BookSide.Valid, Tracks, DeliverSide, Quoting, BookLinked, Join, Grown, Appended;
      ghost var pool0, bl, al := pool, bids.levels, asks.levels;
      PositiveLevels(side);
      StoreOrder(k, Order(id, price, quantity, side, -1, -1, true));
      ghost var grown := pool;
      var level := AddToLevel(side, price, quantity, k);
      GrownAndLinked(pool0, grown, bl, al, book, side, price, quantity, level);
      LinkBehind(k, level);
    }

    // Rests an order under a fresh id.
    method Rest(side: Side, price: int, quantity: int) returns (id: int)
      requires Valid() && 0 < price < PRICE_LIMIT && 0 < quantity && nextIndex < TWO_31
      modifies this`pool, this`history, this`book, this`nextIndex, Of(side), Of(side).ladder, Of(side).mask
      ensures Valid() && id == MakeId(side, price, old(nextIndex))
      ensures Ladder() == LadderRest(old(Ladder()), side, price, quantity)
      ensures history == old(history) + [Delta(side, price, Sum(QueueAt(book.Of(side), price)))]
    {
      hide BookSide.Valid, Tracks, BookLinked, Join, Quoting, DeliverSide, Sum, QueueAt, AfterLevel;
      var k := nextIndex;
      id := MakeId(side, price, k);
      nextIndex := nextIndex + 1;
      ghost var before := View();
      Shelve(side, price, quantity, k, id);
      IdRoundTrip(side, price, k);
      book := WithResting(book, side, price, quantity);
      DeliveredWindow(side, before.Of(side), price, Sum(QueueAt(book.Of(side), price)));
    }

    lemma PositiveLevels(side: Side)
      requires BookLinked(pool, bids.levels, asks.levels, book)
      ensures forall p | p in Of(side).levels :: 0 < Of(side).levels[p].quantity
      ensures forall p | p in Of(side).levels :: -1 <= Of(side).levels[p].tail < |pool|
      ensures Quantities(Of(side).levels) == Sums(book.Of(side)) && Positive(Sums(book.Of(side)))
    {
      TailsInRange(pool, side, Of(side).levels, book.Of(side));
      LinkedQuantities(pool, BUY, bids.levels, book.bids);
      LinkedQuantities(pool, SELL, asks.levels, book.asks);
    }

    // The quantity an order of this side, limited to `worst`, would meet on the opposite side.
    method AvailableLiquidity(side: Side, worst: int) returns (total: int)
      requires Quoting()
      ensures var t, v := Opposite(side), View().Of(Opposite(side));
              && total == SeenDepth(t, v, worst) && 0 <= total <= Depth(t, v.quantities, worst)
              && (ExactSide(t, v) ==> (total == Depth(t, v.quantities, worst) <==> Shown(t, v, worst)))
              && (Plain(t, v) ==> total == Depth(t, v.quantities, worst))
    {
      DeliveredPositive(history);
      ghost var v := View().Of(Opposite(side));
      if Plain(Opposite(side), v) { PlainShows(Opposite(side), v, worst); }
      total := Of(Opposite(side)).AvailableLiquidity(worst);
    }

    // Matches an order that is not refused and, if it is a limit order, rests what is left of it.
    method MatchAndRest(side: Side, kind: OrderType, price: int, quantity: int) returns (fills: seq<Fill>)
      requires Valid() && 0 <= quantity && (kind == LIMIT ==> 0 < price < PRICE_LIMIT && nextIndex < TWO_31)
      modifies this`pool, this`history, this`inStep, this`book, this`nextIndex
      modifies bids, bids.ladder, bids.mask, asks, asks.ladder, asks.mask
      ensures Valid() && inStep == old(inStep)
      ensures (Ladder(), fills) == LadderSubmit(old(Ladder()), side, kind, price, quantity)
      ensures history == old(history) + Publishes(book, side, kind, price, quantity, fills)
    {
      hide Valid, BookSide.Valid, LadderMatch, LadderRest, Published, Volume, PlainSide;
      ghost var lb := Ladder();
      BookIsValid();
      SubmitLaws(lb, side, kind, price, quantity);
      var remaining;
      remaining, fills := MatchAll(side, kind, price, quantity);
      if remaining > 0 && kind == LIMIT {
        SameIndex();
        ghost var trades, was := fills, Ladder();
        var id := Rest(side, price, remaining);
        fills := fills + [Fill(id, 0, price)];
        assert fills[..|fills| - 1] == trades;
        RestsElsewhere(was, side, price, remaining);
      }
    }

    // Matches an incoming order and, if it is a limit order, rests what is left of it.  On every book it does what the
    // ladder's own sweep says (`LadderOrder`).  That is what the price-time book says exactly if the order is in sight:
    // on an exact side, if the scan reaches the next level wherever the order goes on.  A fill-or-kill order that is
    // not refused is filled completely exactly if the ladder's own chain of best prices reaches that far.
    method Submit(side: Side, kind: OrderType, price: int, quantity: int) returns (fills: seq<Fill>)
      requires Valid() && 0 <= quantity && (kind == LIMIT ==> 0 < price < PRICE_LIMIT && nextIndex < TWO_31)
      modifies this`pool, this`history, this`inStep, this`book, this`nextIndex
      modifies bids, bids.ladder, bids.mask, asks, asks.ladder, asks.mask
      ensures Valid() && inStep == old(inStep)
      ensures (Ladder(), fills) == LadderOrder(old(Ladder()), side, kind, price, quantity)
      ensures (book, fills) == Submitted(old(book), side, kind, price, quantity) <==>
              OrderInSight(old(Ladder()), side, kind, price, quantity)
      ensures ExactSide(Opposite(side), old(Ladder()).Shows(Opposite(side))) ==>
                ((book, fills) == Submitted(old(book), side, kind, price, quantity) <==>
                 OrderSighted(old(Ladder()), side, kind, price, quantity))
      ensures PlainSide(old(Ladder()), Opposite(side)) ==>
                (book, fills) == Submitted(old(book), side, kind, price, quantity)
      ensures FillTotal(fills) == if Passes(old(Ladder()), side, kind, price, quantity)
                                  then Least(quantity, OrderReach(old(Ladder()), side, kind, price)) else 0
      ensures var reach := OrderReach(old(Ladder()), side, kind, price);
              kind == FOK ==> (FillTotal(fills) in {0, quantity} <==>
                               !Passes(old(Ladder()), side, kind, price, quantity) || quantity <= reach || reach == 0)
      ensures var t, v := Opposite(side), old(Ladder()).Shows(Opposite(side));
              kind == FOK && ExactSide(t, v) && Shown(t, v, price) ==>
                (FillTotal(fills) in {0, quantity} <==>
                 Depth(t, v.quantities, price) < quantity || quantity <= OrderReach(old(Ladder()), side, kind, price))
      ensures 0 <= FillTotal(fills) <= quantity && Reported(kind, price, quantity, fills)
      ensures if kind == LIMIT && FillTotal(fills) < quantity
              then fills != [] && book.issued == old(book).issued + [fills[|fills| - 1].orderId]
              else book.issued == old(book).issued
      ensures Volume(book.Of(Opposite(side))) == Volume(old(book).Of(Opposite(side))) - FillTotal(fills)
      ensures Volume(book.Of(side)) ==
              Volume(old(book).Of(side)) + if kind == LIMIT then quantity - FillTotal(fills) else 0
      ensures history == old(history) + Publishes(book, side, kind, price, quantity, fills)
    {
      hide Valid, BookSide.Valid, LadderSubmit, Submitted, Depth, Volume, PlainSide, Published;
      hide OrderInSight, OrderSighted, OrderReach, Faced, ExactSide, Shown, SeenDepth;
      ghost var lb := Ladder();
      BookIsValid();
      ExactIsFaced(Opposite(side));
      OrderLaws(lb, side, kind, price, quantity);
      OrderAnswers(lb, side, kind, price, quantity);
      if kind == FOK {
        var liquidity := AvailableLiquidity(side, price);
        if liquidity < quantity {
          PublishesNothing(book, side, kind, price, quantity);
          return [];
        }
      }
      fills := MatchAndRest(side, kind, price, quantity);
    }

    // The window of a valid side has not run past its best price.
    lemma ExactIsFaced(side: Side)
      requires Valid()
      ensures ExactSide(side, Ladder().Shows(side)) <==> Faced(side, Ladder().Shows(side))
    {
      KeysAgree(side);
    }

    // What a valid book offers to the laws of the abstract machine.
    lemma BookIsValid()
      requires Valid()
      ensures Quoting() && nextIndex == book.NextIndex() && Sound(book.bids) && Sound(book.asks)
      ensures View() == BookView(Ladder().Shows(BUY), Ladder().Shows(SELL))
      ensures Legal(book.bids.Keys) && Legal(book.asks.Keys)
    {
      KeysAgree(BUY);
      KeysAgree(SELL);
    }

    lemma SameIndex()
      requires Valid()
      ensures nextIndex == book.NextIndex()
    {}

    lemma LegalSides()
      requires Quoting()
      ensures bids.Structured() && asks.Structured() && Legal(bids.levels.Keys) && Legal(asks.levels.Keys)
    {}

    // Relinks the neighbours of the order at index k, and updates its level.
    method Detach(k: int, level: PriceLevel) returns (v: PriceLevel)
      requires 0 <= k < |pool| && -1 <= pool[k].prev < |pool| && -1 <= pool[k].next < |pool|
      modifies this`pool
      ensures pool == Unlinked(old(pool), k) && v == LevelWithout(level, old(pool)[k])
    {
      var order := pool[k];
      pool := pool[k := pool[k].(active := false)];
      v := level.(quantity := level.quantity - order.quantity);
      if order.prev != -1 {
        pool := pool[order.prev := pool[order.prev].(next := order.next)];
      } else {
        v := v.(head := order.next);
      }
      if order.next != -1 {
        pool := pool[order.next := pool[order.next].(prev := order.prev)];
      } else {
        v := v.(tail := order.prev);
      }
    }

    // Takes the active order at an index out of its level.
    method Unlink(side: Side, price: int, k: int)
      requires Valid() && 0 <= k < |pool| && pool[k].active
      requires side == IdSide(pool[k].id) && price == IdPrice(pool[k].id) && k == IdIndex(pool[k].id)
      modifies this`pool, this`history, this`inStep, this`book, Of(side), Of(side).ladder, Of(side).mask
      ensures Valid() && history == old(history) + [Delta(side, price, Sum(QueueAt(book.Of(side), price)))]
      ensures (Ladder(), true) == LadderCancel(old(Ladder()), old(pool)[k].id)
      ensures inStep == (old(inStep) && !Silent(side, old(WindowOf(side)), price, Sum(QueueAt(book.Of(side), price))))
    {
      hide BookSide.Valid, Tracks, Quoting, AllQueued, SideLinked, Listed, Complete, OnlyLevel, Cancelled, NextBest;
      LegalSides();
      KeysAgree(side);
      ghost var i := OwnIdIsQueued(pool, bids.levels, asks.levels, book, pool[k].id);
      ghost var q, pool0, before := book.Of(side)[price], pool, View();
      assert Of(side).levels[price].price == price by { PricesMatch(side); }
      var level := Of(side).At(price);
      DetachKeeps(pool, side, level, q, i);
      var v := Detach(k, level);
      ghost var rest := q[..i] + q[i + 1..];
      ListedSum(pool, side, v, rest);
      Settle(side, v, pool0, rest);
      KeysAgree(side);
    }

    lemma PricesMatch(side: Side)
      requires Linked()
      ensures forall p | p in Of(side).levels :: Of(side).levels[p].price == p
    {}

    // An issued id is that of the order stored at its index, as long as the order is active.
    lemma IssuedOnce(id: int)
      requires Valid() && id in book.issued && IdIndex(id) < |pool| && pool[IdIndex(id)].active
      ensures pool[IdIndex(id)].id == id
    {
      var k := IdIndex(id);
      assert Known(pool[k], k, book.issued);
      var j :| 0 <= j < |book.issued| && book.issued[j] == id;
      assert IdIndex(book.issued[j]) == j + 1;
    }

    // An active order was issued, and its own id names its slab index.
    lemma ActiveIsIssued(k: int)
      requires Valid() && 0 <= k < |pool| && pool[k].active
      ensures pool[k].id in book.issued && IdIndex(pool[k].id) == k
      ensures -1 <= pool[k].prev < |pool| && -1 <= pool[k].next < |pool|
    {
      assert Known(pool[k], k, book.issued);
      LegalSides();
      var i := OwnIdIsQueued(pool, bids.levels, asks.levels, book, pool[k].id);
      var side, price := IdSide(pool[k].id), IdPrice(pool[k].id);
      var levels := if side == BUY then bids.levels else asks.levels;
      assert levels[price].price == price by { PricesMatch(side); }
      DetachKeeps(pool, side, levels[price], book.Of(side)[price], i);
    }

    // The code's test whether an id can be cancelled: its slab entry exists and is active.
    predicate Finds(id: int)
      reads this`pool
    {
      0 <= IdIndex(id) < |pool| && pool[IdIndex(id)].active
    }

    // Only levels have a quantity, and active orders have one.
    lemma EmptiedIsLevel(side: Side, price: int, k: int)
      requires Valid() && 0 <= k < |pool| && pool[k].active
      ensures Of(side).Valid() && Of(side).side == side
      ensures Of(side).At(price).quantity == pool[k].quantity ==> price in Of(side).levels
    {
      hide BookSide.Structured, BookSide.Pointed;
      KeysAgree(side);
      LegalSides();
      var id := pool[k].id;
      ActiveIsIssued(k);
      var i := OwnIdIsQueued(pool, bids.levels, asks.levels, book, id);
      QueuedIsStored(IdSide(id), IdPrice(id), i);
      assert PositiveQueue(book.Of(IdSide(id))[IdPrice(id)]) by { KeysAgree(IdSide(id)); }
    }

    // Takes the active order at an index out of the memory of a price it does not stand at.
    method TakeOut(side: Side, price: int, k: int)
      requires Valid() && 0 <= k < |pool| && pool[k].active
      modifies this`pool, this`history, Of(side), Of(side).ladder, Of(side).mask
      ensures |pool| == |old(pool)| && !pool[k].active
      ensures Of(side).ladder.Length == LADDER_DEPTH
      ensures var level := LevelWithout(old(Of(side).At(price)), old(pool)[k]);
              && history == old(history) + [Delta(side, price, level.quantity)]
              && if level.quantity != 0 then Of(side).Raw(price) == level
                 else View() == old(View()).With(side, StoreSide(side, old(View()).Of(side), price, 0))
    {
      hide Quoting, Linked, BookSide.Pointed, StoreSide;
      EmptiedIsLevel(side, price, k);
      ActiveIsIssued(k);
      var level := Of(side).At(price);
      var v := Detach(k, level);
      history := history + [Delta(side, price, v.quantity)];
      if v.quantity == 0 {
        Of(side).RemoveStale(price, v);
      } else {
        Of(side).WriteRaw(price, v);
      }
    }

    // Cancels by id, any id.  An id that was issued, or that finds no active order, is answered as the price-time
    // book says.  Any other id takes out the order its low bits hit, and lowers a level that is not that order's.
    method Cancel(id: int) returns (ok: bool)
      requires Valid()
      modifies this`pool, this`history, this`inStep, this`book
      modifies bids, bids.ladder, bids.mask, asks, asks.ladder, asks.mask
      ensures ok == old(Finds(id)) && book.issued == old(book).issued
      ensures id in old(book).issued || !ok ==> Valid() && (Ladder(), ok) == LadderCancel(old(Ladder()), id)
      ensures !ok ==> history == old(history) && pool == old(pool) && inStep == old(inStep) && View() == old(View())
      ensures id in old(book).issued && ok ==>
                var side, price := IdSide(id), IdPrice(id);
                var left := Sum(QueueAt(book.Of(side), price));
                && history == old(history) + [Delta(side, price, left)]
                && inStep == (old(inStep) && !Silent(side, old(WindowOf(side)), price, left))
      ensures id !in old(book).issued && ok ==>
                var side, price := IdSide(id), IdPrice(id);
                var order := old(pool)[IdIndex(id)];
                var level := LevelWithout(old(Of(side).At(price)), order);
                && |pool| == |old(pool)| && !pool[IdIndex(id)].active
                && history == old(history) + [Delta(side, price, level.quantity)]
                && (if level.quantity != 0 then Of(side).Raw(price) == level
                    else View() == old(View()).With(side, StoreSide(side, old(View()).Of(side), price, 0)))
    {
      hide BookSide.Valid, Tracks, BookLinked, Quoting, Cancelled;
      var side, price, orderIndex := IdSide(id), IdPrice(id), IdIndex(id);
      if orderIndex >= |pool| {
        NotQueuedHere(id);
        return false;
      }
      if !pool[orderIndex].active {
        NotQueuedHere(id);
        return false;
      }
      ActiveIsIssued(orderIndex);
      CancelKeepsIssued(book, id);
      if pool[orderIndex].id == id {
        Unlink(side, price, orderIndex);
      } else {
        if id in book.issued { IssuedOnce(id); }
        TakeOut(side, price, orderIndex);
      }
      return true;
    }

    lemma NotQueuedHere(id: int)
      requires Valid() && (IdIndex(id) >= |pool| || !pool[IdIndex(id)].active)
      ensures Cancelled(book, id) == (book, false) && !Finds(id)
    {
      NotQueued(pool, bids.levels, asks.levels, book, id);
    }

    // The code's answer is the price-time book's exactly for the ids that were issued or find no active order.
    lemma CancelAnswers(id: int)
      requires Valid() && -TWO_63 <= id < TWO_63
      ensures Finds(id) == Cancelled(book, id).1 <==> id in book.issued || !Finds(id)
    {
      if !Finds(id) {
        NotQueuedHere(id);
      } else {
        var k := IdIndex(id);
        ActiveIsIssued(k);
        LegalSides();
        if id in book.issued {
          IssuedOnce(id);
          var i := OwnIdIsQueued(pool, bids.levels, asks.levels, book, id);
        } else {
          ForgedIsNotQueued(id);
        }
      }
    }

    // A queued order has the id that its side, price and index make up.
    lemma ForgedIsNotQueued(id: int)
      requires Valid() && -TWO_63 <= id < TWO_63 && Finds(id) && id !in book.issued
      ensures !Queued(book.Of(IdSide(id)), IdPrice(id), IdIndex(id))
    {
      var side, price, k := IdSide(id), IdPrice(id), IdIndex(id);
      ActiveIsIssued(k);
      IdsAreMade(id);
      if Queued(book.Of(side), price, k) {
        var qs: Queues := book.Of(side);
        var i :| 0 <= i < |qs[price]| && qs[price][i].index == k;
        QueuedIsMade(pool, bids.levels, asks.levels, book, side, price, i);
      }
    }

    // `get_quantity_at_price`
    method GetQuantityAtPrice(side: Side, price: int) returns (quantity: int)
      requires Quoting()
      ensures var m := DeliverAll(history).Of(side).quantities; quantity == if price in m then m[price] else 0
    {
      LegalSides();
      quantity := Of(side).At(price).quantity;
    }

    // `get_snapshot`: of each exact side, its best levels in priority order exactly if the walk is straight; on a plain
    // side it is.
    method GetSnapshot(maxLevels: int) returns (bidList: seq<SnapshotLevel>, askList: seq<SnapshotLevel>)
      requires Quoting()
      ensures |bidList| <= LevelCap(maxLevels) && |askList| <= LevelCap(maxLevels)
      ensures var n := |DeliverAll(history).bids.quantities|;
              ExactSide(BUY, View().bids) ==>
                |bidList| == if maxLevels <= 0 then 0 else if n <= maxLevels then n else maxLevels
      ensures var n := |DeliverAll(history).asks.quantities|;
              ExactSide(SELL, View().asks) ==>
                |askList| == if maxLevels <= 0 then 0 else if n <= maxLevels then n else maxLevels
      ensures ListsTop(BUY, View().bids, DeliverAll(history).bids.quantities, bidList, LevelCap(maxLevels))
      ensures ListsTop(SELL, View().asks, DeliverAll(history).asks.quantities, askList, LevelCap(maxLevels))
    {
      hide BookSide.Valid, TopLevels, Lists, InOrder, Straight, PriceSet, ListsTop;
      bidList := bids.Snapshot(maxLevels);
      askList := asks.Snapshot(maxLevels);
      ghost var cap := LevelCap(maxLevels);
      SnapshotIsTop(bids, bidList, PriceSet(bidList), cap);
      SnapshotIsTop(asks, askList, PriceSet(askList), cap);
    }

    lemma SnapshotIsTop(s: BookSide, list: seq<SnapshotLevel>, taken: set<int>, cap: nat)
      requires s.Valid() && Lists(s.levels, list, taken) && taken == PriceSet(list) && |list| <= cap
      requires s.Exact() ==> |list| == cap || taken == s.levels.Keys
      requires s.Exact() ==> (InOrder(s.side, s.levels, list, taken) <==>
                              cap == 0 || Straight(s.side, s.lower, s.best, s.levels.Keys))
      ensures ListsTop(s.side, s.View(), Quantities(s.levels), list, cap)
    {
      hide InOrder, TopLevels, Lists, PriceSet;
      if s.Exact() {
        if InOrder(s.side, s.levels, list, taken) { OrderedIsTop(s.side, s.levels, list, taken, cap); }
        if list == TopLevels(s.side, Quantities(s.levels), cap) { TopIsOrdered(s.side, s.levels, list, cap); }
        if Plain(s.side, s.View()) { SeparatedIsStraight(s.side, s.lower, s.best, s.levels.Keys); }
      }
    }

    // A queued order stands in its slab entry.
    lemma QueuedIsStored(side: Side, price: int, i: int)
      requires Valid() && price in book.Of(side) && 0 <= i < |book.Of(side)[price]|
      ensures var r := book.Of(side)[price][i];
              && 0 <= r.index < |pool| && pool[r.index].active && pool[r.index].quantity == r.quantity
    {
      var q := book.Of(side)[price];
      assert Listed(pool, side, Of(side).levels[price], q);
      assert EntryAt(pool, side, price, q, i);
    }

    // A separated history leaves both sides plain, on a venue and on a mirror.
    lemma SeparatedHistory()
      requires Quoting() && SeparatedRun(history)
      ensures inStep && Plain(BUY, View().bids) && Plain(SELL, View().asks)
    {
      SeparatedIsPlain(history);
    }

    // A mirror takes in one published level change, and stays in step.
    method ApplyDelta(d: Delta)
      requires Quoting() && LegalDelta(d)
      modifies this`history, Of(d.side), Of(d.side).ladder, Of(d.side).mask
      ensures Quoting() && history == old(history) + [d]
      ensures View() == Deliver(old(View()), d)
    {
      hide BookSide.Valid, Tracks, DeliverSide;
      ghost var before := View();
      Of(d.side).ApplyDelta(d.price, d.quantity);
      DeliverTracks(before, history, inStep, d);
      history := history + [d];
    }
  }

  // A fresh book fed a history of deltas, in order, shows what the history alone implies, whatever it is.
  method Replay(deltas: seq<Delta>) returns (mirror: LimitOrderBook)
    requires LegalHistory(deltas)
    ensures fresh(mirror) && mirror.Quoting() && mirror.history == deltas
    ensures mirror.inStep && mirror.View() == DeliverAll(deltas)
  {
    hide LimitOrderBook.Quoting, DeliverAll;
    mirror := new LimitOrderBook(0);
    for i := 0 to |deltas|
      invariant fresh(mirror) && fresh(mirror.bids) && fresh(mirror.bids.ladder) && fresh(mirror.bids.mask)
      invariant fresh(mirror.asks) && fresh(mirror.asks.ladder) && fresh(mirror.asks.mask)
      invariant mirror.Quoting() && mirror.history == deltas[..i] && mirror.inStep
    {
      mirror.ApplyDelta(deltas[i]);
    }
    ShowsHistory(mirror);
    assert deltas[..|deltas|] == deltas;
  }

  lemma ShowsHistory(b: LimitOrderBook)
    requires b.Quoting() && b.inStep
    ensures b.View() == DeliverAll(b.history)
  {}

  // Two books with the same history show the same quantities; in step with it, the same best prices and
  // windows, and the same occupied slots, too.
  lemma SameHistorySameBook(venue: LimitOrderBook, mirror: LimitOrderBook, side: Side)
    requires venue.Quoting() && mirror.Quoting() && venue.history == mirror.history
    ensures venue.View().Quotes() == mirror.View().Quotes()
    ensures venue.inStep && mirror.inStep ==>
              && venue.View() == mirror.View()
              && forall w, j | 0 <= w < 4 && 0 <= j < 64 :: venue.Of(side).mask[w][j] == mirror.Of(side).mask[w][j]
  {
    if venue.inStep && mirror.inStep {
      SameMarks(venue.Of(side).Repr(), venue.Of(side).levels, mirror.Of(side).Repr(), mirror.Of(side).levels);
    }
  }
}
