/** Runs of the book that show what its conditions are for: a level the scan loses, a fill-or-kill order filled in part,
    a cancellation by an id nobody issued, and a venue that falls out of step with its mirror.  */
module Witnesses {
  import opened BookLaws
  import opened Deltas
  import opened Ladder
  import opened LadderSweeps
  import opened LimitOrderBooks
  import opened Liquidities
  import opened MarketTypes
  import opened OrderIds
  import opened OrderedKeys
  import opened PriceTimeBook
  import opened Scans
  import opened Sessions
  import opened Sightings
  import opened Totals

  lemma NotRefused(lb: LadderBook, side: Side, kind: OrderType, price: int, quantity: int)
    requires kind != FOK
    ensures LadderOrder(lb, side, kind, price, quantity) == LadderSubmit(lb, side, kind, price, quantity)
  {}

  // An order that meets nothing rests.
  lemma OrderRests(lb: LadderBook, side: Side, price: int, quantity: int)
    requires lb.WindowOf(Opposite(side)).best !in lb.book.Of(Opposite(side)) && 0 < quantity
    ensures LadderSubmit(lb, side, LIMIT, price, quantity) ==
            (LadderRest(lb, side, price, quantity), [Fill(MakeId(side, price, lb.book.NextIndex()), 0, price)])
  {
    assert LadderMatch(lb, side, LIMIT, price, quantity) == (lb, quantity, []);
    var none: seq<Fill> := [];
    assert none + [Fill(MakeId(side, price, lb.book.NextIndex()), 0, price)] ==
           [Fill(MakeId(side, price, lb.book.NextIndex()), 0, price)];
  }

  // A single order at the best price is taken, and the next best price is looked for.
  lemma TakesOne(kind: OrderType, limit: int, w: Window, qs: Queues, want: int, n: int)
    requires 1 <= want && w.best in qs && qs[w.best] == [Resting(n, 1)] && Admits(BUY, kind, limit, w.best)
    ensures var left := qs - {w.best};
            && LadderSweep(BUY, kind, limit, w, qs, want) ==
               FirstThen(Fill(-1, 1, w.best),
                         LadderSweep(BUY, kind, limit, AfterBest(SELL, w, left.Keys), left, want - 1))
            && LadderWindow(BUY, kind, limit, w, qs, want) ==
               LadderWindow(BUY, kind, limit, AfterBest(SELL, w, left.Keys), left, want - 1)
  {
    assert qs[w.best][1..] == [];
    assert MatchQueue(qs[w.best], want) == ([], want - 1);
  }

  // After 100 comes 227, and the window moves up to 202.
  lemma NextIs227(prices: set<int>)
    requires prices == {227, 455}
    ensures AfterBest(SELL, Window(0, 100), prices) == Window(202, 227)
  {
    NextBestVerdict(SELL, 0, 100, prices);
    assert 227 in prices && 455 in prices && Block(227) == 3 && Block(100) == 1;
    var best := NextBest(SELL, 0, 100, prices);
    assert IsBest(SELL, best, prices);
  }

  // After 227 comes nothing, although there is 455.
  lemma NextIsLost(prices: set<int>)
    requires prices == {455}
    ensures AfterBest(SELL, Window(202, 227), prices) == Window(202, NO_ASK)
  {
    NextBestVerdict(SELL, 202, 227, prices);
    assert 455 in prices && Block(455) == 7 && Block(227) == 3;
    assert IsBest(SELL, 455, prices) && !Reaches(SELL, 202, 227, prices);
  }

  // Buying at most two shares through the sells at 100 and 227 loses the level at 455, whatever it holds.
  lemma SweepLoses(kind: OrderType, limit: int, qs: Queues, want: int)
    requires qs.Keys == {100, 227, 455} && qs[100] == [Resting(1, 1)] && qs[227] == [Resting(2, 1)]
    requires 2 <= want && Admits(BUY, kind, limit, 100) && Admits(BUY, kind, limit, 227)
    ensures var left := qs - {100} - {227};
            && left.Keys == {455} && left[455] == qs[455]
            && LadderSweep(BUY, kind, limit, Window(0, 100), qs, want) ==
               Swept(left, want - 2, [Fill(-1, 1, 100), Fill(-1, 1, 227)])
            && LadderWindow(BUY, kind, limit, Window(0, 100), qs, want) == Window(202, NO_ASK)
  {
    var one := qs - {100};
    var two := one - {227};
    forall p | p in one.Keys ensures p in {227, 455} {}
    assert one.Keys == {227, 455};
    forall p | p in two.Keys ensures p in {455} {}
    assert two.Keys == {455};
    NextIs227(one.Keys);
    NextIsLost(two.Keys);
    TakesOne(kind, limit, Window(0, 100), qs, want, 1);
    TakesOne(kind, limit, Window(202, 227), one, want - 1, 2);
    assert NO_ASK !in two;
    assert LadderSweep(BUY, kind, limit, Window(202, NO_ASK), two, want - 2) == Swept(two, want - 2, []);
  }

  // One share offered to a book without orders on the other side rests.
  method Offer(b: LimitOrderBook, side: Side, price: int)
    requires b.Valid() && b.inStep && 0 < price < PRICE_LIMIT && b.nextIndex < TWO_31
    requires b.book.Of(Opposite(side)) == map[]
    modifies b, b.bids, b.bids.ladder, b.bids.mask, b.asks, b.asks.ladder, b.asks.mask
    ensures b.Valid() && b.inStep && b.Ladder() == LadderRest(old(b.Ladder()), side, price, 1)
    ensures b.nextIndex == b.book.NextIndex()
    ensures b.history == old(b.history) + [Delta(side, price, Sum(QueueAt(b.book.Of(side), price)))]
  {
    hide LimitOrderBook.Valid, LadderSubmit, LadderRest;
    hide OrderInSight, OrderSighted, OrderReach, LadderOrder, Passes, ExactSide, Shown, PlainSide;
    OrderRests(b.Ladder(), side, price, 1);
    NotRefused(b.Ladder(), side, LIMIT, price, 1);
    var f := b.Submit(side, LIMIT, price, 1);
    RestPublishes(b.book, side, price, 1, f[0]);
    b.BookIsValid();
  }

  lemma RestPublishes(b: Book, side: Side, price: int, quantity: int, rested: Fill)
    requires rested.quantity == 0 && 0 < quantity
    ensures Publishes(b, side, LIMIT, price, quantity, [rested]) ==
              [Delta(side, price, Sum(QueueAt(b.Of(side), price)))]
  {
    assert FillTotal([rested]) == 0 && [rested][..0] == [];
    assert Published(Opposite(side), [], b.Of(Opposite(side))) == [];
  }

  function Offered(side: Side, prices: seq<int>): LadderBook {
    if prices == [] then FRESH else LadderRest(Offered(side, prices[..|prices| - 1]), side, prices[|prices| - 1], 1)
  }

  // ... which publishes the quantity each of them makes at its price.
  function OfferDeltas(side: Side, prices: seq<int>): seq<Delta> {
    if prices == [] then []
    else
      var price := prices[|prices| - 1];
      OfferDeltas(side, prices[..|prices| - 1])
      + [Delta(side, price, Sum(QueueAt(Offered(side, prices).book.Of(side), price)))]
  }

  // Orders of one share each, all of one side, as a client sends them.
  method Offers(side: Side, prices: seq<int>) returns (b: LimitOrderBook)
    requires |prices| < TWO_31 - 1 && forall i | 0 <= i < |prices| :: 0 < prices[i] < PRICE_LIMIT
    ensures fresh(b) && fresh(b.bids) && fresh(b.bids.ladder) && fresh(b.bids.mask)
    ensures fresh(b.asks) && fresh(b.asks.ladder) && fresh(b.asks.mask)
    ensures b.Valid() && b.inStep && b.Ladder() == Offered(side, prices) && b.history == OfferDeltas(side, prices)
  {
    hide LimitOrderBook.Valid, LadderRest;
    b := new LimitOrderBook(0);
    b.BookIsValid();
    for i := 0 to |prices|
      invariant fresh(b) && fresh(b.bids) && fresh(b.bids.ladder) && fresh(b.bids.mask)
      invariant fresh(b.asks) && fresh(b.asks.ladder) && fresh(b.asks.mask)
      invariant b.Valid() && b.inStep && b.Ladder() == Offered(side, prices[..i])
      invariant b.nextIndex == b.book.NextIndex() == i + 1 && b.history == OfferDeltas(side, prices[..i])
      invariant b.book.Of(Opposite(side)) == map[]
    {
      assert prices[..i + 1][..i] == prices[..i];
      ghost var lb := b.Ladder();
      Offer(b, side, prices[i]);
      RestKeepsOther(lb, side, prices[i]);
    }
    assert prices[..|prices|] == prices;
  }

  lemma RestKeepsOther(lb: LadderBook, side: Side, price: int)
    ensures var b := LadderRest(lb, side, price, 1).book;
            b.Of(Opposite(side)) == lb.book.Of(Opposite(side)) && b.NextIndex() == lb.book.NextIndex() + 1
  {}

  // The sells at 100, 227 and 455, with a second one at 455 or without.
  const TWO_SELLS: Queues := map[100 := [Resting(1, 1)], 227 := [Resting(2, 1)]]
  const THREE_SELLS: Queues := TWO_SELLS[455 := [Resting(3, 1)]]
  const FOUR_SELLS: Queues := TWO_SELLS[455 := [Resting(3, 1), Resting(4, 1)]]

  lemma Joins(qs: Queues, price: int, n: int)
    ensures price !in qs ==> Join(qs, price, Resting(n, 1)) == qs[price := [Resting(n, 1)]]
    ensures price in qs ==> Join(qs, price, Resting(n, 1)) == qs[price := qs[price] + [Resting(n, 1)]]
  {
    var none: Queue := [];
    assert none + [Resting(n, 1)] == [Resting(n, 1)];
  }

  lemma OffersStand()
    ensures Offered(SELL, [100, 227, 455]).book.asks == THREE_SELLS
    ensures Offered(SELL, [100, 227, 455, 455]).book.asks == FOUR_SELLS
    ensures Offered(SELL, [100]).book.asks == map[100 := [Resting(1, 1)]]
    ensures Offered(SELL, [100, 227]).book.asks == TWO_SELLS
    ensures Offered(SELL, [100, 227, 455]).asks == Window(0, 100) == Offered(SELL, [100, 227, 455, 455]).asks
    ensures Offered(SELL, [100, 227, 455, 455]).book.NextIndex() == 5
    ensures MakeId(SELL, 455, 4) in Offered(SELL, [100, 227, 455, 455]).book.issued
  {
    hide Join;
    var one: Queues := map[100 := [Resting(1, 1)]];
    assert [100][..0] == [] && [100, 227][..1] == [100] && [100, 227, 455][..2] == [100, 227];
    assert [100, 227, 455, 455][..3] == [100, 227, 455];
    Joins(map[], 100, 1);
    assert Offered(SELL, [100]).book.asks == one && Offered(SELL, [100]).asks == Window(0, 100);
    Joins(one, 227, 2);
    assert Offered(SELL, [100, 227]).book.asks == TWO_SELLS;
    Joins(TWO_SELLS, 455, 3);
    Joins(THREE_SELLS, 455, 4);
    assert [Resting(3, 1)] + [Resting(4, 1)] == [Resting(3, 1), Resting(4, 1)];
    assert THREE_SELLS[455 := FOUR_SELLS[455]] == FOUR_SELLS;
  }

  // A buy that is not to rest and wants at least two shares gets the two at 100 and 227 and no more.
  lemma BuyLoses(lb: LadderBook, kind: OrderType, limit: int, want: int)
    requires lb.book.asks == THREE_SELLS || lb.book.asks == FOUR_SELLS
    requires lb.asks == Window(0, 100) && 2 <= want && (kind == MARKET || (kind != LIMIT && 455 <= limit))
    ensures var lost := LadderBook(lb.book.(asks := lb.book.asks - {100} - {227}), lb.bids, Window(202, NO_ASK));
            LadderSubmit(lb, BUY, kind, limit, want) == (lost, [Fill(-1, 1, 100), Fill(-1, 1, 227)])
  {
    forall p | p in lb.book.asks.Keys ensures p in {100, 227, 455} {}
    assert lb.book.asks.Keys == {100, 227, 455};
    SweepLoses(kind, limit, lb.book.asks, want);
  }

  // A level the scan loses: after 100 and 227 are sold out the book offers nothing, although 455 stands.
  method HiddenLevel() returns (b: LimitOrderBook, first: seq<Fill>, second: seq<Fill>)
    ensures b.Valid() && b.asks.best == NO_ASK && b.book.asks == map[455 := [Resting(3, 1)]]
    ensures first == [Fill(-1, 1, 100), Fill(-1, 1, 227)] && second == []
    ensures Submitted(b.book, BUY, MARKET, 0, 1).1 == [Fill(-1, 1, 455)]
  {
    hide LimitOrderBook.Valid, LadderSubmit, Submitted, Offered;
    hide OrderInSight, OrderSighted, OrderReach, LadderOrder, Passes, ExactSide, Shown, PlainSide;
    b := Offers(SELL, [100, 227, 455]);
    OffersStand();
    BuyLoses(b.Ladder(), MARKET, 0, 2);
    NotRefused(b.Ladder(), BUY, MARKET, 0, 2);
    first := b.Submit(BUY, MARKET, 0, 2);
    LeftAt455(b.Ladder());
    NotRefused(b.Ladder(), BUY, MARKET, 0, 1);
    second := b.Submit(BUY, MARKET, 0, 1);
  }

  lemma LeftAt455(lb: LadderBook)
    requires lb.book.asks == THREE_SELLS - {100} - {227} && lb.asks == Window(202, NO_ASK)
    ensures lb.book.asks == map[455 := [Resting(3, 1)]]
    ensures LadderSubmit(lb, BUY, MARKET, 0, 1) == (lb, [])
    ensures Submitted(lb.book, BUY, MARKET, 0, 1).1 == [Fill(-1, 1, 455)]
  {
    var qs: Queues := map[455 := [Resting(3, 1)]];
    assert lb.book.asks == qs && NO_ASK !in qs;
    assert First(SELL, qs.Keys) == Some(455) by { assert 455 in qs.Keys; }
    assert MatchQueue(qs[455], 1) == ([], 0) by { assert qs[455][1..] == []; }
    assert Sweep(BUY, MARKET, 0, qs, 1) == FirstThen(Fill(-1, 1, 455), Sweep(BUY, MARKET, 0, qs - {455}, 0));
  }

  // Levels 200 ticks apart are not separated, and yet a buy that takes the first and goes on to the second is in sight:
  // the window holds nothing else, and the second is the first level beyond it.
  lemma FarButSighted(lb: LadderBook)
    requires lb.book == Book(map[], map[100 := [Resting(1, 1)], 300 := [Resting(2, 1)]], [])
    requires lb.asks == Window(0, 100)
    ensures !PlainSide(lb, SELL) && Faced(SELL, lb.Shows(SELL)) && OrderSighted(lb, BUY, MARKET, 0, 2)
  {
    var qs := lb.book.asks;
    var one := qs - {100};
    forall p | p in qs.Keys ensures p in {100, 300} {}
    assert 100 in qs.Keys && 300 in qs.Keys;
    forall p | p in one.Keys ensures p in {300} {}
    assert one.Keys == {300};
    assert qs[100][1..] == [] && MatchQueue(qs[100], 2) == ([], 1);
    assert Reaches(SELL, 0, 100, one.Keys);
    assert SideOf(lb.asks, qs).quantities.Keys == qs.Keys;
    ReachesExactly(SELL, lb.asks, qs);
    var w := AfterBest(SELL, lb.asks, one.Keys);
    assert w.best == 300;
    assert one[300][1..] == [] && MatchQueue(one[300], 1) == ([], 0);
    assert Sighted(BUY, MARKET, 0, w, one, 1);
  }

  // A fill-or-kill order that passes the liquidity test and is filled in part.
  method FillOrKillInPart() returns (b: LimitOrderBook, fills: seq<Fill>)
    ensures b.Valid() && fills == [Fill(-1, 1, 100), Fill(-1, 1, 227)]
    ensures Submitted(Offered(SELL, [100, 227, 455]).book, BUY, FOK, 455, 3).1 ==
            [Fill(-1, 1, 100), Fill(-1, 1, 227), Fill(-1, 1, 455)]
  {
    hide LimitOrderBook.Valid, LadderSubmit, Submitted, Offered, Passes;
    hide OrderInSight, OrderSighted, OrderReach, ExactSide, Shown, PlainSide;
    b := Offers(SELL, [100, 227, 455]);
    OffersStand();
    BuyLoses(b.Ladder(), FOK, 455, 3);
    ThreeStand(b.Ladder());
    fills := b.Submit(BUY, FOK, 455, 3);
  }

  lemma ThreeStand(lb: LadderBook)
    requires lb.book.asks == THREE_SELLS && lb.asks == Window(0, 100)
    ensures Passes(lb, BUY, FOK, 455, 3)
    ensures Submitted(lb.book, BUY, FOK, 455, 3).1 == [Fill(-1, 1, 100), Fill(-1, 1, 227), Fill(-1, 1, 455)]
  {
    hide Sweep;
    forall p | p in THREE_SELLS.Keys ensures p in {100, 227, 455} {}
    assert THREE_SELLS.Keys == {100, 227, 455};
    DepthIsThree(Sums(THREE_SELLS));
    assert Sum([Resting(1, 1)]) == Sum([Resting(2, 1)]) == Sum([Resting(3, 1)]) == 1;
    FoundExactly(SELL, 0, 100, Sums(THREE_SELLS), 455);
    SweepOfThree();
  }

  lemma SweepOfThree()
    ensures var s := Sweep(BUY, FOK, 455, THREE_SELLS, 3);
            s.want == 0 && s.fills == [Fill(-1, 1, 100), Fill(-1, 1, 227), Fill(-1, 1, 455)]
  {
    var two := THREE_SELLS - {100};
    var one := two - {227};
    forall p | p in two.Keys ensures p in {227, 455} {}
    assert two.Keys == {227, 455};
    forall p | p in one.Keys ensures p in {455} {}
    assert one.Keys == {455};
    Clears(THREE_SELLS, 100, 1, 3);
    Clears(two, 227, 2, 2);
    Clears(one, 455, 3, 1);
  }

  // One turn of the sweep of a fill-or-kill buy at 455 through single shares.
  lemma Clears(qs: Queues, p: int, n: int, want: int)
    requires p in qs && qs[p] == [Resting(n, 1)] && IsBest(SELL, p, qs.Keys) && p <= 455 && 1 <= want
    ensures Sweep(BUY, FOK, 455, qs, want) == FirstThen(Fill(-1, 1, p), Sweep(BUY, FOK, 455, qs - {p}, want - 1))
  {
    assert qs[p][1..] == [];
    assert MatchQueue(qs[p], want) == ([], want - 1);
    BestIsUnique(SELL, p, qs.Keys);
  }

  lemma DepthIsThree(m: map<int, int>)
    requires m.Keys == {100, 227, 455} && m[100] == m[227] == m[455] == 1
    ensures Depth(SELL, m, 455) == 3
  {
    assert 100 in m.Keys && 227 in m.Keys && 455 in m.Keys;
    assert Eligible(SELL, m, 455) == {100} + {227} + {455};
    assert Total(m, {}) == 0 && {} + {100} == {100};
    TotalAdd(m, {}, 100);
    TotalAdd(m, {100}, 227);
    TotalAdd(m, {100} + {227}, 455);
  }

  lemma DeltasOfOffers()
    ensures OfferDeltas(SELL, [100, 227, 455, 455]) ==
            [Delta(SELL, 100, 1), Delta(SELL, 227, 1), Delta(SELL, 455, 1), Delta(SELL, 455, 2)]
  {
    hide Offered, Join;
    OffersStand();
    assert [100][..0] == [] && [100, 227][..1] == [100] && [100, 227, 455][..2] == [100, 227];
    assert [100, 227, 455, 455][..3] == [100, 227, 455];
    assert Sum([Resting(1, 1)]) == Sum([Resting(2, 1)]) == Sum([Resting(3, 1)]) == 1;
    assert [Resting(3, 1), Resting(4, 1)][1..] == [Resting(4, 1)] && Sum([Resting(4, 1)]) == 1;
    assert OfferDeltas(SELL, [100]) == [Delta(SELL, 100, 1)];
    assert OfferDeltas(SELL, [100, 227]) == [Delta(SELL, 100, 1), Delta(SELL, 227, 1)];
    assert OfferDeltas(SELL, [100, 227, 455]) == [Delta(SELL, 100, 1), Delta(SELL, 227, 1), Delta(SELL, 455, 1)];
  }

  // A bid for ten at 100, under slab index 1.
  method OneBid() returns (b: LimitOrderBook)
    ensures fresh(b) && fresh(b.bids) && fresh(b.bids.ladder) && fresh(b.bids.mask)
    ensures fresh(b.asks) && fresh(b.asks.ladder) && fresh(b.asks.mask)
    ensures b.Valid() && b.history == [Delta(BUY, 100, 10)]
    ensures b.book == Book(map[100 := [Resting(1, 10)]], map[], [MakeId(BUY, 100, 1)])
  {
    hide LimitOrderBook.Valid, LadderSubmit, LadderRest;
    hide OrderInSight, OrderSighted, OrderReach, LadderOrder, Passes, ExactSide, Shown, PlainSide;
    b := new LimitOrderBook(0);
    b.BookIsValid();
    BuyRests(b.Ladder());
    NotRefused(b.Ladder(), BUY, LIMIT, 100, 10);
    var fills := b.Submit(BUY, LIMIT, 100, 10);
    RestPublishes(b.book, BUY, 100, 10, fills[0]);
  }

  // A cancellation by an id nobody issued takes out another client's order and publishes a negative quantity,
  // where the price-time book finds nothing to cancel.
  method ForgedCancel() returns (b: LimitOrderBook, ok: bool, ghost book: Book)
    ensures book == Book(map[100 := [Resting(1, 10)]], map[], [MakeId(BUY, 100, 1)])
    ensures Cancelled(book, 1) == (book, false)
    ensures ok && b.history == [Delta(BUY, 100, 10), Delta(BUY, 0, -10)] && !b.Finds(MakeId(BUY, 100, 1))
  {
    hide LimitOrderBook.Valid;
    b := OneBid();
    book := b.book;
    NoLevelAtZero(b);
    ok := b.Cancel(1);
    assert IdIndex(MakeId(BUY, 100, 1)) == 1;
  }

  lemma NoLevelAtZero(b: LimitOrderBook)
    requires b.Valid() && b.book == Book(map[100 := [Resting(1, 10)]], map[], [MakeId(BUY, 100, 1)])
    ensures b.bids.Structured() && b.bids.At(0).quantity == 0
    ensures b.Finds(1) && b.pool[1].quantity == 10
    ensures MakeId(BUY, 100, 1) != 1 && IdSide(1) == BUY && IdPrice(1) == 0 && IdIndex(1) == 1
    ensures Cancelled(b.book, 1) == (b.book, false)
  {
    hide LimitOrderBook.Linked, LimitOrderBook.Quoting;
    b.KeysAgree(BUY);
    b.LegalSides();
    b.QueuedIsStored(BUY, 100, 0);
    assert 0 !in b.book.bids.Keys;
  }

  lemma BuyRests(lb: LadderBook)
    requires lb == FRESH
    ensures LadderSubmit(lb, BUY, LIMIT, 100, 10) ==
            (LadderRest(lb, BUY, 100, 10), [Fill(MakeId(BUY, 100, 1), 0, 100)])
    ensures var b := LadderRest(lb, BUY, 100, 10).book;
            b == Book(map[100 := [Resting(1, 10)]], map[], [MakeId(BUY, 100, 1)])
            && b.Of(BUY)[100] == [Resting(1, 10)]
  {
    OrderRests(lb, BUY, 100, 10);
    var none: Queue := [];
    assert none + [Resting(1, 10)] == [Resting(1, 10)];
  }

  // What is left of the asks once 100 and 227 are gone.
  function TwiceAt455(): Queues {
    FOUR_SELLS - {100} - {227}
  }

  // A venue whose scan has lost the two sells at 455.
  method SoldOut() returns (venue: LimitOrderBook)
    ensures fresh(venue) && fresh(venue.bids) && fresh(venue.bids.ladder) && fresh(venue.bids.mask)
    ensures fresh(venue.asks) && fresh(venue.asks.ladder) && fresh(venue.asks.mask)
    ensures venue.Valid() && venue.inStep && venue.asks.best == NO_ASK && venue.asks.lower == 202
    ensures venue.book.asks == TwiceAt455() && MakeId(SELL, 455, 4) in venue.book.issued
    ensures venue.history == [Delta(SELL, 100, 1), Delta(SELL, 227, 1), Delta(SELL, 455, 1), Delta(SELL, 455, 2),
                              Delta(SELL, 100, 0), Delta(SELL, 227, 0)]
  {
    hide LimitOrderBook.Valid, LadderSubmit, Offered, OfferDeltas, TwiceAt455, Publishes;
    hide OrderInSight, OrderSighted, OrderReach, LadderOrder, Passes, ExactSide, Shown, PlainSide;
    venue := Offers(SELL, [100, 227, 455, 455]);
    OffersStand();
    DeltasOfOffers();
    BuyLoses(venue.Ladder(), MARKET, 0, 2);
    NotRefused(venue.Ladder(), BUY, MARKET, 0, 2);
    var fills := venue.Submit(BUY, MARKET, 0, 2);
    BuyPublishes(venue.book);
  }

  lemma BuyPublishes(b: Book)
    requires b.asks == FOUR_SELLS - {100} - {227}
    ensures b.asks == TwiceAt455()
    ensures Publishes(b, BUY, MARKET, 0, 2, [Fill(-1, 1, 100), Fill(-1, 1, 227)]) ==
            [Delta(SELL, 100, 0), Delta(SELL, 227, 0)]
  {}

  // ... and then is asked to cancel one of them: it stays without a best ask.
  method OutOfStep() returns (venue: LimitOrderBook)
    ensures venue.Valid() && !venue.inStep && venue.asks.best == NO_ASK
    ensures venue.history == DIVERGING && DeliverAll(DIVERGING).asks.window.best == 455
  {
    hide LimitOrderBook.Valid, LimitOrderBook.Quoting, LadderCancel, Cancelled, DeliverAll, Deliver, Silent, TwiceAt455;
    venue := SoldOut();
    ghost var before, history := venue.View(), venue.history;
    venue.BookIsValid();
    ShowsHistory(venue);
    CancelsOneOfTwo(venue.Ladder());
    var ok := venue.Cancel(MakeId(SELL, 455, 4));
    Append(history, Delta(SELL, 455, 1));
    FollowsAnyImprovement(before, Delta(SELL, 455, 1));
  }

  const DIVERGING := [Delta(SELL, 100, 1), Delta(SELL, 227, 1), Delta(SELL, 455, 1), Delta(SELL, 455, 2),
                      Delta(SELL, 100, 0), Delta(SELL, 227, 0), Delta(SELL, 455, 1)]

  // A venue and its mirror that disagree: with the same history, the venue has no best ask and the mirror has one.
  method Diverges() returns (venue: LimitOrderBook, mirror: LimitOrderBook)
    ensures venue.Valid() && mirror.Quoting() && venue.history == mirror.history
    ensures !venue.inStep && venue.asks.best == NO_ASK && mirror.inStep && mirror.asks.best == 455
  {
    hide LimitOrderBook.Valid, LimitOrderBook.Quoting, DeliverAll;
    venue := OutOfStep();
    mirror := Replay(DIVERGING);
  }

  lemma FollowsAnyImprovement(v: BookView, d: Delta)
    requires d.quantity != 0 && Better(d.side, d.price, v.Of(d.side).window.best)
    ensures Deliver(v, d).Of(d.side).window.best == d.price
  {}

  lemma CancelsOneOfTwo(lb: LadderBook)
    requires lb.book.asks == TwiceAt455() && lb.asks == Window(202, NO_ASK)
    ensures var id := MakeId(SELL, 455, 4); IdSide(id) == SELL && IdPrice(id) == 455
    ensures var (lb', ok) := LadderCancel(lb, MakeId(SELL, 455, 4));
            && ok && lb'.book.asks == map[455 := [Resting(3, 1)]] && lb'.asks == lb.asks
            && Sum(QueueAt(lb'.book.asks, 455)) == 1 && Silent(SELL, lb.asks, 455, 1)
  {
    IdRoundTrip(SELL, 455, 4);
    var qs, q: Queue := lb.book.asks, [Resting(3, 1), Resting(4, 1)];
    assert qs == map[455 := q] && q[1].index == 4;
    assert q[..1] + q[2..] == [Resting(3, 1)];
    assert Removed(qs, 455, 1) == map[455 := [Resting(3, 1)]];
    assert 455 in qs && NO_ASK != 455;
  }
}
