/** A run on the bid side: where the trigger zones put the window decides whether the third of three bids is ever sold
    to. */
module BidWitnesses {
  import opened BookLaws
  import opened Deltas
  import opened Ladder
  import opened LadderSweeps
  import opened LimitOrderBooks
  import opened MarketTypes
  import opened OrderedKeys
  import opened PriceTimeBook
  import opened Scans
  import opened Sessions
  import opened Sightings
  import opened Totals
  import opened Witnesses

  // Bids of one share at 1000, 800 and 572, and what selling to the best one leaves.
  const THREE_BIDS: Queues := map[1000 := [Resting(1, 1)], 800 := [Resting(2, 1)], 572 := [Resting(3, 1)]]
  const TWO_BIDS: Queues := map[800 := [Resting(2, 1)], 572 := [Resting(3, 1)]]
  const ONE_BID: Queues := map[572 := [Resting(3, 1)]]

  // The window follows the first bid to [770, 1025].
  lemma BidsStand()
    ensures Offered(BUY, [1000, 800, 572]).book.bids == THREE_BIDS
    ensures Offered(BUY, [1000, 800, 572]).bids == Window(770, 1000)
    ensures Offered(BUY, [1000, 800, 572]).book.asks == map[]
  {
    hide Join;
    var one: Queues := map[1000 := [Resting(1, 1)]];
    var two: Queues := one[800 := [Resting(2, 1)]];
    assert [1000][..0] == [] && [1000, 800][..1] == [1000] && [1000, 800, 572][..2] == [1000, 800];
    Joins(map[], 1000, 1);
    assert Offered(BUY, [1000]).book.bids == one && Offered(BUY, [1000]).bids == Window(770, 1000);
    Joins(one, 800, 2);
    Joins(two, 572, 3);
    assert two[572 := [Resting(3, 1)]] == THREE_BIDS;
  }

  // After 1000 comes 800, which is less than 50 ticks above the lower edge: the window slides down to [570, 825].
  lemma NextIs800(prices: set<int>)
    requires prices == {800, 572}
    ensures AfterBest(BUY, Window(770, 1000), prices) == Window(570, 800)
  {
    NextBestVerdict(BUY, 770, 1000, prices);
    assert 800 in prices && Block(800) == 12 && Block(1000) == 15;
    assert IsBest(BUY, NextBest(BUY, 770, 1000, prices), prices);
    WindowAfterBest(BUY, Window(770, 1000), prices);
  }

  // From there 572 is in the window, four blocks below 800, and the scan loses it.
  lemma NextIsLost572(prices: set<int>)
    requires prices == {572}
    ensures AfterBest(BUY, Window(570, 800), prices) == Window(570, NO_BID)
  {
    NextBestVerdict(BUY, 570, 800, prices);
    assert 572 in prices && Block(572) == 8 && Block(800) == 12;
    assert IsBest(BUY, 572, prices) && !Reaches(BUY, 570, 800, prices);
  }

  // A market sell of one share takes the single bid at the best price.
  lemma SellsOne(lb: LadderBook, n: int, w: Window)
    requires lb.bids.best in lb.book.bids && lb.book.bids[lb.bids.best] == [Resting(n, 1)]
    requires w == AfterBest(BUY, lb.bids, (lb.book.bids - {lb.bids.best}).Keys)
    ensures LadderSubmit(lb, SELL, MARKET, 0, 1) ==
            (LadderBook(lb.book.(bids := lb.book.bids - {lb.bids.best}), w, lb.asks), [Fill(-1, 1, lb.bids.best)])
  {
    hide LadderSweep, LadderWindow, AfterBest;
    var qs, best := lb.book.bids, lb.bids.best;
    assert qs[best][1..] == [] && MatchQueue(qs[best], 1) == ([], 0);
    LadderTrades(SELL, MARKET, 0, lb.bids, qs, 1, [], 0);
    LadderEnds(SELL, MARKET, 0, w, qs - {best}, 0);
    assert LadderSweep(SELL, MARKET, 0, lb.bids, qs, 1) == Swept(qs - {best}, 0, [Fill(-1, 1, best)]);
  }

  lemma SellsNothing(lb: LadderBook)
    requires lb.bids.best !in lb.book.bids
    ensures LadderSubmit(lb, SELL, MARKET, 0, 1) == (lb, [])
  {}

  // What is left after each sale.
  lemma BidsLeft()
    ensures THREE_BIDS - {1000} == TWO_BIDS && TWO_BIDS - {800} == ONE_BID
    ensures (THREE_BIDS - {1000}).Keys == {800, 572} && (TWO_BIDS - {800}).Keys == {572}
  {
    assert THREE_BIDS - {1000} == TWO_BIDS && TWO_BIDS - {800} == ONE_BID;
    forall p | p in TWO_BIDS.Keys ensures p in {800, 572} {}
    forall p | p in {800, 572} ensures p in TWO_BIDS.Keys {}
    assert TWO_BIDS.Keys == {800, 572};
    forall p | p in ONE_BID.Keys ensures p in {572} {}
    forall p | p in {572} ensures p in ONE_BID.Keys {}
    assert ONE_BID.Keys == {572};
  }

  // The first sale slides the window to [570, 825], the second loses 572, and the third gets nothing.
  method ThirdSaleGetsNothing()
    returns (b: LimitOrderBook, first: seq<Fill>, lower: int, second: seq<Fill>, third: seq<Fill>)
    ensures b.Valid() && first == [Fill(-1, 1, 1000)] && lower == 570 && second == [Fill(-1, 1, 800)] && third == []
    ensures b.bids.best == NO_BID && b.book.bids == ONE_BID
  {
    hide LimitOrderBook.Valid, LadderSubmit, LadderOrder, Submitted, Offered, AfterBest, Publishes;
    hide OrderInSight, OrderSighted, OrderReach, Passes, ExactSide, Shown, PlainSide;
    b := Offers(BUY, [1000, 800, 572]);
    BidsStand();
    BidsLeft();
    NextIs800((THREE_BIDS - {1000}).Keys);
    SellsOne(b.Ladder(), 1, Window(570, 800));
    NotRefused(b.Ladder(), SELL, MARKET, 0, 1);
    first := b.Submit(SELL, MARKET, 0, 1);
    lower := b.bids.lower;
    NextIsLost572((TWO_BIDS - {800}).Keys);
    SellsOne(b.Ladder(), 2, Window(570, NO_BID));
    NotRefused(b.Ladder(), SELL, MARKET, 0, 1);
    second := b.Submit(SELL, MARKET, 0, 1);
    SellsNothing(b.Ladder());
    NotRefused(b.Ladder(), SELL, MARKET, 0, 1);
    third := b.Submit(SELL, MARKET, 0, 1);
  }
}
