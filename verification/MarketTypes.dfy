/** Values shared by the order book, the venue and the router. */
module MarketTypes {

  datatype Option<+T> = None | Some(value: T)

  datatype Side = BUY | SELL

  datatype OrderType = LIMIT | MARKET | IOC | FOK

  datatype PriceLevel = PriceLevel(price: int, quantity: int, head: int, tail: int)

  datatype Order = Order(id: int, price: int, quantity: int, side: Side, prev: int, next: int, active: bool)

  datatype Fill = Fill(orderId: int, quantity: int, price: int)

  datatype Delta = Delta(side: Side, price: int, quantity: int)

  // A default-constructed level: what a slot without orders holds.
  const EMPTY_LEVEL := PriceLevel(0, 0, -1, -1)

  const LADDER_DEPTH := 256
  const LADDER_WORDS := 4
  const TRIGGER_ZONE := 25 // LADDER_DEPTH * 10 / 100

  // Prices are packed into 31 bits of an order id, and 0 is the empty-bid sentinel.
  const PRICE_LIMIT := 0x8000_0000

  // The best price of a side without levels.
  const NO_ASK := 0x7FFF_FFFF_FFFF_FFFF
  const NO_BID := 0

  function Sentinel(side: Side): int {
    if side == SELL then NO_ASK else NO_BID
  }

  function Opposite(side: Side): Side {
    if side == BUY then SELL else BUY
  }

  // p has priority over q on this side of the book.
  predicate Better(side: Side, p: int, q: int) {
    if side == SELL then p < q else q < p
  }

  // p is the extremal price of a non-empty set of prices, or the sentinel of an empty one.
  ghost predicate IsBest(side: Side, p: int, prices: set<int>) {
    if prices == {} then p == Sentinel(side)
    else p in prices && forall q | q in prices :: p == q || Better(side, p, q)
  }

  // Every price fits its field; in particular no level sits at a sentinel.
  ghost predicate Legal(prices: set<int>) {
    forall p | p in prices :: 0 < p < PRICE_LIMIT
  }
}
