/** The 64-bit order ids: bit 63 is the side, the next 31 bits the price, the low 32 bits the slab index. */
module OrderIds {
  import opened MarketTypes

  const TWO_31 := 0x8000_0000
  const TWO_32 := 0x1_0000_0000
  const TWO_63 := 0x8000_0000_0000_0000
  const TWO_64 := 0x1_0000_0000_0000_0000

  // The bit pattern, read as a signed 64-bit integer.
  function MakeId(side: Side, price: int, index: int): int {
    price * TWO_32 + index - if side == SELL then TWO_63 else 0
  }

  function Unsigned(id: int): int {
    if id < 0 then id + TWO_64 else id
  }

  function IdSide(id: int): Side {
    if Unsigned(id) / TWO_63 % 2 == 1 then SELL else BUY
  }

  function IdPrice(id: int): int {
    Unsigned(id) / TWO_32 % TWO_31
  }

  function IdIndex(id: int): int {
    Unsigned(id) % TWO_32
  }

  // An issued id decodes to its own side, price and index.
  lemma IdRoundTrip(side: Side, price: int, index: int)
    requires 0 <= price < PRICE_LIMIT && 0 <= index < TWO_32
    ensures var id := MakeId(side, price, index);
            -TWO_63 <= id < TWO_63 && IdSide(id) == side && IdPrice(id) == price && IdIndex(id) == index
  {}

  // Every 64-bit id is made up of the side, the price and the index it decodes to.
  lemma IdsAreMade(id: int)
    requires -TWO_63 <= id < TWO_63
    ensures MakeId(IdSide(id), IdPrice(id), IdIndex(id)) == id
  {}

  lemma IdsAreDistinct(s: Side, p: int, i: int, t: Side, q: int, j: int)
    requires 0 <= p < PRICE_LIMIT && 0 <= i < TWO_32 && 0 <= q < PRICE_LIMIT && 0 <= j < TWO_32
    requires MakeId(s, p, i) == MakeId(t, q, j)
    ensures s == t && p == q && i == j
  {
    IdRoundTrip(s, p, i);
    IdRoundTrip(t, q, j);
  }

  // The n-th id of the list names slab index n.
  ghost predicate IdsInOrder(issued: seq<int>) {
    forall j | 0 <= j < |issued| :: IdIndex(issued[j]) == j + 1
  }
}
