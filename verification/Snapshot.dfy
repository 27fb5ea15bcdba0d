/** What a snapshot of one side lists, and when it lists it in priority order. */
module Snapshots {
  import opened Bits
  import opened Ladder
  import opened MarketTypes
  import opened OrderedKeys

  datatype SnapshotLevel = SnapshotLevel(price: int, quantity: int)

  function LevelCap(maxLevels: int): nat {
    if maxLevels > 0 then maxLevels else 0
  }

  // The prices of a side from best to worst.
  function PriceList(side: Side, prices: set<int>): (list: seq<int>)
    ensures |list| == |prices|
    decreases |prices|
  {
    match First(side, prices)
    case None => []
    case Some(p) => [p] + PriceList(side, prices - {p})
  }

  lemma {:induction false} PriceListIsSorted(side: Side, prices: set<int>)
    ensures var list := PriceList(side, prices);
            && (forall p :: p in list <==> p in prices)
            && forall i, j | 0 <= i < j < |list| :: Better(side, list[i], list[j])
    decreases |prices|
  {
    if prices != {} {
      hide First;
      var p := First(side, prices).value;
      var rest, list := PriceList(side, prices - {p}), PriceList(side, prices);
      PriceListIsSorted(side, prices - {p});
      assert list == [p] + rest;
      hide PriceList;
      forall i, j | 0 <= i < j < |list| ensures Better(side, list[i], list[j]) {
        assert list[j] == rest[j - 1] && rest[j - 1] in rest;
        if i > 0 { assert list[i] == rest[i - 1]; }
      }
    }
  }

  // The list holds the levels at the prices `taken`, each once and with its quantity.
  ghost predicate Lists(levels: Levels, list: seq<SnapshotLevel>, taken: set<int>) {
    if list == [] then taken == {}
    else
      var last := list[|list| - 1];
      && last.price in taken && last.price in levels && last.quantity == levels[last.price].quantity
      && Lists(levels, list[..|list| - 1], taken - {last.price})
  }

  function PriceSet(list: seq<SnapshotLevel>): set<int> {
    set i | 0 <= i < |list| :: list[i].price
  }

  // What a list has taken are its prices.
  lemma {:induction false} TakenArePrices(levels: Levels, list: seq<SnapshotLevel>, taken: set<int>)
    requires Lists(levels, list, taken)
    ensures taken == PriceSet(list)
  {
    if list != [] {
      var n, p := |list| - 1, list[|list| - 1].price;
      TakenArePrices(levels, list[..n], taken - {p});
      forall q | q in taken ensures q in PriceSet(list) {
        if q != p {
          assert q in PriceSet(list[..n]);
          var i :| 0 <= i < n && list[..n][i].price == q;
          assert list[i].price == q;
        }
      }
      forall q | q in PriceSet(list) ensures q in taken {
        var i :| 0 <= i < |list| && list[i].price == q;
        assert i < n ==> list[..n][i].price in PriceSet(list[..n]);
      }
      assert taken == PriceSet(list);
    } else {
      forall q | q in PriceSet(list) ensures false {}
      assert PriceSet(list) == {};
    }
  }

  function Prices(list: seq<SnapshotLevel>): (r: seq<int>)
    ensures |r| == |list|
  {
    seq(|list|, i requires 0 <= i < |list| => list[i].price)
  }

  // The list begins the side's price list, and the untaken prices end it.
  ghost predicate InOrder(side: Side, levels: Levels, list: seq<SnapshotLevel>, taken: set<int>) {
    PriceList(side, levels.Keys) == Prices(list) + PriceList(side, levels.Keys - taken)
  }

  function Entry(levels: Levels, p: int): SnapshotLevel
    requires p in levels
  {
    SnapshotLevel(p, levels[p].quantity)
  }

  lemma ListsStep(levels: Levels, list: seq<SnapshotLevel>, taken: set<int>, p: int)
    requires Lists(levels, list, taken) && p in levels && p !in taken
    ensures Lists(levels, list + [Entry(levels, p)], taken + {p})
  {
    assert (list + [Entry(levels, p)])[..|list|] == list;
    assert taken + {p} - {p} == taken;
  }

  lemma {:induction false} ListsCount(levels: Levels, list: seq<SnapshotLevel>, taken: set<int>)
    requires Lists(levels, list, taken)
    ensures |list| == |taken| && taken <= levels.Keys
  {
    if list != [] {
      var p := list[|list| - 1].price;
      ListsCount(levels, list[..|list| - 1], taken - {p});
      assert taken == taken - {p} + {p};
    }
  }

  // A list with as many entries as asked for, or with all levels, has the lesser of the two.
  lemma ListIsFull(levels: Levels, list: seq<SnapshotLevel>, taken: set<int>, maxLevels: int)
    requires Lists(levels, list, taken) && |list| <= LevelCap(maxLevels)
    requires |list| == LevelCap(maxLevels) || taken == levels.Keys
    ensures |list| == if maxLevels <= 0 then 0 else if |levels| <= maxLevels then |levels| else maxLevels
  {
    hide Lists;
    ListsCount(levels, list, taken);
    assert |levels| == |levels.Keys|;
    assert |levels.Keys| == |taken| + |levels.Keys - taken|;
  }

  lemma OrderStep(side: Side, levels: Levels, list: seq<SnapshotLevel>, taken: set<int>, p: int)
    requires InOrder(side, levels, list, taken) && p in levels && First(side, levels.Keys - taken) == Some(p)
    ensures InOrder(side, levels, list + [Entry(levels, p)], taken + {p})
  {
    hide First;
    assert levels.Keys - taken - {p} == levels.Keys - (taken + {p});
    assert Prices(list + [Entry(levels, p)]) == Prices(list) + [p];
  }

  // No level of the window sits in the best price's occupancy word from the window's other end.
  ghost predicate Straight(side: Side, lower: int, best: int, prices: set<int>) {
    forall q | q in prices && lower <= q <= lower + 255 :: !AtLeast(side, best, 4, q)
  }

  // A walk over the words that has taken words 0 .. i - 1, and the levels `more` of word i.
  ghost predicate Walking(side: Side, r: Rep, levels: Levels, best: int, i: int, seen: set<int>, word: Word,
                          more: set<int>)
  {
    && Stands(r, levels) && Legal(levels.Keys) && best in levels && r.InWindow(best) && 0 <= i < 4
    && Visited(side, r, levels, best, i, seen)
       && InWord(side, r, levels, Sentinel(side), WordAt(side, best, i), word, more)
  }

  lemma NextIsAfter(side: Side, r: Rep, levels: Levels, best: int, i: int, seen: set<int>, word: Word, more: set<int>,
                    bit: int, price: int, q: int)
    requires Walking(side, r, levels, best, i, seen, word, more) && IsBest(side, best, levels.Keys)
             && Straight(side, r.lower, best, levels.Keys)
    requires FirstBit(side, word, bit) && price == r.slots[64 * WordAt(side, best, i) + bit].price
    requires q in levels && q !in seen && q !in more && q != price
    ensures Better(side, price, q)
  {
    var k := WordAt(side, best, i);
    BitIsLevel(r, levels, k, bit);
    SlotOfPrice(price);
    DistanceIsTurn(side, r.lower, best, price);
    TurnOfWord(side, best, price, i);
    assert q == best || Better(side, best, q);
    if r.InWindow(q) {
      DistanceIsTurn(side, r.lower, best, q);
      TurnOfWord(side, best, q, i);
      if Turn(side, best, q) == i { SlotOfPrice(q); }
    }
  }

  lemma NextIsFirst(side: Side, r: Rep, levels: Levels, best: int, i: int, seen: set<int>, word: Word, more: set<int>,
                    bit: int, price: int)
    requires Walking(side, r, levels, best, i, seen, word, more) && IsBest(side, best, levels.Keys)
             && Straight(side, r.lower, best, levels.Keys)
    requires FirstBit(side, word, bit) && price == r.slots[64 * WordAt(side, best, i) + bit].price && price in levels
             && price !in seen + more
    ensures First(side, levels.Keys - (seen + more)) == Some(price)
  {
    var rest := levels.Keys - (seen + more);
    forall q | q in rest ensures q == price || Better(side, price, q) {
      if q != price { NextIsAfter(side, r, levels, best, i, seen, word, more, bit, price, q); }
    }
    assert price in rest;
  }

  lemma BitsAt(side: Side, r: Rep, levels: Levels, best: int, z: int)
    requires Stands(r, levels) && IsBest(side, best, levels.Keys) && r.InWindow(best) && z in levels && r.InWindow(z)
             && AtLeast(side, best, 4, z)
    ensures r.words[WordAt(side, best, 0)][z % 64] && if side == SELL then z % 64 < best % 64 else best % 64 < z % 64
  {
    DistanceIsTurn(side, r.lower, best, z);
    LevelIsBit(r, levels, z);
    TurnOfWord(side, best, z, 0);
  }

  lemma SlotPriceBit(r: Rep, levels: Levels, k: int, bit: int)
    requires Stands(r, levels) && 0 <= k < 4 && 0 <= bit < 64 && r.words[k][bit]
    ensures r.slots[64 * k + bit].price % 64 == bit
  {
    BitIsLevel(r, levels, k, bit);
    SlotOfPrice(r.slots[64 * k + bit].price);
  }

  // If some level sits there, the walk starts with such a level, not with the best one.
  lemma FirstIsNotBest(side: Side, r: Rep, levels: Levels, best: int, bit: int)
    requires Stands(r, levels) && IsBest(side, best, levels.Keys) && best in levels && r.InWindow(best)
             && !Straight(side, r.lower, best, levels.Keys)
    requires FirstBit(side, r.words[WordAt(side, best, 0)], bit)
    ensures r.slots[64 * WordAt(side, best, 0) + bit].price != best
  {
    hide Stands, IsBest;
    var z :| z in levels.Keys && r.InWindow(z) && AtLeast(side, best, 4, z);
    BitsAt(side, r, levels, best, z);
    SlotPriceBit(r, levels, WordAt(side, best, 0), bit);
  }

  lemma NotInOrder(side: Side, levels: Levels, best: int, list: seq<SnapshotLevel>, taken: set<int>)
    requires IsBest(side, best, levels.Keys) && levels != map[] && list != [] && list[0].price != best
    ensures !InOrder(side, levels, list, taken)
  {
    var p := First(side, levels.Keys).value;
    assert PriceList(side, levels.Keys)[0] == p;
    assert p == best || Better(side, p, best);
    assert (Prices(list) + PriceList(side, levels.Keys - taken))[0] == list[0].price;
  }

  lemma NothingListed(side: Side, levels: Levels)
    ensures Lists(levels, [], {}) && InOrder(side, levels, [], {})
  {
    assert levels.Keys - {} == levels.Keys;
    assert Prices([]) + PriceList(side, levels.Keys) == PriceList(side, levels.Keys);
  }

  lemma RestIs(levels: Levels, taken: set<int>, rest: set<int>)
    requires taken !! rest && taken + rest == levels.Keys
    ensures levels.Keys - taken == rest
  {
    forall p | p in levels.Keys - taken ensures p in rest {
      assert p in taken + rest;
    }
    forall p | p in rest ensures p in levels.Keys - taken {
      assert p in taken + rest;
    }
  }

  lemma SentinelMeansEmpty(side: Side, best: int, lower: int, levels: Levels)
    requires Legal(levels.Keys) && best == Sentinel(side)
    ensures IsBest(side, best, levels.Keys) ==> levels.Keys == {} && Straight(side, lower, best, levels.Keys)
  {}

  // A walk over the overflow map: of `all`, the prices `rest` are still to come.
  ghost predicate Listing(side: Side, levels: Levels, list: seq<SnapshotLevel>, all: set<int>, taken: set<int>,
                          rest: set<int>, ordered: bool)
  {
    && Lists(levels, list, taken) && taken !! rest && taken + rest == all
    && (ordered ==> all == levels.Keys && InOrder(side, levels, list, taken))
  }

  lemma ListingStarts(side: Side, levels: Levels, list: seq<SnapshotLevel>, all: set<int>, taken: set<int>,
                      rest: set<int>, ordered: bool)
    requires Lists(levels, list, taken) && taken !! rest && taken + rest == all
             && (ordered ==> all == levels.Keys && InOrder(side, levels, list, taken))
    ensures Listing(side, levels, list, all, taken, rest, ordered)
  {}

  lemma ListingEnds(side: Side, levels: Levels, list: seq<SnapshotLevel>, all: set<int>, taken: set<int>,
                    rest: set<int>, ordered: bool)
    requires Listing(side, levels, list, all, taken, rest, ordered)
    ensures Lists(levels, list, taken) && (ordered ==> InOrder(side, levels, list, taken))
            && (rest == {} ==> taken == all)
  {
    if rest == {} { assert taken + {} == taken; }
  }

  lemma ListingStep(side: Side, levels: Levels, list: seq<SnapshotLevel>, all: set<int>, taken: set<int>,
                    rest: set<int>, p: int, ordered: bool)
    requires Listing(side, levels, list, all, taken, rest, ordered) && p in levels && First(side, rest) == Some(p)
    ensures Listing(side, levels, list + [Entry(levels, p)], all, taken + {p}, rest - {p}, ordered)
  {
    hide Lists, InOrder;
    ListsStep(levels, list, taken, p);
    if ordered {
      RestIs(levels, taken, rest);
      OrderStep(side, levels, list, taken, p);
    }
  }

  // The best `cap` levels of a side, best first.
  ghost function TopLevels(side: Side, quantities: map<int, int>, cap: nat): seq<SnapshotLevel> {
    var list := PriceList(side, quantities.Keys);
    PriceListIsSorted(side, quantities.Keys);
    seq(if cap < |list| then cap else |list|, i requires 0 <= i < |list| && i < cap =>
      assert list[i] in list;
      SnapshotLevel(list[i], quantities[list[i]]))
  }

  // In numbers: as many levels as asked for, or all there are; each with its quantity; bids falling and asks rising;
  // and every level left out is worse than every one listed.
  lemma TopInNumbers(side: Side, quantities: map<int, int>, maxLevels: int, list: seq<SnapshotLevel>)
    requires list == TopLevels(side, quantities, LevelCap(maxLevels))
    ensures |list| == if maxLevels <= 0 then 0 else if |quantities| <= maxLevels then |quantities| else maxLevels
    ensures forall i | 0 <= i < |list| ::
              list[i].price in quantities && list[i].quantity == quantities[list[i].price]
    ensures forall i, j | 0 <= i < j < |list| ::
              if side == BUY then list[i].price > list[j].price else list[i].price < list[j].price
    ensures forall i, p | 0 <= i < |list| && p in quantities && (forall j | 0 <= j < |list| :: list[j].price != p) ::
              if side == BUY then list[i].price > p else list[i].price < p
  {
    hide PriceList;
    var all := PriceList(side, quantities.Keys);
    PriceListIsSorted(side, quantities.Keys);
    assert |quantities| == |quantities.Keys| == |all|;
    forall i | 0 <= i < |list|
      ensures list[i].price == all[i] && list[i].price in quantities
              && list[i].quantity == quantities[list[i].price]
    {
      assert all[i] in all;
    }
    forall i, p | 0 <= i < |list| && p in quantities && (forall j | 0 <= j < |list| :: list[j].price != p)
      ensures if side == BUY then list[i].price > p else list[i].price < p
    {
      assert p in all;
      var k :| 0 <= k < |all| && all[k] == p;
      assert k < |list| ==> list[k].price == p;
    }
  }

  lemma {:induction false} ListedQuantity(levels: Levels, list: seq<SnapshotLevel>, taken: set<int>, i: nat)
    requires Lists(levels, list, taken) && i < |list|
    ensures list[i].price in levels && list[i].quantity == levels[list[i].price].quantity
  {
    var n := |list| - 1;
    if i < n { ListedQuantity(levels, list[..n], taken - {list[n].price}, i); }
  }

  function Elements(s: seq<int>): set<int> {
    set x | x in s
  }

  lemma FirstElement(x: int, s: seq<int>)
    ensures Elements([x] + s) == {x} + Elements(s)
  {
    forall y | y in [x] + s ensures y == x || y in s {}
    forall y | y == x || y in s ensures y in [x] + s {
      if y == x { assert ([x] + s)[0] == x; }
    }
  }

  lemma PriceListStarts(side: Side, prices: set<int>)
    requires PriceList(side, prices) != []
    ensures prices != {} && var p := First(side, prices).value;
            p in prices && PriceList(side, prices) == [p] + PriceList(side, prices - {p})
  {}

  lemma SplitBehindFirst(x: int, s: seq<int>, n: nat)
    requires 0 < n <= |s| + 1
    ensures ([x] + s)[..n] == [x] + s[..n - 1] && ([x] + s)[n..] == s[n - 1..]
  {}

  // Behind the first n prices of the list come those of the other levels.
  lemma {:induction false} PriceListSplits(side: Side, prices: set<int>, n: nat)
    requires n <= |PriceList(side, prices)|
    ensures PriceList(side, prices)[n..] == PriceList(side, prices - Elements(PriceList(side, prices)[..n]))
    decreases |prices|
  {
    hide First, PriceList;
    var list := PriceList(side, prices);
    if n == 0 {
      assert list[..0] == [] && Elements([]) == {};
      assert prices - {} == prices && list[0..] == list;
    } else {
      hide Elements;
      PriceListStarts(side, prices);
      assert |list| == 1 + |PriceList(side, prices - {First(side, prices).value})|;
      var p := First(side, prices).value;
      var rest := PriceList(side, prices - {p});
      SplitBehindFirst(p, rest, n);
      PriceListSplits(side, prices - {p}, n - 1);
      FirstElement(p, rest[..n - 1]);
      assert prices - {p} - Elements(rest[..n - 1]) == prices - Elements(list[..n]);
    }
  }

  lemma PricesAreElements(list: seq<SnapshotLevel>)
    ensures Elements(Prices(list)) == PriceSet(list)
  {
    forall p | p in Elements(Prices(list)) ensures p in PriceSet(list) {
      var i :| 0 <= i < |list| && Prices(list)[i] == p;
      assert list[i].price == p;
    }
    forall p | p in PriceSet(list) ensures p in Elements(Prices(list)) {
      var i :| 0 <= i < |list| && list[i].price == p;
      assert Prices(list)[i] == p;
    }
  }

  // A listing that is the top of the side is in order.
  lemma TopIsOrdered(side: Side, levels: Levels, list: seq<SnapshotLevel>, cap: nat)
    requires list == TopLevels(side, Quantities(levels), cap)
    ensures InOrder(side, levels, list, PriceSet(list))
  {
    hide PriceList, Elements, PriceSet;
    var all := PriceList(side, levels.Keys);
    PriceListIsSorted(side, levels.Keys);
    assert Prices(list) == all[..|list|];
    PricesAreElements(list);
    PriceListSplits(side, levels.Keys, |list|);
    assert all == all[..|list|] + all[|list|..];
  }

  // A list in order that is as long as it may be is the top of the side.
  lemma OrderedIsTop(side: Side, levels: Levels, list: seq<SnapshotLevel>, taken: set<int>, cap: nat)
    requires Lists(levels, list, taken) && InOrder(side, levels, list, taken) && |list| <= cap
             && (|list| == cap || taken == levels.Keys)
    ensures list == TopLevels(side, Quantities(levels), cap)
  {
    hide Lists;
    ListsCount(levels, list, taken);
    var all := PriceList(side, levels.Keys);
    assert taken == levels.Keys ==> levels.Keys - taken == {};
    var top := TopLevels(side, Quantities(levels), cap);
    assert |top| == |list|;
    forall i | 0 <= i < |list| ensures list[i] == top[i] {
      ListedQuantity(levels, list, taken, i);
      assert all[i] == Prices(list)[i];
    }
  }
}
