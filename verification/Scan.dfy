/** What the scan for the next best price finds, as a function of the window, the old best price and the
    occupied prices: the book's own rule, whether or not it finds the extremal level.  */
module Scans {
  import opened Bits
  import opened Ladder
  import opened MarketTypes
  import opened OrderedKeys

  function BestOf(side: Side, prices: set<int>): int {
    match First(side, prices)
    case Some(p) => p
    case None => Sentinel(side)
  }

  lemma BestIsUnique(side: Side, p: int, prices: set<int>)
    requires IsBest(side, p, prices)
    ensures p == BestOf(side, prices)
  {}

  // The far edge of the window in the direction of the scan.
  function Edge(side: Side, lower: int): int {
    if side == SELL then lower + 255 else lower
  }

  // The i-th word after the best price's holds the far edge of the window: the scan cuts it there and ends.
  predicate AtEdge(side: Side, lower: int, best: int, i: int) {
    0 < i && Block(Edge(side, lower)) % 4 == WordAt(side, best, i)
  }

  // The bits of the i-th word that the scan looks at.
  predicate Looked(side: Side, lower: int, best: int, i: int, bit: int) {
    && (i == 0 ==> Better(side, best % 64, bit))
    && (AtEdge(side, lower, best, i) ==> !Better(side, Edge(side, lower) % 64, bit))
  }

  // The scan meets the level q in the i-th word.
  predicate Met(side: Side, lower: int, best: int, i: int, q: int) {
    && lower <= q <= lower + 255 && Block(q) % 4 == WordAt(side, best, i)
    && Looked(side, lower, best, i, q % 64)
  }

  ghost function MetBits(side: Side, lower: int, best: int, i: int, prices: set<int>): set<int> {
    set q | q in prices && Met(side, lower, best, i, q) :: q % 64
  }

  // The price of the window that owns a slot.
  function PriceAt(lower: int, slot: int): int {
    lower + (slot - lower) % 256
  }

  lemma OwnPrice(lower: int, p: int)
    requires lower <= p <= lower + 255
    ensures PriceAt(lower, p % 256) == p
  {}

  // The first level met in the i-th word.
  ghost function MetFirst(side: Side, lower: int, best: int, i: int, prices: set<int>): Option<int> {
    match First(side, MetBits(side, lower, best, i, prices))
    case None => None
    case Some(bit) => Some(PriceAt(lower, 64 * WordAt(side, best, i) + bit))
  }

  // The scan from the i-th word on.
  ghost function ScanFrom(side: Side, lower: int, best: int, prices: set<int>, i: nat): Option<int>
    decreases 4 - i
  {
    if i >= 4 then None
    else
      match MetFirst(side, lower, best, i, prices)
      case Some(p) => Some(p)
      case None => if AtEdge(side, lower, best, i) then None else ScanFrom(side, lower, best, prices, i + 1)
  }

  ghost function Outside(lower: int, prices: set<int>): set<int> {
    set q | q in prices && !(lower <= q <= lower + 255)
  }

  // The best price after the level at `best` is gone: what the scan finds or else the first overflow level.
  ghost function NextBest(side: Side, lower: int, best: int, prices: set<int>): int {
    var found := if lower <= best <= lower + 255 then ScanFrom(side, lower, best, prices, 0) else None;
    match found
    case Some(p) => p
    case None => BestOf(side, Outside(lower, prices))
  }

  // ---- The occupancy words show what is met ----

  // The word, masked as the scan does, has exactly the bits met.
  ghost predicate Masked(side: Side, r: Rep, best: int, i: int, word: Word)
    requires r.Shaped() && 0 <= i < 4
  {
    forall j | 0 <= j < 64 :: word[j] <==> r.words[WordAt(side, best, i)][j] && Looked(side, r.lower, best, i, j)
  }

  lemma MaskedBits(side: Side, r: Rep, levels: Levels, best: int, i: int, word: Word, j: int)
    requires Stands(r, levels) && 0 <= i < 4 && Masked(side, r, best, i, word) && 0 <= j < 64
    ensures j in MetBits(side, r.lower, best, i, levels.Keys) <==> word[j]
  {
    var k := WordAt(side, best, i);
    if word[j] {
      var p := r.slots[64 * k + j].price;
      BitIsLevel(r, levels, k, j);
      SlotOfPrice(p);
      assert p in levels.Keys && Met(side, r.lower, best, i, p) && p % 64 == j;
    }
    if j in MetBits(side, r.lower, best, i, levels.Keys) {
      var q :| q in levels.Keys && Met(side, r.lower, best, i, q) && q % 64 == j;
      LevelIsBit(r, levels, q);
    }
  }

  lemma ScanHit(side: Side, r: Rep, levels: Levels, best: int, i: nat, word: Word, bit: int)
    requires Stands(r, levels) && i < 4 && Masked(side, r, best, i, word) && FirstBit(side, word, bit)
    ensures ScanFrom(side, r.lower, best, levels.Keys, i) == Some(r.slots[64 * WordAt(side, best, i) + bit].price)
  {
    var bits, k := MetBits(side, r.lower, best, i, levels.Keys), WordAt(side, best, i);
    MaskedBits(side, r, levels, best, i, word, bit);
    forall j | j in bits ensures j == bit || Better(side, bit, j) {
      MaskedBits(side, r, levels, best, i, word, j);
    }
    assert First(side, bits) == Some(bit);
    BitIsLevel(r, levels, k, bit);
    OwnPrice(r.lower, r.slots[64 * k + bit].price);
  }

  lemma ScanMiss(side: Side, r: Rep, levels: Levels, best: int, i: nat, word: Word)
    requires Stands(r, levels) && i < 4 && Masked(side, r, best, i, word) && word == ZERO
    ensures ScanFrom(side, r.lower, best, levels.Keys, i) ==
            if AtEdge(side, r.lower, best, i) then None else ScanFrom(side, r.lower, best, levels.Keys, i + 1)
  {
    var bits := MetBits(side, r.lower, best, i, levels.Keys);
    forall j | j in bits ensures false {
      MaskedBits(side, r, levels, best, i, word, j);
    }
    assert bits == {};
  }

  lemma ScanEnds(side: Side, lower: int, best: int, prices: set<int>)
    ensures ScanFrom(side, lower, best, prices, 4) == None
  {}

  // What lies outside the window is what the overflow map holds.
  lemma OverflowIsOutside(r: Rep, levels: Levels)
    requires Stands(r, levels)
    ensures Outside(r.lower, levels.Keys) == r.overflow.Keys
  {
    forall q | q in Outside(r.lower, levels.Keys) ensures q in r.overflow.Keys {}
    forall q | q in r.overflow.Keys ensures q in Outside(r.lower, levels.Keys) {}
    assert Outside(r.lower, levels.Keys) == r.overflow.Keys;
  }

  // ---- When it is the extremal level ----

  lemma {:induction false} ScanFindsLevel(side: Side, lower: int, best: int, prices: set<int>, i: nat)
    ensures match ScanFrom(side, lower, best, prices, i)
            case None => true
            case Some(p) => p in prices && exists j: nat :: i <= j < 4 && Met(side, lower, best, j, p)
    decreases 4 - i
  {
    if i < 4 {
      match MetFirst(side, lower, best, i, prices)
      case None => ScanFindsLevel(side, lower, best, prices, i + 1);
      case Some(p) =>
        var bit := First(side, MetBits(side, lower, best, i, prices)).value;
        var q :| q in prices && Met(side, lower, best, i, q) && q % 64 == bit;
        SlotOfPrice(q);
        OwnPrice(lower, q);
    }
  }

  // A level behind the old best that is met in the i-th word stands i blocks behind it.
  lemma MetDistance(side: Side, lower: int, best: int, i: int, q: int)
    requires 0 <= i <= 3 && lower <= best <= lower + 255 && Met(side, lower, best, i, q) && Better(side, best, q)
    ensures Block(q) == if side == SELL then Block(best) + i else Block(best) - i
  {
    if side == SELL { CandidateBlock(best, q, i); } else { CandidateBelow(best, q, i); }
  }

  // All levels are behind `was`, and p is the first of those in the window.
  ghost predicate Nearest(side: Side, lower: int, was: int, prices: set<int>, p: int) {
    && lower <= was <= lower + 255 && lower <= p <= lower + 255 && p in prices
    && (forall q | q in prices :: Better(side, was, q))
    && (forall q | q in prices && lower <= q <= lower + 255 :: q == p || Better(side, p, q))
  }

  lemma TooFar(side: Side, lower: int, was: int, prices: set<int>, p: int)
    requires Nearest(side, lower, was, prices, p) && AtLeast(side, was, 4, p) && Legal(prices)
    ensures !IsBest(side, NextBest(side, lower, was, prices), prices) && !Reaches(side, lower, was, prices)
  {
    ScanFindsLevel(side, lower, was, prices, 0);
    if x: int :| ScanFrom(side, lower, was, prices, 0) == Some(x) {
      var j: nat :| j < 4 && Met(side, lower, was, j, x);
      MetDistance(side, lower, was, j, x);
    }
  }

  // Before the word of the nearest level the scan meets nothing and does not end.
  lemma NothingBefore(side: Side, lower: int, was: int, prices: set<int>, p: int, i: nat)
    requires Nearest(side, lower, was, prices, p) && Legal(prices) && i < 4 && AtLeast(side, was, i + 1, p)
    ensures MetFirst(side, lower, was, i, prices) == None && !AtEdge(side, lower, was, i)
  {
    forall j | j in MetBits(side, lower, was, i, prices) ensures false {
      var q :| q in prices && Met(side, lower, was, i, q) && q % 64 == j;
      MetDistance(side, lower, was, i, q);
    }
    assert MetBits(side, lower, was, i, prices) == {};
    if AtEdge(side, lower, was, i) {
      if side == SELL { EdgeBlock(was, lower + 255, i); } else { EdgeBlock(lower, was, i); }
    }
  }

  lemma NearestIsMet(side: Side, lower: int, was: int, prices: set<int>, p: int, i: nat)
    requires Nearest(side, lower, was, prices, p) && i < 4
    requires Block(p) == if side == SELL then Block(was) + i else Block(was) - i
    ensures Met(side, lower, was, i, p)
  {
    if AtEdge(side, lower, was, i) {
      if side == SELL { EdgeBlock(was, lower + 255, i); } else { EdgeBlock(lower, was, i); }
    }
  }

  lemma FirstMetIs(side: Side, lower: int, best: int, i: nat, prices: set<int>, p: int)
    requires p in prices && Met(side, lower, best, i, p)
    requires forall q | q in prices && Met(side, lower, best, i, q) :: q % 64 == p % 64 || Better(side, p % 64, q % 64)
    ensures MetFirst(side, lower, best, i, prices) == Some(p)
  {
    hide Looked;
    var bits := MetBits(side, lower, best, i, prices);
    assert p % 64 in bits;
    assert First(side, bits) == Some(p % 64);
    SlotOfPrice(p);
    OwnPrice(lower, p);
  }

  lemma MetAtLast(side: Side, lower: int, was: int, prices: set<int>, p: int, i: nat)
    requires Nearest(side, lower, was, prices, p) && Legal(prices) && i < 4
    requires Block(p) == if side == SELL then Block(was) + i else Block(was) - i
    ensures MetFirst(side, lower, was, i, prices) == Some(p)
  {
    hide MetFirst, MetBits;
    NearestIsMet(side, lower, was, prices, p, i);
    forall q | q in prices && Met(side, lower, was, i, q) ensures q % 64 == p % 64 || Better(side, p % 64, q % 64) {
      MetDistance(side, lower, was, i, q);
    }
    FirstMetIs(side, lower, was, i, prices, p);
  }

  lemma {:induction false} ScanReaches(side: Side, lower: int, was: int, prices: set<int>, p: int, i: nat)
    requires Nearest(side, lower, was, prices, p) && Legal(prices) && i < 4
    requires AtLeast(side, was, i, p) && !AtLeast(side, was, 4, p)
    ensures ScanFrom(side, lower, was, prices, i) == Some(p)
    decreases 4 - i
  {
    if AtLeast(side, was, i + 1, p) {
      NothingBefore(side, lower, was, prices, p, i);
      ScanReaches(side, lower, was, prices, p, i + 1);
    } else {
      MetAtLast(side, lower, was, prices, p, i);
    }
  }

  lemma InReach(side: Side, lower: int, was: int, prices: set<int>, p: int)
    requires Nearest(side, lower, was, prices, p) && Legal(prices) && !AtLeast(side, was, 4, p)
    ensures IsBest(side, NextBest(side, lower, was, prices), prices) && Reaches(side, lower, was, prices)
  {
    ScanReaches(side, lower, was, prices, p, 0);
    forall q | q in prices ensures q == p || Better(side, p, q) {}
  }

  // The best price after a removal is a level, or the sentinel of a side without overflow levels; when all levels
  // are behind the removed one, it is the extremal level exactly when the scan reaches one.
  lemma NextBestVerdict(side: Side, lower: int, was: int, prices: set<int>)
    requires Legal(prices) && if side == SELL then lower <= was else was <= lower + 255
    ensures var best := NextBest(side, lower, was, prices);
            && (if best == Sentinel(side) then Outside(lower, prices) == {} else best in prices)
            && ((forall q | q in prices :: Better(side, was, q)) ==>
                  (IsBest(side, best, prices) <==> Reaches(side, lower, was, prices)))
  {
    ScanFindsLevel(side, lower, was, prices, 0);
    if forall q | q in prices :: Better(side, was, q) {
      if forall q | q in prices :: !(lower <= q <= lower + 255) {
        forall q | q in prices ensures q in Outside(lower, prices) {}
        forall q | q in Outside(lower, prices) ensures q in prices {}
        assert Outside(lower, prices) == prices;
      } else {
        var near := set q | q in prices && lower <= q <= lower + 255;
        var q0 :| q0 in prices && lower <= q0 <= lower + 255;
        assert q0 in near;
        var p := First(side, near).value;
        if AtLeast(side, was, 4, p) {
          TooFar(side, lower, was, prices, p);
        } else {
          InReach(side, lower, was, prices, p);
        }
      }
    }
  }
}
