/** One side of the book as values: a circular ladder of 256 slots over a sliding price window, the
    occupancy words, and the map of levels that lie outside the window.

    `Tied` says which price-to-level map such a representation stands for.  The lemmas are the
    single-slot steps from which the book's loops are built.  */
module Ladder {
  import opened Bits
  import opened MarketTypes
  import opened OrderedKeys
  import opened Totals

  type Levels = map<int, PriceLevel>

  datatype Rep = Rep(lower: int, slots: seq<PriceLevel>, words: seq<Word>, overflow: Levels) {
    ghost predicate Shaped() {
      |slots| == 256 && |words| == 4
    }

    predicate InWindow(p: int) {
      lower <= p <= lower + 255
    }

    ghost predicate Marked(s: int)
      requires Shaped() && 0 <= s < 256
    {
      words[s / 64][s % 64]
    }
  }

  ghost predicate Clear(v: PriceLevel) {
    v.quantity == 0 && v.head == -1 && v.tail == -1
  }

  // The slot's level is the one the map holds at the slot's price.
  ghost predicate SlotHolds(r: Rep, levels: Levels, s: int)
    requires r.Shaped() && 0 <= s < 256
  {
    var p := r.slots[s].price;
    r.InWindow(p) && p % 256 == s && p !in r.overflow && p in levels && levels[p] == r.slots[s]
  }

  // The representation stands for `levels`; overflow keys may still lie inside the window.
  ghost predicate Tied(r: Rep, levels: Levels) {
    && r.Shaped()
    && (forall s | 0 <= s < 256 :: if r.Marked(s) then SlotHolds(r, levels, s) else Clear(r.slots[s]))
    && (forall p | p in r.overflow :: p in levels && levels[p] == r.overflow[p])
    && (forall p | p in levels :: levels[p].price == p && (p in r.overflow || (r.InWindow(p) && r.Marked(p % 256))))
  }

  // No overflow key lies inside the window.
  ghost predicate Windowed(r: Rep) {
    forall p | p in r.overflow :: !r.InWindow(p)
  }

  ghost predicate Stands(r: Rep, levels: Levels) {
    Tied(r, levels) && Windowed(r)
  }

  // Two prices of the window that share a slot are equal.
  lemma SlotIsUnique(lower: int, p: int, q: int)
    requires lower <= p <= lower + 255 && lower <= q <= lower + 255
    requires p % 256 == q % 256
    ensures p == q
  {}

  // Inside the window, the occupancy bit of a price decides whether it is a level, and its slot is that level.
  lemma BitDecides(r: Rep, levels: Levels, p: int)
    requires Stands(r, levels) && r.InWindow(p)
    ensures p in levels <==> r.Marked(p % 256)
    ensures p in levels ==> r.slots[p % 256] == levels[p]
    ensures p !in levels ==> Clear(r.slots[p % 256])
  {
    if r.Marked(p % 256) {
      assert SlotHolds(r, levels, p % 256);
      SlotIsUnique(r.lower, p, r.slots[p % 256].price);
    }
  }

  // Overflow keys are levels.
  lemma OverflowIsPart(r: Rep, levels: Levels)
    requires Tied(r, levels)
    ensures r.overflow.Keys <= levels.Keys
  {
    forall p | p in r.overflow.Keys ensures p in levels.Keys {}
  }

  // The window and the occupied prices determine the occupancy words.
  lemma SameMarks(r: Rep, levels: Levels, r': Rep, levels': Levels)
    requires Stands(r, levels) && Stands(r', levels') && r.lower == r'.lower && levels.Keys == levels'.Keys
    ensures forall w, j | 0 <= w < 4 && 0 <= j < 64 :: r.words[w][j] == r'.words[w][j]
  {
    forall w, j | 0 <= w < 4 && 0 <= j < 64 ensures r.words[w][j] == r'.words[w][j] {
      var s := 64 * w + j;
      var p := r.lower + (s - r.lower) % 256;
      assert p % 256 == s;
      BitDecides(r, levels, p);
      BitDecides(r', levels', p);
      assert p in levels.Keys <==> p in levels'.Keys;
      assert r.Marked(s) == r.words[w][j] && r'.Marked(s) == r'.words[w][j];
    }
  }

  ghost function WithBit(words: seq<Word>, s: int, b: bool): (r: seq<Word>)
    requires |words| == 4 && 0 <= s < 256
    ensures |r| == 4
    ensures forall t | 0 <= t < 256 :: r[t / 64][t % 64] == if t == s then b else words[t / 64][t % 64]
  {
    words[s / 64 := if b then SetBit(words[s / 64], s % 64) else ClearBit(words[s / 64], s % 64)]
  }

  // Writing a level into its slot or into the overflow map.
  ghost function Written(r: Rep, p: int, v: PriceLevel): Rep
    requires r.Shaped()
  {
    if r.InWindow(p) then r.(slots := r.slots[p % 256 := v], words := WithBit(r.words, p % 256, true))
    else r.(overflow := r.overflow[p := v])
  }

  lemma WriteKeeps(r: Rep, levels: Levels, p: int, v: PriceLevel)
    requires Stands(r, levels) && v.price == p
    ensures Stands(Written(r, p, v), levels[p := v])
  {
    var r', l' := Written(r, p, v), levels[p := v];
    forall s | 0 <= s < 256
      ensures if r'.Marked(s) then SlotHolds(r', l', s) else Clear(r'.slots[s])
    {
      if r.Marked(s) { assert SlotHolds(r, levels, s); }
      if r.InWindow(p) && s != p % 256 {
        assert r'.slots[s] == r.slots[s] && r'.Marked(s) == r.Marked(s);
      }
    }
    forall q | q in l' ensures l'[q].price == q && (q in r'.overflow || (r'.InWindow(q) && r'.Marked(q % 256))) {
      if q != p { assert q in levels; }
    }
  }

  // Removing a level, leaving v, which holds no orders, in its slot.
  ghost function Erased(r: Rep, p: int, v: PriceLevel): Rep
    requires r.Shaped()
  {
    if r.InWindow(p) then r.(slots := r.slots[p % 256 := v], words := WithBit(r.words, p % 256, false))
    else r.(overflow := r.overflow - {p})
  }

  lemma EraseKeeps(r: Rep, levels: Levels, p: int, v: PriceLevel)
    requires Stands(r, levels)
    requires r.InWindow(p) ==> Clear(v)
    ensures Stands(Erased(r, p, v), levels - {p})
  {
    var r', l' := Erased(r, p, v), levels - {p};
    forall s | 0 <= s < 256
      ensures if r'.Marked(s) then SlotHolds(r', l', s) else Clear(r'.slots[s])
    {
      if r.Marked(s) {
        assert SlotHolds(r, levels, s);
        if r.InWindow(p) && s != p % 256 { assert r.slots[s].price != p; }
      }
    }
    forall q | q in l' ensures l'[q].price == q && (q in r'.overflow || (r'.InWindow(q) && r'.Marked(q % 256))) {
      assert q in levels;
      if r.InWindow(p) && r.InWindow(q) && q % 256 == p % 256 { SlotIsUnique(r.lower, p, q); }
    }
  }

  // Evicting one occupied slot to the overflow map.
  ghost function Evicted(r: Rep, s: int): Rep
    requires r.Shaped() && 0 <= s < 256
  {
    r.(overflow := r.overflow[r.slots[s].price := r.slots[s]], slots := r.slots[s := EMPTY_LEVEL],
       words := WithBit(r.words, s, false))
  }

  lemma EvictKeeps(r: Rep, levels: Levels, s: int)
    requires Tied(r, levels) && 0 <= s < 256 && r.Marked(s)
    ensures Tied(Evicted(r, s), levels)
  {
    var r', p := Evicted(r, s), r.slots[s].price;
    assert SlotHolds(r, levels, s);
    forall t | 0 <= t < 256
      ensures if r'.Marked(t) then SlotHolds(r', levels, t) else Clear(r'.slots[t])
    {
      if t != s {
        assert r'.slots[t] == r.slots[t] && r'.Marked(t) == r.Marked(t);
        if r.Marked(t) { assert SlotHolds(r, levels, t); }
      }
    }
    forall q | q in levels ensures q in r'.overflow || (r'.InWindow(q) && r'.Marked(q % 256)) {
      if q !in r.overflow && q % 256 == s { SlotIsUnique(r.lower, p, q); }
    }
  }

  // Every occupied slot's price lies in the window starting at `lower`.
  ghost predicate Fits(r: Rep, lower: int)
    requires r.Shaped()
  {
    forall s | 0 <= s < 256 && r.Marked(s) :: lower <= r.slots[s].price <= lower + 255
  }

  // Moving the window over slots that all fit the new one.
  lemma RebaseKeeps(r: Rep, levels: Levels, lower: int)
    requires Tied(r, levels) && Fits(r, lower)
    ensures Tied(r.(lower := lower), levels)
  {
    var r' := r.(lower := lower);
    forall s | 0 <= s < 256
      ensures if r'.Marked(s) then SlotHolds(r', levels, s) else Clear(r'.slots[s])
    {
      if r.Marked(s) { assert SlotHolds(r, levels, s); }
    }
    forall q | q in levels ensures q in r'.overflow || (r'.InWindow(q) && r'.Marked(q % 256)) {
      if q !in r.overflow {
        assert SlotHolds(r, levels, q % 256);
        SlotIsUnique(r.lower, q, r.slots[q % 256].price);
      }
    }
  }

  // Migrating one overflow level of the window into its slot.
  ghost function Migrated(r: Rep, p: int): Rep
    requires r.Shaped() && p in r.overflow
  {
    r.(slots := r.slots[p % 256 := r.overflow[p]], words := WithBit(r.words, p % 256, true),
       overflow := r.overflow - {p})
  }

  lemma DropOne(m: Levels, keys: set<int>, ahead: set<int>, p: int)
    requires p in ahead && ahead <= keys
    ensures m - (keys - (ahead - {p})) == m - (keys - ahead) - {p}
  {}

  lemma MigrateKeeps(r: Rep, levels: Levels, p: int)
    requires Tied(r, levels) && p in r.overflow && r.InWindow(p)
    ensures !r.Marked(p % 256)
    ensures Tied(Migrated(r, p), levels)
  {
    if r.Marked(p % 256) {
      assert SlotHolds(r, levels, p % 256);
      SlotIsUnique(r.lower, p, r.slots[p % 256].price);
    }
    var r' := Migrated(r, p);
    forall t | 0 <= t < 256
      ensures if r'.Marked(t) then SlotHolds(r', levels, t) else Clear(r'.slots[t])
    {
      if t != p % 256 {
        assert r'.slots[t] == r.slots[t] && r'.Marked(t) == r.Marked(t);
        if r.Marked(t) { assert SlotHolds(r, levels, t); }
      }
    }
  }

  // The slots from `from` up to `to` were emptied, and only they.
  ghost predicate Unloaded(r0: Rep, r: Rep, from: int, to: int)
    requires r0.Shaped() && r.Shaped()
  {
    forall s | 0 <= s < 256 :: if from <= s < to then !r.Marked(s)
                               else r.Marked(s) == r0.Marked(s) && r.slots[s] == r0.slots[s]
  }

  // Emptying the next occupied slot of a chunk whose slots before it are empty.
  lemma UnloadStep(r0: Rep, r: Rep, levels: Levels, from: int, s: int)
    requires r0.Shaped() && Tied(r, levels) && 0 <= from <= s < 256
    requires Unloaded(r0, r, from, s) && r.Marked(s)
    ensures Tied(Evicted(r, s), levels)
    ensures Unloaded(r0, Evicted(r, s), from, s + 1)
  {
    EvictKeeps(r, levels, s);
  }

  // Only slots priced from low to high were emptied, and all of them.
  ghost predicate Thinned(r0: Rep, r: Rep, low: int, high: int)
    requires r0.Shaped() && r.Shaped()
  {
    && r.lower == r0.lower
    && forall s | 0 <= s < 256 && r.Marked(s) ::
         r0.Marked(s) && r.slots[s] == r0.slots[s] && !(low <= r.slots[s].price <= high)
  }

  lemma ChunkFits(idx: int, count: int)
    requires 0 <= idx < 256 && idx % 64 + count <= 64
    ensures idx + count <= 256
  {}

  lemma NextIndex(p: int, count: int)
    ensures (p % 256 + count) % 256 == (p + count) % 256
  {}

  // A chunk of `count` slots, starting at the slot of price `at`, holds the prices at .. at + count - 1.
  lemma ThinStep(r0: Rep, r: Rep, r': Rep, levels: Levels, low: int, at: int, count: int)
    requires Tied(r, levels) && Tied(r', levels) && r0.Shaped() && r'.lower == r.lower
    requires r.lower <= low <= at && at + count <= r.lower + 256 && 0 <= count && at % 256 + count <= 256
    requires Thinned(r0, r, low, at - 1) && Unloaded(r, r', at % 256, at % 256 + count)
    ensures Thinned(r0, r', low, at + count - 1)
  {
    forall s | 0 <= s < 256 && r'.Marked(s)
      ensures r0.Marked(s) && r'.slots[s] == r0.slots[s] && !(low <= r'.slots[s].price <= at + count - 1)
    {
      assert SlotHolds(r', levels, s);
    }
  }

  // The 64-price block of a price: blocks that are equal modulo 4 share an occupancy word.
  function Block(p: int): int {
    p / 64
  }

  lemma SlotOfPrice(p: int)
    ensures p % 256 / 64 == Block(p) % 4 && p % 256 % 64 == p % 64
    ensures p % 256 == 64 * (Block(p) % 4) + p % 64
  {}

  // Inside the window, a level is a set bit of the word of its block.
  lemma LevelIsBit(r: Rep, levels: Levels, p: int)
    requires Stands(r, levels) && r.InWindow(p)
    ensures p in levels <==> r.words[Block(p) % 4][p % 64]
    ensures p in levels ==> r.slots[64 * (Block(p) % 4) + p % 64] == levels[p]
  {
    SlotOfPrice(p);
    BitDecides(r, levels, p);
  }

  // A set bit is a live level of the window, whatever its position.
  lemma BitIsLevel(r: Rep, levels: Levels, word: int, bit: int)
    requires Stands(r, levels) && 0 <= word < 4 && 0 <= bit < 64 && r.words[word][bit]
    ensures var p := r.slots[64 * word + bit].price;
            p in levels && r.InWindow(p) && levels[p] == r.slots[64 * word + bit] && p % 256 == 64 * word + bit
  {
    assert r.Marked(64 * word + bit);
    assert SlotHolds(r, levels, 64 * word + bit);
  }

  // The price behind a bit of the i-th word after `best`'s is in the i-th block after it.
  lemma CandidateBlock(best: int, p: int, i: int)
    requires 0 <= i <= 3 && Block(p) % 4 == (Block(best) + i) % 4
    requires best < p <= best + 255 && (i == 0 ==> best % 64 < p % 64)
    ensures Block(p) == Block(best) + i
  {
    assert Block(best) <= Block(p) <= Block(best) + 4;
  }

  // A window that ends in the word of the i-th block after `best`'s ends in that block.
  lemma EdgeBlock(best: int, higher: int, i: int)
    requires 1 <= i <= 3 && Block(higher) % 4 == (Block(best) + i) % 4 && best <= higher <= best + 255
    ensures Block(higher) == Block(best) + i
  {
    assert Block(best) <= Block(higher) <= Block(best) + 4;
  }

  // p comes after `best` in priority, i or more blocks away.
  ghost predicate AtLeast(side: Side, best: int, i: int, p: int) {
    if side == SELL then Block(best) + i <= Block(p) else Block(p) <= Block(best) - i
  }

  function WordAt(side: Side, best: int, i: int): int {
    if side == SELL then (Block(best) + i) % 4 else (Block(best) - i) % 4
  }

  lemma NextWord(wordIndex: int, best: int, i: int)
    requires wordIndex == Block(best) % 4 && 0 <= i <= 3
    ensures (wordIndex + i) % 4 == WordAt(SELL, best, i) && (wordIndex - i + 4) % 4 == WordAt(BUY, best, i)
  {}

  // The bit is the first of the word in the direction of the scan.
  ghost predicate FirstBit(side: Side, word: Word, bit: int) {
    && 0 <= bit < 64 && word[bit]
    && forall j | 0 <= j < 64 && word[j] :: if side == SELL then bit <= j else j <= bit
  }

  lemma CandidateBelow(best: int, p: int, i: int)
    requires 0 <= i <= 3 && Block(p) % 4 == (Block(best) - i) % 4
    requires p < best <= p + 255 && (i == 0 ==> p % 64 < best % 64)
    ensures Block(p) == Block(best) - i
  {
    assert Block(best) - 4 <= Block(p) <= Block(best);
  }

  // Where a shift puts the window.
  function Recentred(side: Side, best: int): int {
    if side == SELL then best - TRIGGER_ZONE else best + TRIGGER_ZONE - LADDER_DEPTH + 1
  }

  // The window's lower edge after the best level was removed and `best` took its place.
  function SlidAfterRemoval(side: Side, lower: int, best: int): int {
    var higher := lower + LADDER_DEPTH - 1;
    if best == Sentinel(side) then lower
    else if side == SELL then
      if best < lower + TRIGGER_ZONE || best > higher - 2 * TRIGGER_ZONE then Recentred(side, best) else lower
    else
      if best < lower + 2 * TRIGGER_ZONE || best > higher - TRIGGER_ZONE then Recentred(side, best) else lower
  }

  // The window's lower edge after the best price went from `was` to `best` because of a new level.
  function SlidAfterAdd(side: Side, lower: int, was: int, best: int): int {
    if best == was then lower
    else if side == SELL then if best < lower + TRIGGER_ZONE then Recentred(side, best) else lower
    else if best > lower + LADDER_DEPTH - 1 - TRIGGER_ZONE then Recentred(side, best) else lower
  }

  // After a removal a bid stands 50 to 230 ticks above the lower edge of the 256-tick window and an ask 25 to 205; a
  // window in which it already did stays, any other is put 25 ticks in front of it.
  lemma RemovalWindow(side: Side, lower: int, best: int)
    requires best != Sentinel(side)
    ensures var now := SlidAfterRemoval(side, lower, best);
            if side == BUY then
              now + 50 <= best <= now + 230 && now == if lower + 50 <= best <= lower + 230 then lower else best - 230
            else
              now + 25 <= best <= now + 205 && now == if lower + 25 <= best <= lower + 205 then lower else best - 25
  {}

  // A new best level leaves the window where it is unless it comes within 25 ticks of the edge it moves towards; then
  // the window is put exactly 25 ticks in front of it.
  lemma AdditionWindow(side: Side, lower: int, was: int, best: int)
    ensures var now := SlidAfterAdd(side, lower, was, best);
            && (best == was ==> now == lower)
            && (best != was && side == BUY ==>
                  best <= now + 230 && now == if best <= lower + 230 then lower else best - 230)
            && (best != was && side == SELL ==>
                  now + 25 <= best && now == if lower + 25 <= best then lower else best - 25)
  {}

  // What the scan can see once the level at `best` is gone: either the window is empty, or one of
  // its levels lies fewer than four 64-price blocks away.
  ghost predicate Reaches(side: Side, lower: int, best: int, prices: set<int>) {
    || (forall q | q in prices :: !(lower <= q <= lower + 255))
    || (exists q | q in prices :: lower <= q <= lower + 255 && !AtLeast(side, best, 4, q))
  }

  // The quantity standing at each price.
  ghost function Quantities(levels: Levels): (m: map<int, int>)
    ensures m.Keys == levels.Keys
  {
    map p | p in levels :: levels[p].quantity
  }

  // No level that shares the best price's occupancy word from the other end of the window is worse
  // than `worst`: the walk meets those levels first.
  ghost predicate Unobstructed(side: Side, lower: int, best: int, prices: set<int>, worst: int) {
    || Better(side, worst, best)
    || forall q | q in prices && lower <= q <= lower + 255 && AtLeast(side, best, 4, q) :: !Better(side, worst, q)
  }

  // When the walk that starts in the word of `best` comes to the word of p.
  function Turn(side: Side, best: int, p: int): int {
    if side == SELL then (Block(p) - Block(best)) % 4 else (Block(best) - Block(p)) % 4
  }

  lemma TurnOfWord(side: Side, best: int, p: int, i: int)
    requires 0 <= i < 4
    ensures Turn(side, best, p) == i <==> Block(p) % 4 == WordAt(side, best, i)
  {}

  // The walk over the first i words has taken exactly their levels.
  ghost predicate Visited(side: Side, r: Rep, levels: Levels, best: int, i: int, seen: set<int>) {
    && seen <= levels.Keys
    && (forall p | p in seen :: r.InWindow(p))
    && (forall p | p in levels && r.InWindow(p) :: p in seen <==> Turn(side, best, p) < i)
  }

  // In word k the walk took the levels before q, and q is worse than `worst`.
  ghost predicate Barrier(side: Side, r: Rep, levels: Levels, worst: int, k: int, more: set<int>, q: int) {
    && q in levels && r.InWindow(q) && Block(q) % 4 == k && Better(side, worst, q)
    && forall p | p in levels && r.InWindow(p) && Block(p) % 4 == k ::
         p in more <==> if side == SELL then p % 64 < q % 64 else q % 64 < p % 64
  }

  lemma VisitDisjoint(side: Side, r: Rep, levels: Levels, best: int, i: int, seen: set<int>, more: set<int>)
    requires Visited(side, r, levels, best, i, seen) && 0 <= i < 4 && more <= levels.Keys
    requires forall p | p in more :: r.InWindow(p) && Block(p) % 4 == WordAt(side, best, i)
    ensures seen !! more
  {
    forall p | p in more ensures p !in seen { TurnOfWord(side, best, p, i); }
  }

  // Inside word k: the bits left in `word` are those whose levels were not taken, and they come later.
  ghost predicate InWord(side: Side, r: Rep, levels: Levels, worst: int, k: int, word: Word, more: set<int>)
    requires r.Shaped() && 0 <= k < 4
  {
    && more <= levels.Keys
    && (forall p | p in more :: r.InWindow(p) && Block(p) % 4 == k && !Better(side, worst, p))
    && (forall j | 0 <= j < 64 && word[j] :: r.words[k][j])
    && (forall p | p in levels && r.InWindow(p) && Block(p) % 4 == k :: p in more <==> !word[p % 64])
    && (forall j, l | 0 <= j < 64 && 0 <= l < 64 && r.words[k][j] && !word[j] && word[l] ::
          if side == SELL then j < l else l < j)
  }

  lemma InWordStart(side: Side, r: Rep, levels: Levels, worst: int, k: int)
    requires Stands(r, levels) && 0 <= k < 4
    ensures InWord(side, r, levels, worst, k, r.words[k], {})
  {
    forall p | p in levels && r.InWindow(p) && Block(p) % 4 == k
      ensures r.words[k][p % 64]
    {
      LevelIsBit(r, levels, p);
    }
  }

  lemma InWordStep(side: Side, r: Rep, levels: Levels, worst: int, k: int, word: Word, more: set<int>, bit: int,
                   price: int)
    requires Stands(r, levels) && 0 <= k < 4 && InWord(side, r, levels, worst, k, word, more)
    requires FirstBit(side, word, bit) && price == r.slots[64 * k + bit].price && !Better(side, worst, price)
    ensures price in levels && price !in more && InWord(side, r, levels, worst, k, ClearBit(word, bit), more + {price})
  {
    BitIsLevel(r, levels, k, bit);
    SlotOfPrice(price);
    forall p | p in levels && r.InWindow(p) && Block(p) % 4 == k && p % 64 == bit ensures p == price {
      SlotOfPrice(p);
      SlotIsUnique(r.lower, p, price);
    }
  }

  lemma InWordStop(side: Side, r: Rep, levels: Levels, worst: int, k: int, word: Word, more: set<int>, bit: int,
                   price: int)
    requires Stands(r, levels) && 0 <= k < 4 && InWord(side, r, levels, worst, k, word, more)
    requires FirstBit(side, word, bit) && price == r.slots[64 * k + bit].price && Better(side, worst, price)
    ensures Barrier(side, r, levels, worst, k, more, price)
  {
    BitIsLevel(r, levels, k, bit);
    SlotOfPrice(price);
    forall p | p in levels && r.InWindow(p) && Block(p) % 4 == k
      ensures r.words[k][p % 64]
    {
      LevelIsBit(r, levels, p);
    }
  }

  lemma VisitStep(side: Side, r: Rep, levels: Levels, best: int, i: int, seen: set<int>, more: set<int>)
    requires Visited(side, r, levels, best, i, seen) && 0 <= i < 4 && more <= levels.Keys
    requires forall p | p in more :: r.InWindow(p) && Block(p) % 4 == WordAt(side, best, i)
    requires forall p | p in levels && r.InWindow(p) && Block(p) % 4 == WordAt(side, best, i) :: p in more
    ensures Visited(side, r, levels, best, i + 1, seen + more)
  {
    forall p | p in levels && r.InWindow(p) ensures p in seen + more <==> Turn(side, best, p) < i + 1 {
      TurnOfWord(side, best, p, i);
    }
  }

  // How many blocks p lies behind `best`.
  function Distance(side: Side, best: int, p: int): int {
    if side == SELL then Block(p) - Block(best) else Block(best) - Block(p)
  }

  // A level of the window is at most four blocks behind the best one, and four only in its own word.
  lemma DistanceIsTurn(side: Side, lower: int, best: int, p: int)
    requires lower <= best <= lower + 255 && lower <= p <= lower + 255 && (p == best || Better(side, best, p))
    ensures var d := Distance(side, best, p);
            && 0 <= d <= 4 && Turn(side, best, p) == (if d == 4 then 0 else d) && Turn(side, best, best) == 0
            && (d == 4 <==> AtLeast(side, best, 4, p))
            && (d == 4 ==> if side == SELL then p % 64 < best % 64 else best % 64 < p % 64)
  {}
}
