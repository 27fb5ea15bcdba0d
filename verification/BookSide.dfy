/** One side of the limit order book: the circular ladder, its occupancy words, the sliding window,
    the best price and the overflow map, updated in place.

    `levels` is the price-to-level map the side stands for.  */
module BookSides {
  import opened Bits
  import opened Deltas
  import opened MarketTypes
  import opened Ladder
  import opened Liquidities
  import opened OrderedKeys
  import opened Scans
  import opened Snapshots
  import opened Totals

  class BookSide {
    const side: Side
    const ladder: array<PriceLevel>
    const mask: array<Word>
    var lower: int
    var higher: int
    var best: int
    var overflow: Levels

    ghost var levels: Levels

    ghost function Repr(): Rep
      reads this`lower, this`overflow, ladder, mask
    {
      Rep(lower, ladder[..], mask[..], overflow)
    }

    // The representation stands for `levels`, all of them at legal prices.
    ghost predicate Structured()
      reads this`lower, this`higher, this`overflow, this`levels, ladder, mask
    {
      && ladder.Length == LADDER_DEPTH && mask.Length == LADDER_WORDS && higher == lower + LADDER_DEPTH - 1
      && Stands(Repr(), levels) && Legal(levels.Keys)
    }

    // The best price is the sentinel, a live level of the window, or the first overflow level beyond it.
    ghost predicate Pointed()
      reads this
    {
      if best == Sentinel(side) then overflow == map[]
      else
        && best in levels
        && (lower <= best <= higher
            || (Beyond(best) && First(side, overflow.Keys) == Some(best)))
    }

    // The price lies past the far edge of the window.
    ghost predicate Beyond(price: int)
      reads this
    {
      if side == SELL then higher < price else price < lower
    }

    ghost predicate Valid()
      reads this, ladder, mask
    {
      Structured() && Pointed()
    }

    // The best price is the extremal one.
    ghost predicate Exact()
      reads this`best, this`levels
    {
      IsBest(side, best, levels.Keys)
    }

    // What a market-data stream shows of this side.
    ghost function View(): SideView
      reads this`lower, this`best, this`levels
    {
      SideView(Window(lower, best), Quantities(levels))
    }

    constructor (side: Side)
      ensures this.side == side && Valid() && Exact() && fresh(ladder) && fresh(mask)
      ensures levels == map[] && lower == 0 && best == Sentinel(side)
    {
      this.side := side;
      ladder := new PriceLevel[LADDER_DEPTH](_ => EMPTY_LEVEL);
      mask := new Word[LADDER_WORDS](_ => ZERO);
      lower, higher := 0, LADDER_DEPTH - 1;
      best := if side == SELL then NO_ASK else NO_BID;
      overflow, levels := map[], map[];
    }

    // Moves the levels of the occupied slots of one word, from slot idx on, to the overflow map.
    method EvictChunk(idx: int, count: int)
      requires 0 <= idx < 256 && 1 <= count && idx % 64 + count <= 64
      requires ladder.Length == 256 && mask.Length == 4 && Tied(Repr(), levels)
      modifies this`overflow, ladder, mask
      ensures Tied(Repr(), levels)
      ensures Unloaded(old(Repr()), Repr(), idx, idx + count)
    {
      hide Tied;
      var wordIndex, bitIndex := idx / 64, idx % 64;
      var word := And(ShiftRight(mask[wordIndex], bitIndex), LowMask(count));
      ghost var r0, r, next := Repr(), Repr(), idx;
      while word != ZERO
        invariant r == Repr() && Tied(r, levels) && idx <= next <= idx + count
        invariant forall j | 0 <= j < 64 && word[j] :: next - idx <= j < count
        invariant forall s | next <= s < idx + count :: r.Marked(s) == word[s - idx]
        invariant Unloaded(r0, r, idx, next)
        decreases idx + 64 - next
      {
        var activeBit := CountrZero(word);
        var found := bitIndex + activeBit;
        var globalIndex := wordIndex * 64 + found;
        assert globalIndex == idx + activeBit;
        UnloadStep(r0, r, levels, idx, globalIndex);

        var evictPrice := ladder[globalIndex].price;
        overflow := overflow[evictPrice := ladder[globalIndex]];
        ladder[globalIndex] := EMPTY_LEVEL;
        mask[wordIndex] := ClearBit(mask[wordIndex], found);
        word := ClearBit(word, activeBit);

        assert Repr() == Evicted(r, globalIndex);
        r, next := Repr(), globalIndex + 1;
      }
      NonZeroHasBit(word);
    }

    // Moves every level priced from low to high to the overflow map, one word-sized chunk at a time.
    method Evict(low: int, high: int)
      requires ladder.Length == 256 && mask.Length == 4 && Tied(Repr(), levels)
      requires lower <= low <= high <= lower + 255
      modifies this`overflow, ladder, mask
      ensures Tied(Repr(), levels)
      ensures Thinned(old(Repr()), Repr(), low, high)
    {
      hide Tied;
      var totalSlots, currentIdx := high - low + 1, low % LADDER_DEPTH;
      ghost var r0, r := Repr(), Repr();
      while totalSlots > 0
        invariant 0 <= totalSlots <= high - low + 1
        invariant currentIdx == (high + 1 - totalSlots) % 256
        invariant r == Repr() && Tied(r, levels) && Thinned(r0, r, low, high - totalSlots)
      {
        var count := if 64 - currentIdx % 64 < totalSlots then 64 - currentIdx % 64 else totalSlots;
        EvictChunk(currentIdx, count);
        ChunkFits(currentIdx, count);
        ThinStep(r0, r, Repr(), levels, low, high + 1 - totalSlots, count);
        r := Repr();
        NextIndex(high + 1 - totalSlots, count);
        totalSlots := totalSlots - count;
        currentIdx := (currentIdx + count) % LADDER_DEPTH;
      }
    }

    // Evicts what the window moving to newLower leaves behind.
    method EvictOutside(newLower: int)
      requires ladder.Length == 256 && mask.Length == 4 && higher == lower + 255 && Tied(Repr(), levels)
      modifies this`overflow, ladder, mask
      ensures Tied(Repr(), levels) && Fits(Repr(), newLower)
    {
      var newHigher := newLower + LADDER_DEPTH - 1;
      if newLower > higher || newHigher < lower {
        Evict(lower, higher);
      } else {
        if newLower > lower {
          Evict(lower, newLower - 1);
        }
        if newHigher < higher {
          Evict(newHigher + 1, higher);
        }
      }
      forall s | 0 <= s < 256 && Repr().Marked(s) ensures newLower <= ladder[s].price <= newHigher {
        assert SlotHolds(Repr(), levels, s);
      }
    }

    // The scan of the occupancy words above the best ask; None means no occupied bit was met.
    method ScanAsks() returns (next: Option<int>)
      requires side == SELL && Structured() && lower <= best <= higher
      ensures next == ScanFrom(SELL, lower, best, levels.Keys, 0)
    {
      hide ScanFrom, Stands;
      ghost var r := Repr();
      SlotOfPrice(best);
      SlotOfPrice(higher);
      var wordIndex, bitIndex := best % LADDER_DEPTH / 64, best % LADDER_DEPTH % 64;
      var masked := And(mask[wordIndex], AboveMask(bitIndex));
      NextWord(wordIndex, best, 0);
      if masked != ZERO {
        var bit := CountrZero(masked);
        ScanHit(SELL, r, levels, best, 0, masked, bit);
        return Some(ladder[64 * wordIndex + bit].price);
      }
      ScanMiss(SELL, r, levels, best, 0, masked);
      for i := 1 to LADDER_WORDS
        invariant ScanFrom(SELL, lower, best, levels.Keys, 0) == ScanFrom(SELL, lower, best, levels.Keys, i)
      {
        var nextWord := (wordIndex + i) % LADDER_WORDS;
        var topWord := higher % LADDER_DEPTH / 64;
        NextWord(wordIndex, best, i);
        if nextWord == topWord {
          var boundary := And(mask[nextWord], UpToMask(higher % LADDER_DEPTH % 64));
          if boundary != ZERO {
            var bit := CountrZero(boundary);
            ScanHit(SELL, r, levels, best, i, boundary, bit);
            return Some(ladder[64 * nextWord + bit].price);
          }
          ScanMiss(SELL, r, levels, best, i, boundary);
          return None;
        }
        if mask[nextWord] != ZERO {
          var bit := CountrZero(mask[nextWord]);
          ScanHit(SELL, r, levels, best, i, mask[nextWord], bit);
          return Some(ladder[64 * nextWord + bit].price);
        }
        ScanMiss(SELL, r, levels, best, i, mask[nextWord]);
      }
      ScanEnds(SELL, lower, best, levels.Keys);
      return None;
    }

    // The scan below the best bid.
    method ScanBids() returns (next: Option<int>)
      requires side == BUY && Structured() && lower <= best <= higher
      ensures next == ScanFrom(BUY, lower, best, levels.Keys, 0)
    {
      hide ScanFrom, Stands;
      ghost var r := Repr();
      SlotOfPrice(best);
      SlotOfPrice(lower);
      var wordIndex, bitIndex := best % LADDER_DEPTH / 64, best % LADDER_DEPTH % 64;
      var masked := And(mask[wordIndex], LowMask(bitIndex));
      NextWord(wordIndex, best, 0);
      if masked != ZERO {
        var bit := HighestBit(masked);
        ScanHit(BUY, r, levels, best, 0, masked, bit);
        return Some(ladder[64 * wordIndex + bit].price);
      }
      ScanMiss(BUY, r, levels, best, 0, masked);
      for i := 1 to LADDER_WORDS
        invariant ScanFrom(BUY, lower, best, levels.Keys, 0) == ScanFrom(BUY, lower, best, levels.Keys, i)
      {
        var nextWord := (wordIndex - i + LADDER_WORDS) % LADDER_WORDS;
        var bottomWord := lower % LADDER_DEPTH / 64;
        NextWord(wordIndex, best, i);
        if nextWord == bottomWord {
          var boundary := And(mask[nextWord], FromMask(lower % LADDER_DEPTH % 64));
          if boundary != ZERO {
            var bit := HighestBit(boundary);
            ScanHit(BUY, r, levels, best, i, boundary, bit);
            return Some(ladder[64 * nextWord + bit].price);
          }
          ScanMiss(BUY, r, levels, best, i, boundary);
          return None;
        }
        if mask[nextWord] != ZERO {
          var bit := HighestBit(mask[nextWord]);
          ScanHit(BUY, r, levels, best, i, mask[nextWord], bit);
          return Some(ladder[64 * nextWord + bit].price);
        }
        ScanMiss(BUY, r, levels, best, i, mask[nextWord]);
      }
      ScanEnds(BUY, lower, best, levels.Keys);
      return None;
    }

    // Moves the overflow levels of the window newLower .. newHigher into their slots.
    method Migrate(newLower: int, newHigher: int)
      requires newHigher == newLower + 255
      requires ladder.Length == 256 && mask.Length == 4 && Tied(Repr(), levels) && Fits(Repr(), newLower)
      modifies this`overflow, ladder, mask
      ensures Stands(Repr().(lower := newLower), levels)
    {
      hide First, Tied;
      var inRange := set k | k in overflow.Keys && newLower <= k <= newHigher;
      var ahead := inRange;
      ghost var r, was := Repr().(lower := newLower), overflow;
      RebaseKeeps(Repr(), levels, newLower);
      while ahead != {}
        invariant ahead <= inRange && overflow == was && Tied(r, levels)
        invariant r == Rep(newLower, ladder[..], mask[..], r.overflow)
        invariant r.overflow == overflow - (inRange - ahead)
        decreases |ahead|
      {
        var p := First(side, ahead).value;
        MigrateKeeps(r, levels, p);
        DropOne(overflow, inRange, ahead, p);
        ladder[p % LADDER_DEPTH] := overflow[p];
        mask[p % LADDER_DEPTH / 64] := SetBit(mask[p % LADDER_DEPTH / 64], p % LADDER_DEPTH % 64);
        ahead := ahead - {p};
        r := Migrated(r, p);
      }
      assert inRange - ahead == inRange;
      overflow := overflow - inRange;
      assert r == Repr().(lower := newLower) && Windowed(r);
    }

    // Re-centres the window 25 ticks in front of the best ask.
    method ShiftAskWindow()
      requires side == SELL && Structured()
      modifies this`overflow, this`lower, this`higher, ladder, mask
      ensures Structured() && lower == Recentred(SELL, best)
    {
      var newLower := best - TRIGGER_ZONE;
      var newHigher := newLower + LADDER_DEPTH - 1;
      EvictOutside(newLower);
      Migrate(newLower, newHigher);
      lower, higher := newLower, newHigher;
    }

    // Re-centres the window 25 ticks in front of the best bid.
    method ShiftBidWindow()
      requires side == BUY && Structured()
      modifies this`overflow, this`lower, this`higher, ladder, mask
      ensures Structured() && lower == Recentred(BUY, best)
    {
      var newHigher := best + TRIGGER_ZONE;
      var newLower := newHigher - LADDER_DEPTH + 1;
      EvictOutside(newLower);
      Migrate(newLower, newHigher);
      lower, higher := newLower, newHigher;
    }

    // The next best ask once the level at `best` is gone.
    method FindNextBestAsk()
      requires side == SELL && Structured() && best !in levels && lower <= best
      modifies this`best, this`overflow, this`lower, this`higher, ladder, mask
      ensures Valid() && lower == SlidAfterRemoval(SELL, old(lower), best)
      ensures best != NO_ASK ==>
                && lower + 25 <= best <= lower + 205
                && lower == if old(lower) + 25 <= best <= old(lower) + 205 then old(lower) else best - 25
      ensures best == NextBest(SELL, old(lower), old(best), levels.Keys)
      ensures (forall q | q in levels :: old(best) < q) ==>
                (Exact() <==> Reaches(SELL, old(lower), old(best), levels.Keys))
    {
      var next := None;
      if lower <= best <= higher {
        next := ScanAsks();
      }
      ghost var was := best;
      if next.Some? {
        best := next.value;
      } else if overflow == map[] {
        best := NO_ASK;
      } else {
        best := First(SELL, overflow.Keys).value;
      }
      OverflowIsOutside(Repr(), levels);
      NextBestVerdict(SELL, lower, was, levels.Keys);
      if best != NO_ASK {
        if best < lower + TRIGGER_ZONE || best > higher - 2 * TRIGGER_ZONE {
          ShiftAskWindow();
        }
      }
    }

    // The next best bid once the level at `best` is gone.
    method FindNextBestBid()
      requires side == BUY && Structured() && best !in levels && best <= higher
      modifies this`best, this`overflow, this`lower, this`higher, ladder, mask
      ensures Valid() && lower == SlidAfterRemoval(BUY, old(lower), best)
      ensures best != NO_BID ==>
                && lower + 50 <= best <= lower + 230
                && lower == if old(lower) + 50 <= best <= old(lower) + 230 then old(lower) else best - 230
      ensures best == NextBest(BUY, old(lower), old(best), levels.Keys)
      ensures (forall q | q in levels :: q < old(best)) ==>
                (Exact() <==> Reaches(BUY, old(lower), old(best), levels.Keys))
    {
      var next := None;
      if lower <= best <= higher {
        next := ScanBids();
      }
      ghost var was := best;
      if next.Some? {
        best := next.value;
      } else if overflow == map[] {
        best := NO_BID;
      } else {
        best := First(BUY, overflow.Keys).value;
      }
      OverflowIsOutside(Repr(), levels);
      NextBestVerdict(BUY, lower, was, levels.Keys);
      if best != NO_BID {
        if best < lower + 2 * TRIGGER_ZONE || best > higher - TRIGGER_ZONE {
          ShiftBidWindow();
        }
      }
    }

    // The level at a price; a price without one reads as an empty level.
    function At(price: int): PriceLevel
      reads this, ladder, mask
      requires Structured()
      ensures price in levels ==> At(price) == levels[price]
      ensures price !in levels ==> Clear(At(price))
    {
      if lower <= price <= higher then
        BitDecides(Repr(), levels, price);
        ladder[price % LADDER_DEPTH]
      else if price in overflow then overflow[price]
      else EMPTY_LEVEL
    }

    // What the memory of a price holds, level or not.
    function Raw(price: int): PriceLevel
      reads this, ladder
      requires ladder.Length == LADDER_DEPTH
    {
      if lower <= price <= higher then ladder[price % LADDER_DEPTH]
      else if price in overflow then overflow[price]
      else EMPTY_LEVEL
    }

    // A write through the reference to the memory of a price, which marks nothing.
    method WriteRaw(price: int, v: PriceLevel)
      requires ladder.Length == LADDER_DEPTH
      modifies this`overflow, ladder
      ensures Raw(price) == v
    {
      if lower <= price <= higher {
        ladder[price % LADDER_DEPTH] := v;
      } else {
        overflow := overflow[price := v];
      }
    }

    // Stores the level at a price, marking its slot or its overflow entry.
    method Put(price: int, v: PriceLevel)
      requires Structured() && v.price == price && 0 < price < PRICE_LIMIT
      modifies this`overflow, this`levels, ladder, mask
      ensures Structured() && levels == old(levels)[price := v]
      ensures overflow.Keys == old(overflow).Keys + if lower <= price <= higher then {} else {price}
      ensures old(Pending(price)) || (old(Pointed()) && price in old(levels)) ==> Valid()
    {
      WriteKeeps(Repr(), levels, price, v);
      ghost var r := Written(Repr(), price, v);
      ghost var keys := overflow.Keys;
      if lower <= price <= higher {
        ladder[price % LADDER_DEPTH] := v;
        mask[price % LADDER_DEPTH / 64] := SetBit(mask[price % LADDER_DEPTH / 64], price % LADDER_DEPTH % 64);
      } else {
        overflow := overflow[price := v];
        assert overflow.Keys == keys + {price};
      }
      levels := levels[price := v];
      assert Repr() == r;
    }

    // The best price is the one Pointed describes once there is a level at `price`.
    ghost predicate Pending(price: int)
      reads this
    {
      && best != Sentinel(side) && (best == price || best in levels)
      && (lower <= best <= higher
          || (Beyond(best) && First(side, overflow.Keys + {price}) == Some(best)))
    }

    // Moves the best price, and if need be the window, to a better price.
    method Improve(price: int)
      requires Valid() && 0 < price < PRICE_LIMIT
      modifies this`best, this`overflow, this`lower, this`higher, ladder, mask
      ensures Structured() && Pending(price)
      ensures best == if Better(side, price, old(best)) then price else old(best)
      ensures lower == SlidAfterAdd(side, old(lower), old(best), best)
      ensures best != old(best) ==>
                lower == if side == BUY then if best <= old(lower) + 230 then old(lower) else best - 230
                         else if old(lower) + 25 <= best then old(lower) else best - 25
    {
      if side == SELL {
        if price < best {
          best := price;
          if best < lower + TRIGGER_ZONE {
            ShiftAskWindow();
          }
        }
      } else {
        if price > best {
          best := price;
          if best > higher - TRIGGER_ZONE {
            ShiftBidWindow();
          }
        }
      }
    }

    // Unmarks an emptied level; the best price is not looked at.
    method Erase(price: int)
      requires Structured() && (price in levels ==> Clear(levels[price]))
      modifies this`overflow, this`levels, mask
      ensures Structured() && levels == old(levels) - {price}
      ensures old(Pointed()) && price != best ==> Pointed()
    {
      ghost var v, keys := At(price), overflow.Keys;
      ghost var r := Erased(Repr(), price, v);
      EraseKeeps(Repr(), levels, price, v);
      if lower <= price <= higher {
        mask[price % LADDER_DEPTH / 64] := ClearBit(mask[price % LADDER_DEPTH / 64], price % LADDER_DEPTH % 64);
      } else {
        overflow := overflow - {price};
        assert overflow.Keys == keys - {price};
      }
      levels := levels - {price};
      assert Repr() == r;
    }

    // Clears whatever is stored at a price, and its mark.
    method Wipe(price: int)
      requires Structured()
      modifies this`overflow, this`levels, ladder, mask
      ensures Structured() && levels == old(levels) - {price}
      ensures old(Pointed()) && price != best ==> Pointed()
    {
      ghost var r, keys := Erased(Repr(), price, EMPTY_LEVEL), overflow.Keys;
      EraseKeeps(Repr(), levels, price, EMPTY_LEVEL);
      if lower <= price <= higher {
        ladder[price % LADDER_DEPTH] := EMPTY_LEVEL;
        mask[price % LADDER_DEPTH / 64] := ClearBit(mask[price % LADDER_DEPTH / 64], price % LADDER_DEPTH % 64);
      } else {
        overflow := overflow - {price};
        assert overflow.Keys == keys - {price};
      }
      levels := levels - {price};
      assert Repr() == r;
    }

    // The best price after the level at `price` is gone.
    method Reselect(price: int)
      requires Structured() && price !in levels && 0 < price < PRICE_LIMIT
      requires if price == best then (if side == SELL then lower <= best else best <= higher) else Pointed()
      modifies this`best, this`overflow, this`lower, this`higher, ladder, mask
      ensures Valid()
      ensures lower == if price == old(best) then SlidAfterRemoval(side, old(lower), best) else old(lower)
      ensures best == if price == old(best) then NextBest(side, old(lower), price, levels.Keys) else old(best)
      ensures IsBest(side, old(best), levels.Keys + {old(best)}) ==>
                (Exact() <==> price != old(best) || Reaches(side, old(lower), price, levels.Keys))
    {
      if price == best {
        if side == SELL {
          FindNextBestAsk();
        } else {
          FindNextBestBid();
        }
      } else if IsBest(side, best, levels.Keys + {best}) {
        if best == Sentinel(side) {
          forall q | q in levels.Keys ensures false {}
          assert levels.Keys == {};
        }
      }
    }

    // Removes an emptied level.
    method RemoveLevel(price: int)
      requires Valid() && price in levels && Clear(levels[price])
      modifies this, ladder, mask
      ensures Valid() && levels == old(levels) - {price}
      ensures lower == if price == old(best) then SlidAfterRemoval(side, old(lower), best) else old(lower)
      ensures best == if price == old(best) then NextBest(side, old(lower), price, levels.Keys) else old(best)
      ensures old(Exact()) ==> (Exact() <==> price != old(best) || Reaches(side, old(lower), price, levels.Keys))
    {
      Erase(price);
      Reselect(price);
    }

    // Writes a level back, and removes it when it is empty.
    method StoreLevel(v: PriceLevel)
      requires Valid() && v.price in levels && 0 <= v.quantity && (v.quantity == 0 ==> Clear(v))
      modifies this, ladder, mask
      ensures Valid()
      ensures levels == if v.quantity == 0 then old(levels) - {v.price} else old(levels)[v.price := v]
      ensures 0 < v.price < PRICE_LIMIT && View() == StoreSide(side, old(View()), v.price, v.quantity)
    {
      hide Stands, NextBest, Reaches;
      ghost var before, w := levels, View().window;
      Put(v.price, v);
      AddedLevel(before, v);
      assert levels.Keys == before.Keys;
      if v.quantity == 0 {
        assert before[v.price := v] - {v.price} == before - {v.price};
        ErasedLevel(before, v.price);
        RemoveLevel(v.price);
        assert View().quantities.Keys == levels.Keys;
      }
    }

    // Removes the level at a price whose memory holds v, links and all.  The links stay behind in a ladder slot; they
    // are written last here, since nothing on the way reads a slot that is not marked.
    method RemoveStale(price: int, v: PriceLevel)
      requires Valid() && price in levels
      modifies this, ladder, mask
      ensures levels == old(levels) - {price} && View() == StoreSide(side, old(View()), price, 0)
      ensures ladder.Length == LADDER_DEPTH && mask.Length == LADDER_WORDS
      ensures old(lower <= price <= higher) ==>
                var slot := price % LADDER_DEPTH; mask[slot / 64][slot % 64] || ladder[slot] == v
    {
      var inLadder, slot := lower <= price <= higher, price % LADDER_DEPTH;
      StoreLevel(PriceLevel(price, 0, -1, -1));
      if inLadder && !mask[slot / 64][slot % 64] {
        ladder[slot] := v;
      }
    }

    // Overwrites the level at a price, then looks whether it became the best.
    method Overwrite(price: int, newQuantity: int)
      requires Valid() && 0 < price < PRICE_LIMIT
      modifies this, ladder, mask
      ensures Valid() && levels == old(levels)[price := PriceLevel(price, newQuantity, -1, -1)]
      ensures best == if Better(side, price, old(best)) then price else old(best)
      ensures lower == SlidAfterAdd(side, old(lower), old(best), best)
      ensures best != old(best) ==>
                lower == if side == BUY then if best <= old(lower) + 230 then old(lower) else best - 230
                         else if old(lower) + 25 <= best then old(lower) else best - 25
    {
      ghost var pending, first := Better(side, price, best) || Pending(price), First(side, overflow.Keys + {price});
      Put(price, PriceLevel(price, newQuantity, -1, -1));
      if side == SELL {
        if price < best {
          best := price;
          if best < lower + TRIGGER_ZONE {
            ShiftAskWindow();
          }
        }
      } else {
        if price > best {
          best := price;
          if best > higher - TRIGGER_ZONE {
            ShiftBidWindow();
          }
        }
      }
    }

    // Overwrites the quantity of a level as published; zero removes it.
    method ApplyDelta(price: int, newQuantity: int)
      requires Valid() && 0 < price < PRICE_LIMIT && 0 <= newQuantity
      modifies this, ladder, mask
      ensures Valid()
      ensures levels == if newQuantity == 0 then old(levels) - {price}
                        else old(levels)[price := PriceLevel(price, newQuantity, -1, -1)]
      ensures newQuantity == 0 && old(Exact()) ==>
                (Exact() <==> price != old(best) || Reaches(side, old(lower), price, levels.Keys))
      ensures View() == DeliverSide(side, old(View()), price, newQuantity)
    {
      hide Stands, NextBest, Recentred, Reaches;
      ghost var before := levels;
      if newQuantity == 0 {
        Wipe(price);
        ErasedLevel(before, price);
        Reselect(price);
        assert View().quantities.Keys == levels.Keys;
      } else {
        Overwrite(price, newQuantity);
        AddedLevel(before, PriceLevel(price, newQuantity, -1, -1));
      }
    }

    // A new order's quantity joins the level at a price, which becomes the best if it is better.
    method AddQuantity(price: int, quantity: int, k: int) returns (v: PriceLevel)
      requires Valid() && 0 < price < PRICE_LIMIT && 0 < quantity && (price in levels ==> 0 < levels[price].quantity)
      modifies this, ladder, mask
      ensures Valid()
      ensures v.price == price
      ensures if price in old(levels) then v == old(levels)[price] else v == PriceLevel(price, 0, -1, -1)
      ensures levels == old(levels)[price := PriceLevel(price, v.quantity + quantity,
                                                        if v.tail == -1 then k else v.head, k)]
      ensures 0 <= v.quantity && View() == DeliverSide(side, old(View()), price, v.quantity + quantity)
    {
      ghost var before := levels;
      Improve(price);
      v := At(price);
      v := v.(price := price);
      var v' := PriceLevel(price, v.quantity + quantity, if v.tail == -1 then k else v.head, k);
      Put(price, v');
      AddedLevel(before, v');
    }

    // Adds the levels of one occupancy word, in the side's order, until one is worse than `worst`.
    method AddWord(k: int, worst: int, total0: int)
      returns (stop: bool, total: int, ghost more: set<int>, ghost barrier: int)
      requires Structured() && 0 <= k < 4
      ensures more <= levels.Keys && total == total0 + Total(Quantities(levels), more)
      ensures forall p | p in more :: lower <= p <= higher && Block(p) % 4 == k && !Better(side, worst, p)
      ensures !stop ==> forall p | p in levels && lower <= p <= higher && Block(p) % 4 == k :: p in more
      ensures stop ==> Barrier(side, Repr(), levels, worst, k, more, barrier)
    {
      var word := mask[k];
      total, more, barrier := total0, {}, 0;
      ghost var r := Repr();
      InWordStart(side, r, levels, worst, k);
      while word != ZERO
        invariant InWord(side, r, levels, worst, k, word, more)
        invariant total == total0 + Total(Quantities(levels), more)
        decreases PopCount(word)
      {
        var bit;
        if side == SELL { bit := CountrZero(word); } else { bit := HighestBit(word); }
        BitIsLevel(r, levels, k, bit);
        var price := ladder[64 * k + bit].price;
        SlotOfPrice(price);
        if Better(side, worst, price) {
          barrier := price;
          InWordStop(side, r, levels, worst, k, word, more, bit, price);
          return true, total, more, barrier;
        }
        InWordStep(side, r, levels, worst, k, word, more, bit, price);
        TotalAdd(Quantities(levels), more, price);
        total := total + ladder[64 * k + bit].quantity;
        more := more + {price};
        PopCountClear(word, bit);
        word := ClearBit(word, bit);
      }
      NonZeroHasBit(word);
      stop := false;
    }

    // Adds the levels of the window that are at `worst` or better, starting in the word of the best price.
    method WalkLadder(worst: int) returns (stop: bool, total: int, ghost seen: set<int>)
      requires Structured() && lower <= best <= higher && best in levels && best != Sentinel(side)
      requires !Better(side, worst, best)
      ensures seen <= Eligible(side, Quantities(levels), worst) && total == Total(Quantities(levels), seen)
      ensures !stop ==> Visited(side, Repr(), levels, best, 4, seen)
      ensures stop ==> seen == Found(side, lower, best, levels.Keys, worst)
    {
      var wordIndex := best % LADDER_DEPTH / 64;
      SlotOfPrice(best);
      total, seen := 0, {};
      for i := 0 to LADDER_WORDS
        invariant seen <= Eligible(side, Quantities(levels), worst) && total == Total(Quantities(levels), seen)
        invariant Visited(side, Repr(), levels, best, i, seen)
      {
        var nextWord :=
          if side == SELL then (wordIndex + i) % LADDER_WORDS else (wordIndex - i + LADDER_WORDS) % LADDER_WORDS;
        NextWord(wordIndex, best, i);
        ghost var more: set<int>;
        ghost var barrier: int;
        stop, total, more, barrier := AddWord(nextWord, worst, total);
        ghost var before := seen;
        VisitDisjoint(side, Repr(), levels, best, i, seen, more);
        TotalUnion(Quantities(levels), seen, more);
        seen := seen + more;
        if stop {
          FoundAtStop(side, Repr(), levels, best, worst, i, before, more, barrier);
          return;
        }
        VisitStep(side, Repr(), levels, best, i, before, more);
      }
      stop := false;
    }

    // Adds the overflow levels, in the side's order, until one is worse than `worst`.
    method WalkOverflow(worst: int, total0: int) returns (total: int, ghost ahead: set<int>)
      requires Structured()
      ensures ahead <= overflow.Keys <= levels.Keys
              && total == total0 + Total(Quantities(levels), overflow.Keys - ahead)
      ensures forall p | p in overflow.Keys - ahead :: !Better(side, worst, p)
      ensures ahead == {} || Better(side, worst, First(side, ahead).value)
    {
      OverflowIsPart(Repr(), levels);
      var rest := overflow.Keys;
      total := total0;
      assert overflow.Keys - rest == {};
      while rest != {}
        invariant rest <= overflow.Keys && total == total0 + Total(Quantities(levels), overflow.Keys - rest)
        invariant forall p | p in overflow.Keys - rest :: !Better(side, worst, p)
        decreases |rest|
      {
        var p := First(side, rest).value;
        if Better(side, worst, p) {
          break;
        }
        TotalAdd(Quantities(levels), overflow.Keys - rest, p);
        assert overflow.Keys - rest + {p} == overflow.Keys - (rest - {p});
        total, rest := total + overflow[p].quantity, rest - {p};
      }
      ahead := rest;
    }

    // The level the best price stands at.
    method GetBest() returns (v: PriceLevel)
      requires Valid() && best != Sentinel(side)
      ensures best in levels && v == levels[best] && v.price == best
    {
      if lower <= best <= higher {
        BitDecides(Repr(), levels, best);
        v := ladder[best % LADDER_DEPTH];
      } else {
        v := overflow[First(side, overflow.Keys).value];
      }
    }

    // How deep an opposing order reaches: the quantity of the levels that the walk over the occupancy words and the
    // overflow map finds at `worst` or better.
    method AvailableLiquidity(worst: int) returns (total: int)
      requires Valid() && Positive(Quantities(levels))
      ensures total == Liquidity(side, lower, best, Quantities(levels), worst)
      ensures 0 <= total <= Depth(side, Quantities(levels), worst)
      ensures Exact() ==> (total == Depth(side, Quantities(levels), worst) <==>
                           Unobstructed(side, lower, best, levels.Keys, worst))
    {
      hide Found, Unobstructed;
      FoundIsEligible(side, lower, best, Quantities(levels), worst);
      if Exact() { FoundExactly(side, lower, best, Quantities(levels), worst); }
      if best == Sentinel(side) || Better(side, worst, best) {
        NothingFound(side, lower, best, Quantities(levels), worst);
        return 0;
      }
      total := 0;
      ghost var seen: set<int> := {};
      if lower <= best <= higher {
        var stop: bool;
        stop, total, seen := WalkLadder(worst);
        if stop {
          return;
        }
      }
      ghost var ahead: set<int>;
      total, ahead := WalkOverflow(worst, total);
      TotalUnion(Quantities(levels), seen, overflow.Keys - ahead);
      FoundToEnd(side, Repr(), levels, best, worst, seen, ahead);
    }

    // Lists the levels of the i-th word after the best price's, in the side's order, up to `cap` in all.
    method ListWord(k: int, cap: int, list0: seq<SnapshotLevel>, ghost i: int, ghost seen: set<int>)
      returns (list: seq<SnapshotLevel>, ghost more: set<int>)
      requires Structured() && lower <= best <= higher && best in levels && 0 <= i < 4 && k == WordAt(side, best, i)
      requires Visited(side, Repr(), levels, best, i, seen) && Lists(levels, list0, seen) && |list0| <= cap
      ensures Lists(levels, list, seen + more) && list0 <= list && |list| <= cap
      ensures more <= levels.Keys && forall p | p in more :: lower <= p <= higher && Block(p) % 4 == k
      ensures |list| < cap ==> forall p | p in levels && lower <= p <= higher && Block(p) % 4 == k :: p in more
      ensures Exact() && Straight(side, lower, best, levels.Keys) && InOrder(side, levels, list0, seen) ==>
                InOrder(side, levels, list, seen + more)
      ensures i == 0 && list0 == [] && 0 < cap ==> list != []
      ensures Exact() && !Straight(side, lower, best, levels.Keys) && i == 0 && list0 == [] && 0 < cap ==>
                list[0].price != best
    {
      hide Straight, InOrder, Lists, Stands, Visited, IsBest;
      var word := mask[k];
      list, more := list0, {};
      ghost var r := Repr();
      InWordStart(side, r, levels, Sentinel(side), k);
      assert seen + {} == seen;
      BestBit(i);
      while word != ZERO && |list| < cap
        invariant Walking(side, r, levels, best, i, seen, word, more)
        invariant Lists(levels, list, seen + more) && list0 <= list && |list| <= cap
        invariant list == list0 ==> word == mask[k]
        invariant Exact() && Straight(side, lower, best, levels.Keys) && InOrder(side, levels, list0, seen) ==>
                    InOrder(side, levels, list, seen + more)
        invariant Exact() && !Straight(side, lower, best, levels.Keys) && i == 0 && list0 == [] && list != [] ==>
                    list[0].price != best
        decreases PopCount(word)
      {
        var bit;
        if side == SELL { bit := CountrZero(word); } else { bit := HighestBit(word); }
        var v := ladder[64 * k + bit];
        ListStep(k, i, seen, word, more, bit, list);
        if Exact() && Straight(side, lower, best, levels.Keys) {
          NextIsFirst(side, r, levels, best, i, seen, word, more, bit, v.price);
          if InOrder(side, levels, list, seen + more) { OrderStep(side, levels, list, seen + more, v.price); }
        }
        if Exact() && !Straight(side, lower, best, levels.Keys) && i == 0 && list == [] {
          FirstIsNotBest(side, r, levels, best, bit);
        }
        assert seen + (more + {v.price}) == seen + more + {v.price};
        list, more := list + [SnapshotLevel(v.price, v.quantity)], more + {v.price};
        PopCountClear(word, bit);
        word := ClearBit(word, bit);
      }
      NonZeroHasBit(word);
    }

    // The best price's bit is set in its own word.
    lemma BestBit(i: int)
      requires Structured() && lower <= best <= higher && best in levels && 0 <= i < 4
      ensures i == 0 ==> mask[WordAt(side, best, i)] != ZERO
    {
      LevelIsBit(Repr(), levels, best);
      TurnOfWord(side, best, best, 0);
      if i == 0 { NonZeroHasBit(mask[WordAt(side, best, i)]); }
    }

    // The next bit of a word is a level not yet listed.
    lemma ListStep(k: int, i: int, seen: set<int>, word: Word, more: set<int>, bit: int, list: seq<SnapshotLevel>)
      requires Structured() && 0 <= i < 4 && k == WordAt(side, best, i) && FirstBit(side, word, bit)
      requires Walking(side, Repr(), levels, best, i, seen, word, more) && Lists(levels, list, seen + more)
      ensures var v := ladder[64 * k + bit];
              && v.price in levels && v.price !in seen + more
                 && Entry(levels, v.price) == SnapshotLevel(v.price, v.quantity)
              && Walking(side, Repr(), levels, best, i, seen, ClearBit(word, bit), more + {v.price})
              && Lists(levels, list + [SnapshotLevel(v.price, v.quantity)], seen + more + {v.price})
    {
      hide Lists, Stands;
      var v := ladder[64 * k + bit];
      BitIsLevel(Repr(), levels, k, bit);
      SlotOfPrice(v.price);
      InWordStep(side, Repr(), levels, Sentinel(side), k, word, more, bit, v.price);
      TurnOfWord(side, best, v.price, i);
      ListsStep(levels, list, seen + more, v.price);
    }

    // Lists the levels of the window, word by word from the best price's.
    method ListLadder(cap: int) returns (list: seq<SnapshotLevel>, ghost seen: set<int>)
      requires Structured() && lower <= best <= higher && best in levels && 0 < cap
      ensures Lists(levels, list, seen) && list != [] && |list| <= cap
      ensures forall p | p in seen :: lower <= p <= higher
      ensures |list| < cap ==> Visited(side, Repr(), levels, best, 4, seen)
      ensures Exact() && Straight(side, lower, best, levels.Keys) ==> InOrder(side, levels, list, seen)
      ensures Exact() && !Straight(side, lower, best, levels.Keys) ==> list[0].price != best
    {
      hide Straight, InOrder, Lists, Stands, IsBest;
      var wordIndex := best % LADDER_DEPTH / 64;
      SlotOfPrice(best);
      list, seen := [], {};
      NothingListed(side, levels);
      var i := 0;
      while i < LADDER_WORDS && |list| < cap
        invariant 0 <= i <= 4 && Lists(levels, list, seen) && |list| <= cap && (i > 0 ==> list != [])
        invariant i == 0 ==> list == []
        invariant forall p | p in seen :: lower <= p <= higher
        invariant |list| < cap ==> Visited(side, Repr(), levels, best, i, seen)
        invariant Exact() && Straight(side, lower, best, levels.Keys) ==> InOrder(side, levels, list, seen)
        invariant Exact() && !Straight(side, lower, best, levels.Keys) && list != [] ==> list[0].price != best
      {
        var nextWord :=
          if side == SELL then (wordIndex + i) % LADDER_WORDS else (wordIndex - i + LADDER_WORDS) % LADDER_WORDS;
        NextWord(wordIndex, best, i);
        ghost var more: set<int>;
        ghost var before := list;
        list, more := ListWord(nextWord, cap, list, i, seen);
        if |list| < cap { VisitStep(side, Repr(), levels, best, i, seen, more); }
        seen := seen + more;
        i := i + 1;
      }
    }

    // Lists the overflow levels in the side's order.
    method ListOverflow(cap: int, list0: seq<SnapshotLevel>, ghost seen: set<int>)
      returns (list: seq<SnapshotLevel>, ghost taken: set<int>)
      requires Structured() && Lists(levels, list0, seen) && |list0| <= cap && seen !! overflow.Keys
      ensures Lists(levels, list, taken) && list0 <= list && |list| <= cap
              && (|list| < cap ==> taken == seen + overflow.Keys)
      ensures seen + overflow.Keys == levels.Keys && InOrder(side, levels, list0, seen) ==>
                InOrder(side, levels, list, taken)
      ensures |list0| == cap ==> list == list0 && taken == seen
    {
      hide InOrder, Lists, Stands, Listing;
      list, taken := list0, seen;
      var rest := overflow.Keys;
      ghost var all, ordered := seen + rest, seen + rest == levels.Keys && InOrder(side, levels, list0, seen);
      ListingStarts(side, levels, list0, all, seen, rest, ordered);
      while rest != {} && |list| < cap
        invariant Listing(side, levels, list, all, taken, rest, ordered)
        invariant list0 <= list && |list| <= cap && rest <= overflow.Keys
                  && (|list0| == cap ==> list == list0 && taken == seen)
        decreases |rest|
      {
        var p := First(side, rest).value;
        OverflowEntry(p);
        ListingStep(side, levels, list, all, taken, rest, p, ordered);
        list, taken, rest := list + [SnapshotLevel(p, overflow[p].quantity)], taken + {p}, rest - {p};
      }
      ListingEnds(side, levels, list, all, taken, rest, ordered);
    }

    lemma OverflowEntry(p: int)
      requires Structured() && p in overflow
      ensures p in levels && Entry(levels, p) == SnapshotLevel(p, overflow[p].quantity)
    {}

    // After the words, what is left to list is the overflow map.
    lemma WindowTaken(taken: set<int>, windowed: bool, all: bool)
      requires Valid() && best != Sentinel(side) && (windowed <==> lower <= best <= higher)
      requires forall p | p in taken :: lower <= p <= higher
      requires if windowed then all ==> Visited(side, Repr(), levels, best, 4, taken) else taken == {}
      ensures taken !! overflow.Keys
      ensures Exact() && all && taken <= levels.Keys ==> taken + overflow.Keys == levels.Keys
      ensures Exact() && !windowed ==> Straight(side, lower, best, levels.Keys)
    {
      OverflowIsPart(Repr(), levels);
      forall p | p in taken ensures p !in overflow.Keys {}
      if Exact() && !windowed {
        forall p | p in levels.Keys ensures !(lower <= p <= higher) {
          assert p == best || Better(side, best, p);
        }
      }
      if Exact() && all && taken <= levels.Keys {
        forall p | p in levels.Keys ensures p in taken + overflow.Keys {
          assert p == best || Better(side, best, p);
        }
        assert taken + overflow.Keys == levels.Keys;
      }
    }

    // At most `maxLevels` levels of the side with their quantities, none twice, and that many if the side
    // has them.  They come in priority order exactly when no level shares the best price's occupancy
    // word from the window's other end.
    method Snapshot(maxLevels: int) returns (list: seq<SnapshotLevel>)
      requires Valid()
      ensures |list| <= LevelCap(maxLevels)
      ensures Lists(levels, list, PriceSet(list))
      ensures Exact() ==> |list| == LevelCap(maxLevels) || PriceSet(list) == levels.Keys
      ensures Exact() ==>
                |list| == if maxLevels <= 0 then 0 else if |levels| <= maxLevels then |levels| else maxLevels
      ensures Exact() ==> (InOrder(side, levels, list, PriceSet(list)) <==>
                           maxLevels <= 0 || Straight(side, lower, best, levels.Keys))
    {
      hide Straight, InOrder, Lists, Stands, PriceSet;
      var cap := LevelCap(maxLevels);
      ghost var taken: set<int>;
      list, taken := [], {};
      NothingListed(side, levels);
      if cap == 0 {
        TakenArePrices(levels, list, taken);
        if Exact() { ListIsFull(levels, list, taken, maxLevels); }
        return;
      }
      if best == Sentinel(side) {
        SentinelMeansEmpty(side, best, lower, levels);
        TakenArePrices(levels, list, taken);
        if Exact() { ListIsFull(levels, list, taken, maxLevels); }
        return;
      }
      var windowed := lower <= best <= higher;
      if windowed {
        list, taken := ListLadder(cap);
      }
      ListsCount(levels, list, taken);
      WindowTaken(taken, windowed, |list| < cap);
      list, taken := ListOverflow(cap, list, taken);
      ListsCount(levels, list, taken);
      if Exact() && !Straight(side, lower, best, levels.Keys) { NotInOrder(side, levels, best, list, taken); }
      TakenArePrices(levels, list, taken);
      if Exact() { ListIsFull(levels, list, taken, maxLevels); }
    }
  }
}
