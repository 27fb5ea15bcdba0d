# Verified model of the limit order book, the router and their queues

This project models the matching venue and the smart order router in Dafny and proves what they promise: the
hybrid order book, the level changes it publishes and the mirror the router builds from them, the routing dynamic
program and its two baselines, the two lock-free queues, and the life of a parent order. `dafny verify dfyconfig.toml`
checks everything.

The parts form one pipeline, and so do the modules.

- **Book.** `BookSides` is one side: a 256-slot circular ladder, four occupancy words, a sliding window and an
  overflow map, updated in place. `OrderSlab` is the slab of orders with its intrusive lists, `LimitOrderBooks` the
  class that submits and cancels on two sides over one slab. `PriceTimeBook` is what it must agree with, a map from price
  to a first-come-first-served queue; `BookLaws` says what that book guarantees. `Ladder`, `Scans` and `Snapshots` hold the
  facts about the representation as values, `Liquidities` what the liquidity walk finds; `LadderSweeps` says what the class does
  on every book, `Sightings` exactly when that is what the price-time book does; `Sessions` does so for whole runs.
- **Level changes.** `Deltas` says what a published history alone implies: quantities, and, from the best prices it
  implies, where the windows stand. A venue's book and a router's mirror are objects of one class, so both are compared with
  the same history. `MirrorFeeds` carries the changes through the market data queue and the deque of changes not yet visible;
  `MarketDataRuns` runs a venue, the queue and a mirror together.
- **Routing.** `RoutingTable` is the recurrence and its meaning, `DPEngine` the loops that fill the flat tables,
  `Apportionment` and `Baselines` the largest-remainder and the single-venue splits. `CostLaws` says how a cost depends on
  each figure of a venue, `RoutingTheorems` what the splits are worth, `AllocationLaws` what every venue gets;
  `SplitDispatch` is the step from a split to child orders.
- **Queues.** `MpscQueues` and `SpscQueues` are transition systems over single loads, stores, exchanges and copies.
- **Parents.** `Venues` turns fills into reports, `Routers` handles them one at a time, `ParentBooks` keeps account of
  parents and children through events within bounds, and `RouterRuns` follows whole runs, in which every split is the
  strategy's and every report a venue's; `ParentHistories` ties parents and children to the client order behind them and
  says how often it is routed.
- **Where it fails.** `Witnesses`, `BidWitnesses` and `RouterWitnesses` are concrete runs that show what the conditions are for.

## The level the scan cannot see

The scan for the next best price looks at the rest of the best price's own occupancy word and then at the three other
words (src/lob/LimitOrderBook.cpp:93-117). It does not come back to the bits of its own word that belong to the other
end of the window, although README.md:198-202 of the repository describes it as finding the next non-empty level. The model
follows the code. The levels it cannot see are four 64-price blocks from the old best, which puts them 193 to 255 ticks away.

- `Reaches`, `Unobstructed` and `Straight` are the exact conditions under which the scan, the liquidity walk and
  the snapshot are right; each is proved in both directions.
- An order gets exactly what price-time priority says if and only if it is in sight (`OrderInSight`): wherever something is still
  wanted and within the limit, the best price is the extremal one. On an exact side this is a condition on the scan
  (`OrderSighted`): it must reach the next level wherever the order empties a level and goes on. `Sightings` proves it
  in both directions for sweeps and orders, `Sessions.Serve` for whole sessions, on all books and all requests.
- A fill-or-kill order is decided by what the liquidity walk finds and filled along the ladder's own chain of best prices
  (`OrderReach`); `FillOrKillExactly` says when that is all or nothing.
- A side is plain (`Plain`) when its best price is the extremal one, its window has not run past it and no two of its levels are
  193 to 255 ticks apart. A plain side shows everything, and stays plain as long as its levels stay separated, whatever is
  submitted, matched or cancelled; so sessions whose limit prices are never that far apart are always in sight
  (`Sessions.SeparatedLimitsStay`).
- On every book the class does something definite: it sweeps at its own best prices (`LadderOrder`), and structure,
  conservation, cancel results, published changes and quantities at every price hold without any condition.
- A mirror always shows what the history implies. A venue does too (`inStep`) until it makes a silent change: one that leaves
  something at a level better than its best price, which can only be a level the scan has lost. `LimitOrderBook.Store`
  says that this is exactly when it falls out of step, and a separated history contains no such change.
- `Witnesses.HiddenLevel`, `Witnesses.FillOrKillInPart` and `Witnesses.Diverges` are runs in which a live level is lost, a
  fill-or-kill order is filled in part, and a venue and its mirror disagree; `Witnesses.FarButSighted` shows an order in sight
  over levels that are not separated.

## Model

| member | source | states |
|---|---|---|
| `OrderIds.IdRoundTrip` | src/lob/LimitOrderBook.cpp:463-470 | an issued id is a signed 64-bit value and decodes to its own side, price and slab index, for every legal price and index |
| `OrderIds.IdsAreDistinct` | src/lob/LimitOrderBook.cpp:463-478 | equal ids have equal side, price and index, so ids never collide |
| `OrderIds.IdsAreMade` | src/lob/LimitOrderBook.cpp:473-476 | every 64-bit id, issued or not, is made up of the side, price and slab index that cancel reads from it |
| `Bits.LowMaskIsSubtraction` | src/lob/LimitOrderBook.cpp:146 | the mask written as `(1 << n) - 1` is exactly the n lowest bits |
| `Bits.CountrZero` | src/lob/LimitOrderBook.cpp:88-91 | the lowest set bit of a non-zero word |
| `Bits.HighestBit` | src/lob/LimitOrderBook.cpp:149-152 | the highest set bit of a non-zero word |
| `Ladder.BitDecides` | src/lob/LimitOrderBook.cpp:19-21 | inside the window the occupancy bit of a price decides whether it is a level, and its slot holds that level; a clear slot has no quantity and no orders |
| `Ladder.SameMarks` | src/lob/LimitOrderBook.cpp:24-31 | the window position and the occupied prices determine all four occupancy words |
| `Scans.NextBestVerdict` | src/lob/LimitOrderBook.cpp:77-136 | what the scan and the overflow map give as the next best price is a live level or the empty sentinel, and it is the extremal level if and only if the window is empty or some level of it lies fewer than four 64-price blocks from the old best |
| `Scans.ScanFindsLevel` | src/lob/LimitOrderBook.cpp:93-117 | a scan that stops has found a live level of the window, whatever the levels |
| `Scans.NothingBefore` | src/lob/LimitOrderBook.cpp:93-117 | before the word of the level nearest to the old best in the direction of the scan, the scan meets nothing and does not end |
| `BookSides.BookSide.constructor` | include/lob/LimitOrderBook.h:15-31 | a fresh side is sound and empty, with the sentinel as its best price and the window at 0 |
| `BookSides.BookSide.EvictChunk` | src/lob/LimitOrderBook.cpp:299-320 | a word-sized chunk moves exactly its occupied slots to the overflow map, and the side stands for the same levels |
| `BookSides.BookSide.Evict` | src/lob/LimitOrderBook.cpp:294-325 | every level of the price range, also when it wraps round the ring, is moved to the overflow map; the price-to-level map is unchanged |
| `BookSides.BookSide.EvictOutside` | src/lob/LimitOrderBook.cpp:265-274 | after the three cases no level left in the ladder lies outside the new window |
| `BookSides.BookSide.Migrate` | src/lob/LimitOrderBook.cpp:276-288 | the overflow levels inside the new window move into the ladder, and no overflow key is left inside it; the price-to-level map is unchanged |
| `BookSides.BookSide.ShiftAskWindow` | src/lob/LimitOrderBook.cpp:259-292 | the window is put 25 ticks below the best ask, the price-to-level map is unchanged and the best price lies inside the window |
| `BookSides.BookSide.ShiftBidWindow` | src/lob/LimitOrderBook.cpp:328-361 | the window is put 25 ticks above the best bid, the price-to-level map is unchanged and the best price lies inside the window |
| `BookSides.BookSide.ScanAsks` | src/lob/LimitOrderBook.cpp:80-119 | the word scan over the masks finds what `ScanFrom` finds over the price-to-level map, on any set of levels |
| `BookSides.BookSide.ScanBids` | src/lob/LimitOrderBook.cpp:141-181 | the same for bids, downwards |
| `BookSides.BookSide.FindNextBestAsk` | src/lob/LimitOrderBook.cpp:77-136 | the new best ask is determined by window, old best and levels (`NextBest`) and is the extremal level exactly when the scan reaches one (`Reaches`); a window whose lower edge is 25 to 205 ticks below it stays, any other is put 25 ticks below it |
| `BookSides.BookSide.FindNextBestBid` | src/lob/LimitOrderBook.cpp:138-197 | the same for bids: a window whose lower edge is 50 to 230 ticks below the new best bid stays, any other is put with the bid 230 ticks above that edge, 25 below the upper one |
| `BookSides.BookSide.Improve` | src/lob/LimitOrderBook.cpp:209-225 | a better price becomes the best price; the window moves only if that price comes within 25 ticks of the edge it moves towards, and then stands exactly 25 ticks in front of it; the levels do not change |
| `Ladder.RemovalWindow` | src/lob/LimitOrderBook.cpp:129-134 | after a removal a bid stands 50 to 230 ticks above the lower edge of the window and an ask 25 to 205; a window in which it already did stays, any other is put 25 ticks in front of it (bids: src/lob/LimitOrderBook.cpp:191-196) |
| `Ladder.AdditionWindow` | src/lob/LimitOrderBook.cpp:209-225 | after a better level came the window keeps 25 ticks in front of the best price, and does not move if it already had them |
| `BookSides.BookSide.RemoveLevel` | src/lob/LimitOrderBook.cpp:49-75 | the level is gone and every other one unchanged; the best price stays unless it was the removed one, then it is the next best one, extremal exactly when the scan reaches |
| `BookSides.BookSide.AddQuantity` | src/lob/LimitOrderBook.cpp:199-256 | the level at the price grows by the quantity and by a tail link, a new level is created where there was none, and best price and window move as for a delivered change of that level |
| `BookSides.BookSide.GetBest` | src/lob/LimitOrderBook.cpp:17-37 | the level returned is the one at the best price |
| `BookSides.BookSide.StoreLevel` | src/lob/LimitOrderBook.cpp:443-452 | a level written back changes only its own quantity, and best price and window move only if it is removed and was the best |
| `BookSides.BookSide.ApplyDelta` | src/lob/LimitOrderBook.cpp:710-796 | on every side, exact or not: one level change replaces, creates or removes exactly that level, and best price and window move as `DeliverSide` says |
| `BookSides.BookSide.AvailableLiquidity` | src/lob/LimitOrderBook.cpp:589-665 | exactly the quantity of the levels the walk comes to before the first one worse than the limit (`Found`), on any levels; never more than the depth at the limit and, on an exact side, equal to it if and only if no level worse than the limit sits in the best price's word from the other end of the window (`Unobstructed`) |
| `Liquidities.FoundAtStop` | src/lob/LimitOrderBook.cpp:600-618 | a walk that stops at a level worse than the limit has taken exactly the levels of which no such level comes before |
| `Liquidities.FoundExactly` | src/lob/LimitOrderBook.cpp:589-665 | from an exact best price in place the levels found are all those within the limit if and only if nothing obstructs the walk |
| `BookSides.BookSide.RemoveStale` | src/lob/LimitOrderBook.cpp:518-520 | removing a level whose memory holds stale links takes exactly that level out and moves best price and window as any removal does; the links stay in the ladder slot unless a level moved in |
| `BookSides.BookSide.Snapshot` | src/lob/LimitOrderBook.cpp:526-586 | distinct live levels with their quantities, as many as asked for if the side has them; in priority order if and only if no level sits in the best price's word from the other end of the window (`Straight`) |
| `Snapshots.PriceListIsSorted` | src/lob/LimitOrderBook.cpp:562-580 | the list of a side's prices holds each price once, from best to worst |
| `Snapshots.TopInNumbers` | src/lob/LimitOrderBook.cpp:526-586 | the top of a side: as many levels as asked for or all there are, each with its quantity, bids falling and asks rising, and everything left out worse than everything listed |
| `Snapshots.OrderedIsTop` | src/lob/LimitOrderBook.cpp:526-586 | a complete listing in order is the top of the side: its best prices, best first, with their quantities |
| `Snapshots.TopIsOrdered` | src/lob/LimitOrderBook.cpp:526-586 | a listing that is the top of the side is in order |
| `Deltas.SeparationGrows` | src/lob/LimitOrderBook.cpp:93-117 | removals and changes of standing levels never end the separation; a new level ends it if and only if a level of its side stands 193 to 255 ticks away |
| `Deltas.WindowAfterLevel` | src/lob/LimitOrderBook.cpp:733-756 | where a delivered new level leaves best price and window, in numbers |
| `Deltas.WindowAfterBest` | src/lob/LimitOrderBook.cpp:721-731 | where a delivered removal of the best level leaves the window, in numbers |
| `Deltas.SeparatedSuffices` | src/lob/LimitOrderBook.cpp:93-117 | on a separated side the scan reaches the next level and nothing obstructs the liquidity walk |
| `Deltas.SeparatedIsStraight` | src/lob/LimitOrderBook.cpp:537-551 | on a separated side the snapshot walk meets the levels in order |
| `Deltas.DeliveredPositive` | src/lob/LimitOrderBook.cpp:710-756 | whatever legal history of level changes was delivered, the levels left have positive quantities |
| `Deltas.RemovalKeepsPlain` | src/lob/LimitOrderBook.cpp:721-731 | removing the best level of a plain side leaves it plain: the best price is extremal, the window has not passed it, the levels are separated |
| `Deltas.DeliveryKeepsPlain` | src/lob/LimitOrderBook.cpp:710-796 | a plain side stays plain through every level change as long as its levels stay separated |
| `Deltas.SeparatedIsPlain` | src/lob/LimitOrderBook.cpp:710-796 | a history that stayed separated implies plain sides |
| `Deltas.SilentDiffers` | src/lob/LimitOrderBook.cpp:516-520 | what a venue makes of a change to one of its own levels differs from what a mirror makes of it if and only if the change leaves something at a level better than the best price |
| `Deltas.StoreTracks` | src/lob/LimitOrderBook.cpp:443-452 | a venue in step with its history stays in step with it, best prices and windows included, if and only if its change is not such a silent one |
| `LadderSweeps.PlainSweep` | src/lob/LimitOrderBook.cpp:407-453 | on a plain opposite side the sweep the book performs, level after level at its own best price, is the sweep of the price-time book |
| `LadderSweeps.PlainOwnSide` | src/lob/LimitOrderBook.cpp:455-461 | an order leaves a plain own side plain if and only if the levels of that side stay separated |
| `LadderSweeps.PlainSubmit` | src/lob/LimitOrderBook.cpp:396-460 | an order that meets a plain side gets the book and the fills of the price-time book, fill-or-kill included, and leaves that side plain |
| `Sightings.SweepExactly` | src/lob/LimitOrderBook.cpp:407-448 | on any sound levels the sweep at the ladder's own best prices is that of the price-time book if and only if it is in sight: wherever something is wanted and within the limit, the best price is the extremal one; otherwise already the fills differ |
| `Sightings.ReachesExactly` | src/lob/LimitOrderBook.cpp:77-136 | removing the best level of an exact side leaves it exact if and only if the scan reaches |
| `Sightings.SightedExactly` | src/lob/LimitOrderBook.cpp:407-448 | on an exact side that condition is one on the scan: it must reach the next level wherever the order empties a level and goes on to an admissible one |
| `Sightings.WantLeft` | src/lob/LimitOrderBook.cpp:407-448 | on any sound levels the sweep takes the lesser of what is wanted and what stands on the ladder's own chain of admissible best prices |
| `Sightings.OrderExactly` | src/lob/LimitOrderBook.cpp:396-460 | an order gets the book and the fills of the price-time book if and only if it is in sight, or refused where the depth is too small; otherwise already its fills differ |
| `Sightings.FillOrKillExactly` | src/lob/LimitOrderBook.cpp:399-402 | a fill-or-kill order is filled completely or not at all if and only if the walk finds too little, or the ladder's chain is long enough or empty; on an exact side the walk shows in full, if and only if the depth is too small or the chain long enough |
| `LadderSweeps.PlainCancel` | src/lob/LimitOrderBook.cpp:473-523 | a cancellation leaves plain sides plain |
| `LadderSweeps.LadderBalance` | src/lob/LimitOrderBook.cpp:407-453 | on any levels the sweep the book performs conserves quantity and reports only trades |
| `LadderSweeps.LadderTakes` | src/lob/LimitOrderBook.cpp:414-452 | on any sound levels, price by price, the fills of a sweep are what the level there lost, and they are within the limit |
| `LadderSweeps.OrderTakes` | src/lob/LimitOrderBook.cpp:396-460 | the same for a whole order, refused and resting ones included |
| `OrderSlab.HeadFilledKeeps` | src/lob/LimitOrderBook.cpp:419-435 | filling the head order relinks the list to the rest of the queue and lowers the level by its quantity |
| `OrderSlab.HeadReducedKeeps` | src/lob/LimitOrderBook.cpp:434-441 | a partial fill keeps the list and lowers the head order and the level alike |
| `OrderSlab.AppendKeeps` | src/lob/LimitOrderBook.cpp:245-255 | a new order linked behind the tail makes the list the old queue with the order at its end |
| `OrderSlab.UnlinkKeeps` | src/lob/LimitOrderBook.cpp:499-513 | unlinking an order, at the head, in the middle or at the tail, leaves the list of the other orders in the same order, and the level their sum |
| `OrderSlab.DetachKeeps` | src/lob/LimitOrderBook.cpp:496-513 | detaching an order, with its level updated as the code does, leaves the list of the others and every active order of the level in it, touches no other level and revives no order |
| `OrderSlab.GrownKeeps` | src/lob/LimitOrderBook.cpp:8-15 | growing the slab disturbs no list |
| `OrderSlab.LinkedQuantities` | src/lob/LimitOrderBook.cpp:245-255 | the quantities of the levels are the sums of their queues |
| `OrderSlab.NotQueued` | src/lob/LimitOrderBook.cpp:478-482 | an id whose slab entry does not exist or is not active names no queued order |
| `OrderSlab.OwnIdIsQueued` | src/lob/LimitOrderBook.cpp:473-497 | the active order with an issued id stands in the queue at the side and price its id names |
| `BookLaws.MatchAmount` | src/lob/LimitOrderBook.cpp:414-437 | an incoming quantity takes the smaller of itself and the level, and the level loses what is taken |
| `BookLaws.TimePriority` | src/lob/LimitOrderBook.cpp:414-437 | at one price an order is filled by what the incoming quantity leaves after all earlier orders, and no more |
| `BookLaws.PricePriority` | src/lob/LimitOrderBook.cpp:407-459 | every level of the book loses exactly what the incoming quantity leaves after all better prices, as far as the limit admits it |
| `BookLaws.SweepReach` | src/lob/LimitOrderBook.cpp:407-453 | a sweep fills the smaller of the quantity and what stands at admissible prices |
| `BookLaws.SweepBalance` | src/lob/LimitOrderBook.cpp:407-453 | the opposite side falls by exactly what is filled |
| `BookLaws.SweepLeaves` | src/lob/LimitOrderBook.cpp:407-453 | a sweep leaves sound queues, and nothing admissible while something is still wanted |
| `BookLaws.FillsInPriority` | src/lob/LimitOrderBook.cpp:439-441 | the fills of one order are at admissible prices, strictly from better to worse, one per price |
| `BookLaws.FillOrKill` | src/lob/LimitOrderBook.cpp:399-402 | in the price-time book a fill-or-kill order is filled completely or leaves the book exactly as it was, depending only on the depth at its limit |
| `BookLaws.Conservation` | src/lob/LimitOrderBook.cpp:404-459 | filled, rested and discarded quantity add up to the order, and each side changes by exactly its part |
| `BookLaws.SubmitKeepsHealth` | src/lob/LimitOrderBook.cpp:396-460 | a submitted order leaves a healthy book: sound queues in arrival order, legal prices, not crossed, ids in order |
| `BookLaws.CancelKeepsHealth` | src/lob/LimitOrderBook.cpp:473-523 | so does a cancellation |
| `BookLaws.CancelUndoesRest` | src/lob/LimitOrderBook.cpp:473-523 | cancelling an order that rested untouched gives back the book as it was, but for the id handed out |
| `BookLaws.EveryRunIsHealthy` | src/lob/LimitOrderBook.cpp:396-523 | every book that any sequence of orders and cancellations leads to is healthy, in particular never crossed |
| `LimitOrderBooks.LimitOrderBook.constructor` | src/lob/LimitOrderBook.cpp:5-6 | a fresh book is sound and empty and has published nothing |
| `LimitOrderBooks.LimitOrderBook.FillHead` | src/lob/LimitOrderBook.cpp:415-437 | one fill of the oldest order changes the slab, the level and the queue together |
| `LimitOrderBooks.LimitOrderBook.MatchLevel` | src/lob/LimitOrderBook.cpp:414-437 | the intrusive list of a level is filled oldest first until it or the incoming quantity is used up, and stays a doubly linked list of its queue |
| `LimitOrderBooks.LimitOrderBook.TradeBest` | src/lob/LimitOrderBook.cpp:414-452 | one turn of the matching loop trades the best level, records the fill, publishes what is left of the level and, when it is empty, removes it and moves the best price and the window on |
| `LimitOrderBooks.LimitOrderBook.MatchAll` | src/lob/LimitOrderBook.cpp:407-453 | on every book the matching loop ends with the book, the windows, the remainder and the fills of the sweep at the ladder's own best prices (`LadderMatch`), and publishes for each fill what it leaves at its price |
| `LimitOrderBooks.LimitOrderBook.Store` | src/lob/LimitOrderBook.cpp:443-452 | a changed level is written back, published and removed when empty; best prices and windows stay those the history implies if and only if the change is not silent |
| `LimitOrderBooks.LimitOrderBook.EnsurePoolCapacity` | src/lob/LimitOrderBook.cpp:8-15 | an index that exists changes nothing; otherwise the slab doubles just until it does, and keeps its orders |
| `LimitOrderBooks.LimitOrderBook.LinkBehind` | src/lob/LimitOrderBook.cpp:245-255 | the new order becomes the tail of its level's list |
| `LimitOrderBooks.LimitOrderBook.Rest` | src/lob/LimitOrderBook.cpp:455-461 | the rest of a limit order joins the back of the queue at its price under a fresh id that decodes to its side, price and index, and its level is published |
| `LimitOrderBooks.LimitOrderBook.Submit` | src/lob/LimitOrderBook.cpp:396-460 | on every book: always ends, and book, windows and fills are those of the ladder's own rules (`LadderOrder`), the refusal of fill-or-kill orders included; conserves quantity on both sides, reports trades before the resting entry and publishes exactly their level changes; book and fills are those of the price-time book if and only if the order is in sight, on an exact side if and only if the scan reaches wherever it goes on; an order not refused fills the lesser of its quantity and the ladder's chain |
| `LimitOrderBooks.LimitOrderBook.Detach` | src/lob/LimitOrderBook.cpp:496-513 | the neighbours, or the ends of the list, are relinked past the order, which becomes inactive, and the level is lowered by what was left of it |
| `LimitOrderBooks.LimitOrderBook.Cancel` | src/lob/LimitOrderBook.cpp:473-523 | takes any id: an issued id, or one that finds no active order, gets exactly the price-time book's answer on any levels, and a failed cancel changes nothing; any other id takes out the order its low bits hit and lowers and publishes a level that is not that order's, removing it when nothing is left of it |
| `LimitOrderBooks.LimitOrderBook.CancelAnswers` | src/lob/LimitOrderBook.cpp:473-482 | for every 64-bit id the answer is the price-time book's if and only if the id was issued or finds no active order |
| `LimitOrderBooks.LimitOrderBook.AvailableLiquidity` | src/lob/LimitOrderBook.cpp:589-665 | exactly what the walk finds, on any book; equal to the depth at the limit on an exact side if and only if the walk is unobstructed, and so always on a plain side |
| `LimitOrderBooks.LimitOrderBook.GetQuantityAtPrice` | src/lob/LimitOrderBook.cpp:667-685 | the quantity the published history leaves at the price, on any history |
| `LimitOrderBooks.LimitOrderBook.GetSnapshot` | src/lob/LimitOrderBook.cpp:526-586 | of each exact side as many levels as asked for, or all; they are its best levels in priority order with the quantities of the published history if and only if no level sits in the best price's word from the other end of the window; so always on a plain side |
| `LimitOrderBooks.LimitOrderBook.ValidPrice` | src/lob/LimitOrderBook.cpp:39-47 | a limit admits a book price exactly when the price is not worse than the limit |
| `LimitOrderBooks.LimitOrderBook.ApplyDelta` | src/lob/LimitOrderBook.cpp:710-796 | one level change moves quantities, best prices and windows exactly as `Deliver` says, on any book |
| `LimitOrderBooks.LimitOrderBook.SeparatedHistory` | src/lob/LimitOrderBook.cpp:93-117 | a book whose history stayed separated is in step with it, and both its sides are plain |
| `LimitOrderBooks.Replay` | src/lob/LimitOrderBook.cpp:710-796 | a fresh book fed any legal history, in order, shows exactly the quantities, best prices and windows that history implies |
| `LimitOrderBooks.SameHistorySameBook` | src/lob/LimitOrderBook.cpp:704-796 | a venue's book and a mirror with the same history show the same quantity at every price; while both are in step with it, also the same best prices, windows and occupancy words |
| `Sessions.ServeOne` | src/lob/LimitOrderBook.cpp:396-523 | one request leaves the book, the windows and the reply that the ladder's own rules say, on every book |
| `Sessions.AnswerExactly` | src/lob/LimitOrderBook.cpp:396-523 | a request in sight is answered as the price-time book answers it, and one that is not gets another reply |
| `Sessions.RunExactly` | src/lob/LimitOrderBook.cpp:396-523 | a session under the ladder's own rules has the book and the replies of the price-time book if and only if all its requests are in sight; otherwise already the replies differ |
| `Sessions.SeparatedRunIsPlain` | src/lob/LimitOrderBook.cpp:396-523 | requests that lead the price-time book through separated levels only are all in sight, and the sides stay plain |
| `Sessions.Serve` | src/lob/LimitOrderBook.cpp:396-523 | for every sequence of submit and cancel calls on a fresh book: book, windows and replies are those of the ladder's own rules, and those of the price-time book if and only if all requests are in sight; then the book is healthy; with separated levels they are, and the book is in step with its history |
| `Sessions.SeparatedLimitsStay` | src/lob/LimitOrderBook.cpp:396-523 | a sequence of requests whose limit prices on each side are never 193 to 255 ticks apart meets that condition |
| `Witnesses.HiddenLevel` | src/lob/LimitOrderBook.cpp:93-117 | sells at 100, 227 and 455 and a buy of two leave 455 live but the best ask at the empty sentinel, and the next buy gets nothing where the price-time book fills it |
| `BidWitnesses.ThirdSaleGetsNothing` | src/lob/LimitOrderBook.cpp:191-196 | bids at 1000, 800 and 572 and three sells: the first sale slides the window to 570, the second loses the bid at 572, the third gets nothing |
| `Witnesses.FarButSighted` | src/lob/LimitOrderBook.cpp:93-117 | asks at 100 and 300 are not separated, and yet a buy of two is in sight, so separation is not needed |
| `Witnesses.FillOrKillInPart` | src/lob/LimitOrderBook.cpp:399-402 | on those sells a fill-or-kill buy of three at 455 passes the liquidity test and is filled by two |
| `Witnesses.ForgedCancel` | src/lob/LimitOrderBook.cpp:473-523 | after a bid for ten at 100, cancel(1), an id nobody issued, answers true, takes the bid's order out and publishes a quantity of -10 at price 0, where the price-time book finds nothing |
| `Witnesses.Diverges` | src/lob/LimitOrderBook.cpp:516-520 | sells at 100, 227 and twice at 455, of which the first two are bought and one of the others is cancelled, leave the venue without a best ask and a mirror with the same history at 455 |
| `MirrorFeeds.AppliedIsPrefix` | src/sor/SmartOrderRouter.cpp:120-146 | in every run without a dropped change, what the router has applied is a prefix of what the venue published, and it only grows |
| `MirrorFeeds.MirrorShowsThePast` | src/sor/SmartOrderRouter.cpp:138-145 | a lossless mirror whose history is what the feed applied shows exactly what some prefix of the venue's history implies; once it has caught up, the venue's quantities and, if the venue is in step with its history, its best prices and windows |
| `MarketDataRuns.Perform` | src/sor/SmartOrderRouter.cpp:120-146 | one request to the venue, one step of its push, of the router's pop, or one applied change: what the venue offered stays what it published, and what the router applied stays what its mirror took in |
| `MarketDataRuns.RunMarketData` | src/sor/SmartOrderRouter.cpp:120-146 | whatever is asked of a venue and however its pushes, the router's pops and the applied changes interleave, the mirror shows exactly what the changes it took in imply; without a dropped change these are a prefix of the venue's history, and once all of it the mirror shows the venue's book while that is in step |
| `MirrorFeeds.TakeBatch` | src/sor/SmartOrderRouter.cpp:126-131 | a batch moves from the queue to the deque in order |
| `MirrorFeeds.ApplyVisible` | src/sor/SmartOrderRouter.cpp:135-145 | at most a batch of the visible changes is applied, in order, stopping at the first that is not yet visible |
| `MirrorFeeds.ServeVenue` | src/sor/SmartOrderRouter.cpp:123-146 | one turn for a venue pops at most a batch behind what was pending, applies at most a batch of it in order, only what is visible by now and stopping at the first that is not, keeps the rest in order and is idle exactly when it applied nothing |
| `RoutingCosts.LitCostNonNegative` | src/sor/DPEngine.cpp:9-20 | the lit cost is not negative |
| `RoutingCosts.LitCostGrows` | src/sor/DPEngine.cpp:9-20 | sending more to a lit venue costs no less |
| `CostLaws.LitEdges` | src/sor/DPEngine.cpp:10-12 | nothing costs nothing, and a venue that displays nothing costs the top |
| `CostLaws.FreeLitVenue` | src/sor/DPEngine.cpp:14-19 | a lit venue with all rates zero costs nothing |
| `CostLaws.FeePerShare` | src/sor/DPEngine.cpp:16-19 | two lit venues that differ in their fee differ in cost by that difference for every share |
| `CostLaws.HalfSpreadPerShare` | src/sor/DPEngine.cpp:14-19 | the same for half the spread |
| `CostLaws.ImpactPerSquare` | src/sor/DPEngine.cpp:15-19 | the same for the impact coefficient, by the square of the quantity over the displayed size |
| `CostLaws.LatencyOnce` | src/sor/DPEngine.cpp:17-19 | the same for the latency, once per order and scaled by the latency factor |
| `RoutingCosts.FillRatioIsProbability` | src/sor/DPEngine.cpp:36-41 | the estimated fill ratio is a probability, at most the historical one |
| `CostLaws.DecaysPerShare` | src/sor/DPEngine.cpp:36-41 | with any exponential every further share scales the chance of a fill by the same decay, starting from the historical ratio |
| `CostLaws.NeverFilled` | src/sor/DPEngine.cpp:31-33 | a dark venue that never fills costs what a miss costs: the same lots on the lit venues and the delay of every share |
| `CostLaws.ChanceOfFill` | src/sor/DPEngine.cpp:27-33 | the dark cost is linear in the chance of a fill, between fee and latency if filled and the miss if not |
| `RoutingCosts.DarkCostNonNegative` | src/sor/DPEngine.cpp:22-34 | the dark cost is a mean of two non-negative costs |
| `RoutingTable.ScanIsLeast` | src/sor/DPEngine.cpp:90-107 | a cell never exceeds a candidate it looked at, nor the top |
| `RoutingTable.FewestLots` | src/sor/DPEngine.cpp:95-104 | of equally cheap choices a cell keeps the one with the fewest lots at the last venue |
| `RoutingTable.CellIsLowerBound` | src/sor/DPEngine.cpp:66-143 | no allocation of n lots over the first venues costs less than the cell |
| `RoutingTable.CellBelowTop` | src/sor/DPEngine.cpp:145-159 | from a cell below the top, backtracking reads an allocation of exactly n lots whose cost is the cell |
| `RoutingTable.CellAtTop` | src/sor/DPEngine.cpp:145-159 | from a cell at the top, nothing at all is read back |
| `RoutingTable.CellIsLeastCost` | src/sor/DPEngine.cpp:66-143 | a cell is the smaller of the top and the least total cost over all ways to place n lots |
| `DPEngine.FillRow` | src/sor/DPEngine.cpp:83-107 | the reversed copy of the previous row and the inner scan compute the recurrence and its choices, and no other row is touched |
| `DPEngine.FillTables` | src/sor/DPEngine.cpp:66-143 | the flat table holds the recurrence over lit, then dark venues, dark costs reading the finished lit row |
| `DPEngine.PartitionVenues` | src/sor/DPEngine.cpp:59-64 | the positions of the lit and of the dark venues, in order |
| `DPEngine.ReadBack` | src/sor/DPEngine.cpp:145-159 | the choices walked back give every venue the lots of the backtracked allocation |
| `DPEngine.PickOddLot` | src/sor/DPEngine.cpp:161-189 | the odd lot goes to the first cheapest venue below the top, lit before dark, or to none |
| `DPEngine.ComputeOptimalSplit` | src/sor/DPEngine.cpp:54-192 | the expected cost is the table's last cell, the allocations are those read back plus the odd lot |
| `RoutingSplit.OrderIsPermutation` | src/sor/DPEngine.cpp:59-64 | the order lit first, dark second lists every venue exactly once |
| `RoutingSplit.CheapestIsLeast` | src/sor/DPEngine.cpp:163-185 | the pick has the least cost, is the first such venue, and is absent exactly when no cost is below the top |
| `RoutingTheorems.SplitIsOptimal` | src/sor/DPEngine.cpp:54-145 | for any venues and size the expected cost is the smaller of the top and the minimum total cost over all ways to place the lots, dark venues being priced against the least cost of the lit ones |
| `RoutingTheorems.TablesAreCosts` | src/sor/DPEngine.cpp:76-117 | the tables hold, for every venue and every number of lots, what that venue charges |
| `AllocationLaws.SplitCostsItsCharges` | src/sor/DPEngine.cpp:145-159 | an expected cost below the top is the sum of what the venues charge, each for the whole lots it is itself allocated |
| `AllocationLaws.OddLotToTheCheapest` | src/sor/DPEngine.cpp:161-189 | the odd lot goes, whole, to exactly the venue that charges least for it below the top, the first such one, lit before dark |
| `RoutingTheorems.SplitTotal` | src/sor/DPEngine.cpp:145-189 | the split allocates exactly what the venues can take: all whole lots if some placement of them costs less than the top, else none, and the odd lot if some venue takes it for less than the top; no share is negative |
| `RoutingTheorems.SplitNeverExceeds` | src/sor/DPEngine.cpp:145-189 | the total never exceeds the order; it is the order if and only if the venues can take its whole lots and its odd lot below the top, and a part of it if and only if they can take just one of the two |
| `RoutingTheorems.LitVenueSuffices` | src/sor/DPEngine.cpp:145-189 | one lit venue that takes the whole lots and the odd lot below the top is enough for the split to place everything |
| `RoutingTheorems.NoDearerThanNaive` | src/sor/DPEngine.cpp:262-295 | for every size the optimal expected cost is at most the naive one |
| `RoutingTheorems.NaiveIsPlacement` | src/sor/DPEngine.cpp:262-295 | for whole lots the naive cost is what the tables charge for placing all of them at one venue |
| `AllocationLaws.NaiveTakesBestPrice` | src/sor/DPEngine.cpp:262-295 | the naive split gives everything to the first lit venue with the lowest ask for a buy, the highest bid for a sell, and prices it there; to none exactly when no lit venue quotes |
| `RoutingTheorems.NoDearerThanProportional` | src/sor/DPEngine.cpp:194-260 | for every size the optimal expected cost is at most the proportional one |
| `RoutingTheorems.ProportionalTotal` | src/sor/DPEngine.cpp:210-249 | the proportional split allocates exactly the order whenever anything is displayed, and nothing otherwise |
| `AllocationLaws.SharesFollowDisplay` | src/sor/DPEngine.cpp:194-260 | every venue gets the floor or one more of its share of the lots by displayed size, one that displays nothing gets nothing, and the odd lot goes to one that displays most |
| `AllocationLaws.ProportionalCostsItsCharges` | src/sor/DPEngine.cpp:251-257 | the expected cost of the proportional split is the sum of what the lit venues charge for their whole allocations, odd lot included |
| `Apportionment.LeftoverFits` | src/sor/DPEngine.cpp:233-237 | there are fewer leftover lots than venues with displayed size, so dealing them out never wraps round |
| `Apportionment.FloorOrCeiling` | src/sor/DPEngine.cpp:216-237 | each venue gets the floor or the ceiling of its exact share |
| `Apportionment.ExtraByRemainder` | src/sor/DPEngine.cpp:226-235 | of two displaying venues the one with the smaller remainder never gets an extra lot without the other |
| `Apportionment.ExtraBySize` | src/sor/DPEngine.cpp:229-231 | of two displaying venues with equal remainders the one that displays less never gets an extra lot without the other |
| `Apportionment.TwoLotsToTheDeeper` | src/sor/DPEngine.cpp:226-235 | two lots over displays of 300 and 100 both go to the first venue |
| `Apportionment.DeeperGetsNoLess` | src/sor/DPEngine.cpp:226-237 | a venue that displays more never gets fewer lots |
| `Apportionment.LeastDeviation` | src/sor/DPEngine.cpp:210-237 | no other whole-lot allocation of the same lots is closer, in total absolute deviation, to the exact shares |
| `Baselines.SortParts` | src/sor/DPEngine.cpp:226-231 | the parts are reordered so that none comes after one it precedes |
| `Baselines.DealLeftover` | src/sor/DPEngine.cpp:233-235 | dealing the leftover lots in that order gives a largest-remainder apportionment |
| `Baselines.ComputeProportionalSplit` | src/sor/DPEngine.cpp:194-260 | lots by largest remainder, the odd lot on a venue that displays most, the first such one unless those that display most are also first in line for a leftover lot (`TakesOdd`), the cost of the lit venues used; nothing when nothing is displayed |
| `Baselines.ComputeNaiveSplit` | src/sor/DPEngine.cpp:262-295 | everything to the first lit venue with the strictly best price, nothing when no lit venue quotes |
| `SplitDispatch.ComputeSplit` | src/sor/SmartOrderRouter.cpp:33-43 | the split is that of the configured strategy |
| `SplitDispatch.ChildrenCarryTheSplit` | src/sor/SmartOrderRouter.cpp:339-362 | the child orders carry exactly what a split allocates |
| `SplitDispatch.NeverRoutesMore` | src/sor/SmartOrderRouter.cpp:222-233 | under every strategy the children carry at most what was asked; all of it if and only if the venues can take it (`CanPlace`, on what the router sees); and a part of it if and only if the strategy is the optimal one and the venues can take just the whole lots or just the odd lot |
| `MpscQueues.SequenceFound` | include/common/MPSCQueue.h:47-60 | with at least two slots, a sequence below the position means the position is one capacity past the released ones, an equal one means the slot is free for it |
| `MpscQueues.StepKeepsInv` | include/common/MPSCQueue.h:42-86 | no step of any producer or of the consumer breaks the ring invariant |
| `MpscQueues.EveryStateIsSound` | include/common/MPSCQueue.h:42-86 | it holds in every state of every run of any number of producers, for every capacity of at least two |
| `MpscQueues.PoppedInOrder` | include/common/MPSCQueue.h:70-86 | popped items are those of the first tickets, each once and in ticket order; of every producer they are the first items it was told were accepted, in its order, and all of them once the ring is drained |
| `MpscQueues.TurnedAwayWhenFull` | include/common/MPSCQueue.h:46-58 | a producer can be turned away if and only if at its sequence load its position is current and exactly `capacity` tickets are claimed and unreleased |
| `MpscQueues.RejectionSawFullQueue` | include/common/MPSCQueue.h:46-58 | in every run a push that returns false has such a moment at its own last sequence load |
| `MpscQueues.EmptyHanded` | include/common/MPSCQueue.h:70-86 | a pop comes away empty if and only if the next ticket is not handed out or its producer is still at work on it |
| `MpscQueues.NoTornData` | include/common/MPSCQueue.h:64-79 | a slot is never written while it may be read or while another producer may write it, nor before its last item was released |
| `MpscQueues.NeverStuck` | include/common/MPSCQueue.h:42-86 | a thread in the middle of a call always has an enabled step |
| `MpscQueues.PushAlone` | include/common/MPSCQueue.h:42-68 | an undisturbed push whose slot shows its position takes it and publishes the item |
| `MpscQueues.OneSlotLosesItems` | include/common/MPSCQueue.h:46-79 | with one slot two pushes are both accepted, the first item is overwritten unread and the consumer finds neither |
| `SpscQueues.IndicesTell` | include/common/SPSCQueue.h:32-35 | the next head equals the tail exactly when the queue holds one item less than it has slots; the indices are equal exactly when it is empty |
| `SpscQueues.RefusedWhenFull` | include/common/SPSCQueue.h:31-38 | a push is refused if and only if the queue was full when it looked at the tail |
| `SpscQueues.EmptyWhenEmpty` | include/common/SPSCQueue.h:50-55 | a pop fails if and only if the queue was empty when it looked at the head |
| `SpscQueues.StepRefinesFifo` | include/common/SPSCQueue.h:31-62 | under every interleaving every atomic step is a step of a FIFO queue bounded by one less than the slots |
| `SpscQueues.NeverStuck` | include/common/SPSCQueue.h:31-62 | a thread in the middle of a call always has an enabled step, and the two never use the same slot |
| `Venues.Venue.ReportToRouter` | src/lob/Venue.cpp:133-167 | the running remainder, the statuses and the order of the reports of a router order |
| `Venues.Venue.ReportToMaker` | src/lob/Venue.cpp:168-197 | the same for a market maker's order |
| `Venues.Venue.ProcessRequest` | src/lob/Venue.cpp:112-198 | a request cancels, by any id, or submits on the book; book, fills and level changes are those of the submission, and the price-time book's if and only if the order is in sight; only the sender's queue gets reports, and at every price they report exactly what the opposite level there lost; an order of the router that cannot rest is answered by one terminating stream; a resting order reports the id it rests under |
| `Venues.IssuedIdsNotMinusOne` | src/lob/Venue.cpp:129-131 | no issued id is the value that stands for none |
| `Venues.ReportsTellLosses` | src/lob/Venue.cpp:144-166 | on any sound levels, price by price, the reports of an order tell what the opposite level lost to it, and nothing is reported beyond its limit |
| `Venues.ReportsInPriority` | src/lob/Venue.cpp:144-166 | where the order is in sight its trades are reported from the best price to the worst, strictly, and within the limit |
| `Venues.RouterOrdersTerminate` | src/lob/Venue.cpp:133-167 | an order of the router that cannot rest is reported by a stream with exactly one terminal report, the last, FILLED exactly when nothing remains |
| `Venues.StreamBalances` | src/lob/Venue.cpp:144-166 | the reported fills and the last remainder add up to the order, and exactly the last report is terminal |
| `Venues.RestingOrdersStayOpen` | src/lob/Venue.cpp:149-155 | an order whose rest was booked gets only partial reports, all naming its id, the last one with nothing filled at its own limit |
| `Venues.MakerReports` | src/lob/Venue.cpp:168-197 | a market maker never sees CANCELLED, and sees FILLED, last, exactly when a traded order is used up |
| `Routers.SmartOrderRouter.ExecuteRoutingDecision` | src/sor/SmartOrderRouter.cpp:333-365 | one numbered child for every venue with a positive allocation, mapped to the parent, and their total |
| `Routers.SmartOrderRouter.ProcessFill` | src/sor/SmartOrderRouter.cpp:195-261 | the fill is added up, what a terminal report leaves is rerouted or the parent given up, and parents and children are erased, as one step |
| `Routers.SmartOrderRouter.Register` | src/sor/SmartOrderRouter.cpp:284-307 | the first attempt registers the parent and routes it |
| `Routers.SmartOrderRouter.Retry` | src/sor/SmartOrderRouter.cpp:302-307 | a later attempt routes the registered parent |
| `Routers.SmartOrderRouter.Abandon` | src/sor/SmartOrderRouter.cpp:316-325 | an order that could not be routed is completed as timed out and forgotten |
| `ParentBooks.OneChildPerVenue` | src/sor/SmartOrderRouter.cpp:339-362 | exactly one child for every venue with a positive allocation, carrying that allocation to that venue at the parent's side and limit, in the order of the venues, and none for any other venue |
| `RouterRuns.SendChild` | src/sor/SmartOrderRouter.cpp:349-361 | a child order sent to a venue is answered by the reports of an immediate-or-cancel order for it (`VenueReports`) |
| `RouterRuns.ReportsAnswer` | src/sor/SmartOrderRouter.cpp:349-361 | such reports are, for every child, one stream that ends in its only terminal report |
| `RouterRuns.SplitMeetsBounds` | src/sor/SmartOrderRouter.cpp:222-233 | whenever the router splits a quantity in a run, the children carry at most that; all of it if and only if the venues it sees can take it, and all or nothing if and only if they can take all or nothing |
| `ParentBooks.MeasureFalls` | src/sor/SmartOrderRouter.cpp:214-257 | once a parent is routed, every terminal report of a child lowers the children in flight plus those the reroutes left may still send, unless it completes the parent; nothing else raises it |
| `RouterRuns.ParentsAddUp` | src/sor/SmartOrderRouter.cpp:195-331 | in every run with real splits and real venue reports, from decision to completion: filled plus in-flight child quantity never exceeds the order; once the client loop is done with the order they are equal if and only if none of its splits found venues for a part only, and then it has a child in flight |
| `RouterRuns.BaselinesNeverStrand` | src/sor/SmartOrderRouter.cpp:195-331 | under the naive and the proportional strategy a live parent the client loop is done with always has a child in flight |
| `RouterRuns.CompletionIsAccurate` | src/sor/SmartOrderRouter.cpp:244-257 | in every such run a completion reports exactly what was filled, at most the order, and is timed out if and only if that is less than the order |
| `RouterRuns.CompletionFollows` | src/sor/SmartOrderRouter.cpp:195-261 | with V venues and R reroutes, a parent none of whose splits found venues for a part only sees fewer than V + V * R terminal reports while it is alive |
| `ParentHistories.ArrivesOnce` | src/sor/SmartOrderRouter.cpp:268-294 | no two client orders of a run have the same id |
| `ParentHistories.RecordIsOrder` | src/sor/SmartOrderRouter.cpp:270-287 | in every run a live parent has a record with the side, the limit and the quantity of the client order that arrived with its id |
| `ParentHistories.ChildrenCarryOrder` | src/sor/SmartOrderRouter.cpp:226-233 | whatever is sent for a live order, first or rerouted, is sent on its side and at its limit, one child per venue with what the strategy allocates for that side; the client loop always asks for the whole order (first attempts: src/sor/SmartOrderRouter.cpp:302-307) |
| `ParentHistories.CountIsLeavings` | src/sor/SmartOrderRouter.cpp:219-220 | in every run the reroute count of a live parent is the number of its terminal reports that left something |
| `ParentHistories.ReroutesAllowed` | src/sor/SmartOrderRouter.cpp:219-241 | the k-th terminal report of a live parent that leaves something makes the router split what is left if and only if k is at most the reroutes allowed |
| `ParentHistories.TimesOut` | src/sor/SmartOrderRouter.cpp:219-257 | a live parent times out at a step if and only if the client gives it up there, or a report leaves something and either more such reports have come than reroutes are allowed or the split for it sent nothing |
| `ParentHistories.GivenUpAfterEleven` | src/sor/SmartOrderRouter.cpp:278-325 | the client loop gives an order up after exactly eleven attempts, none of which sent anything, and tries again only after one to ten such |
| `RouterWitnesses.LateReportRevives` | src/sor/SmartOrderRouter.cpp:198-204 | a report for a parent already erased makes a blank one, which is completed once more or kept with more filled than its total of zero, and it says exactly when |
| `RouterWitnesses.LateSiblingRun` | src/sor/SmartOrderRouter.cpp:201-204 | a run, on a proportional split, in which a late sibling leaves a parent filled beyond its total, so the bound ends at the completion |
| `RouterWitnesses.OddLotOnly` | src/sor/DPEngine.cpp:145-189 | an order of 15 in lots of 10 over one dark venue that never fills has the optimal split 5, at the cost that stands for no way to place a lot |
| `RouterWitnesses.PartialSplitStrands` | src/sor/SmartOrderRouter.cpp:233-246 | a run on that split which leaves a live parent with nothing in flight and 5 of 15 filled |
| `RouterWitnesses.OneRerouteRun` | src/sor/SmartOrderRouter.cpp:219-241 | a run with one reroute: an order to sell 10 is sent to the better bid, cancelled, sent there again as a sell at the same limit, cancelled again and only then given up |

## Left out

- Weak memory orders, cache layout and spinning: the queues run under sequential consistency; the acquire and release annotations are not modelled.
- Integer width: counters, quantities and prices are unbounded integers; order ids are exact 64-bit values, built from prices below 2^31 and slab indices below 2^31.
- Classes for the two queues: they are transition systems over values, because what is proved is how the steps of different threads interleave; update in place and aliasing of a queue object are not captured.
- The publication callback: publishing is appending to the book's history, whether or not a venue has a publisher attached (only lit ones do), and venue ids and stamps of the changes are left out.
- Where a venue's figures come from: the router sees a venue as a value with its best prices, half spread and visible liquidity within the limit, which the mirror's getters supply.
- Ring capacities that are powers of two: the rings work for any capacity, and `position & mask` is written as the remainder by the capacity.
- Floating point: costs are exact reals, the largest double is a finite parameter `top` that takes part in arithmetic, and the exponential is a parameter with values in [0, 1] for arguments that are not positive.
- Negative fees, spreads or coefficients, and fill ratios outside [0, 1]: the cost results assume there are none.
- Prices outside 0 < p < 2^31 and negative quantities for submitted limit orders: price 0 is the empty-bid sentinel, and an id has 31 bits for the price.
- LimitOrderBooks.LimitOrderBook.Cancel: what later requests make of a book after an id that was never issued hit an active entry; its levels then no longer match their lists.
- The reference to a level that a loop keeps while it writes: modelled as a copy that is written back before anything else reads it.
- The ask and the bid halves of evict, migrate, liquidity, snapshot and delta code, which differ only in direction: written once, with the side as a field; the scans and the window shifts are written twice, as in the source.
- `std::sort` on the fractional parts: any order in which no part comes after one it precedes, obtained by insertion; which of two equal parts comes first is not relied on.
- Baselines.ComputeProportionalSplit: fractional parts are exact remainders, so the double rounding of `exact_share` is not modelled.
- The drop counter of the multi-producer queue; that of the single-producer queue is modelled, since the mirror depends on it.
- Progress of the multi-producer queue: an enabled step always exists, but a slow producer can hold up the consumer for as long as it likes.
- Memory safety of the erased map iterator in `process_fill` after the insertions of a reroute: the child is erased by its key.
- Dropped reports and dropped child requests in the router's runs: results about parents assume none; results about the mirror say when no level change was dropped.
- RouterRuns.ParentsAddUp: it covers a parent with a unique, non-zero id from decision to completion; `RouterWitnesses.LateReportRevives` says what happens after it.
- The order of delayed requests in `Venue::worker_loop`, wall clocks and cycle counters: the time at which a change is applied is a parameter, everything else is an interleaving.
- Trade and lifecycle records sent to analytics, except the decision, fill and completion records a parent's books are checked against.
- `compute_consolidated_mid`, `half_spread` and the best-price getters, which only read.
- Simulated agents, the price process, analytics reports, Monte Carlo runs, benchmarks, host information and the command line.
