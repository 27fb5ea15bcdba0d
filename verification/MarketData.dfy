/** A venue, the market data queue and a mirror run together: clients' requests, the steps of the venue's pushes and of
    the router's pops, and the changes the router applies, in any order the threads allow.  */
module MarketDataRuns {
  import opened BookLaws
  import opened Deltas
  import opened LimitOrderBooks
  import opened MarketTypes
  import opened MirrorFeeds
  import opened OrderIds
  import opened Sessions
  import opened SpscQueues

  datatype Act = Ask(request: Request) | Move(step: FeedStep)

  // The venue pushes its published changes in order, each before it takes the next request.
  predicate Pushes(f: Feed, step: FeedStep, published: seq<Delta>)
    requires WellFormed(f.queue)
  {
    && CanStep(f, step)
    && (step.Transfer? && step.step.LoadHead? ==>
          |f.offered| < |published| && step.step.item == published[|f.offered|])
  }

  ghost predicate AllLegal(s: seq<Delta>) {
    forall i | 0 <= i < |s| :: LegalDelta(s[i])
  }

  // Everything on its way to the mirror is a level change.
  ghost predicate Carries(f: Feed) {
    AllLegal(f.queue.pushed) && AllLegal(InHand(f.queue.pusher))
  }

  lemma MoveCarries(f: Feed, step: FeedStep, published: seq<Delta>)
    requires FeedInv(f) && Carries(f) && Pushes(f, step, published) && AllLegal(published)
    ensures Carries(Next(f, step))
    ensures f.offered <= published ==> Next(f, step).offered <= published
  {
    if step.Transfer? && step.step.LoadHead? {
      assert f.offered <= published ==> published[..|f.offered|] + [published[|f.offered|]] <= published;
    }
  }

  lemma FrontIsLegal(f: Feed)
    requires FeedInv(f) && Carries(f) && f.pending != []
    ensures LegalDelta(f.pending[0])
  {
    PoppedArePushed(f.queue);
    assert (f.applied + f.pending)[|f.applied|] == f.pending[0];
    assert f.queue.pushed[|f.applied|] == f.pending[0];
  }

  // What the venue offered is what it published, and what the router applied is what its mirror took in.
  ghost predicate Coupled(f: Feed, published: seq<Delta>, taken: seq<Delta>) {
    FeedInv(f) && Carries(f) && f.offered <= published && f.applied == taken
  }

  lemma IsWellFormed(f: Feed, published: seq<Delta>, taken: seq<Delta>)
    requires Coupled(f, published, taken)
    ensures WellFormed(f.queue)
  {}

  lemma StaysCoupled(f: Feed, before: seq<Delta>, after: seq<Delta>, taken: seq<Delta>)
    requires Coupled(f, before, taken) && before <= after
    ensures Coupled(f, after, taken)
  {}

  lemma MoveStaysCoupled(f: Feed, step: FeedStep, published: seq<Delta>, taken: seq<Delta>)
    requires Coupled(f, published, taken) && AllLegal(published) && WellFormed(f.queue) && Pushes(f, step, published)
    ensures Coupled(Next(f, step), published, if step.ApplyFront? then taken + [f.pending[0]] else taken)
    ensures step.ApplyFront? ==> f.pending != [] && LegalDelta(f.pending[0])
  {
    FeedStepKeeps(f, step);
    MoveCarries(f, step, published);
    if step.ApplyFront? { FrontIsLegal(f); }
  }

  lemma HistoryIsLegal(b: LimitOrderBook)
    requires b.Quoting()
    ensures AllLegal(b.history)
  {}

  // One step of the feed; when the router applies a change, the mirror takes it in.
  method MoveOn(mirror: LimitOrderBook, f: Feed, step: FeedStep, published: seq<Delta>) returns (f': Feed)
    requires mirror.Quoting() && Coupled(f, published, mirror.history) && AllLegal(published)
    requires WellFormed(f.queue) && Pushes(f, step, published)
    modifies mirror`history, mirror.bids, mirror.bids.ladder, mirror.bids.mask
    modifies mirror.asks, mirror.asks.ladder, mirror.asks.mask
    ensures f' == Next(f, step) && mirror.Quoting() && Coupled(f', published, mirror.history)
  {
    hide LimitOrderBook.Quoting, Coupled, AllLegal;
    MoveStaysCoupled(f, step, published, mirror.history);
    f' := Next(f, step);
    if step.ApplyFront? { mirror.ApplyDelta(f.pending[0]); }
  }

  // No object of one book is one of the other.
  ghost predicate Disjoint(a: LimitOrderBook, b: LimitOrderBook) {
    && a != b && {a.bids, a.asks} !! {b.bids, b.asks}
    && {a.bids.ladder, a.asks.ladder} !! {b.bids.ladder, b.asks.ladder}
    && {a.bids.mask, a.asks.mask} !! {b.bids.mask, b.asks.mask}
  }

  // One act, if the threads allow it now.
  method Perform(venue: LimitOrderBook, mirror: LimitOrderBook, f: Feed, act: Act, ids: seq<int>)
    returns (f': Feed, ids': seq<int>)
    requires venue.Valid() && mirror.Quoting() && Disjoint(venue, mirror)
    requires Coupled(f, venue.history, mirror.history) && ids == venue.book.issued && |ids| < TWO_31 - 1
    requires act.Ask? ==> Acceptable(act.request)
    modifies venue, venue.bids, venue.bids.ladder, venue.bids.mask, venue.asks, venue.asks.ladder, venue.asks.mask
    modifies mirror`history, mirror.bids, mirror.bids.ladder, mirror.bids.mask
    modifies mirror.asks, mirror.asks.ladder, mirror.asks.mask
    ensures venue.Valid() && mirror.Quoting() && mirror.inStep == old(mirror.inStep)
    ensures Coupled(f', venue.history, mirror.history) && ids' == venue.book.issued && |ids'| <= |ids| + 1
  {
    hide LimitOrderBook.Quoting, LimitOrderBook.Valid, Coupled, Pushes, AllLegal, LadderAnswer;
    f', ids' := f, ids;
    ghost var before := venue.history;
    ValidIsQuoting(venue);
    IsWellFormed(f, before, mirror.history);
    match act
    case Ask(request) =>
      if f.queue.pusher.Idle? && f.offered == venue.history {
        var reply;
        reply, ids' := ServeOne(venue, request, ids);
        StaysCoupled(f, before, venue.history, mirror.history);
      }
    case Move(step) =>
      HistoryIsLegal(venue);
      if Pushes(f, step, venue.history) {
        f' := MoveOn(mirror, f, step, venue.history);
      }
  }

  lemma ValidIsQuoting(b: LimitOrderBook)
    requires b.Valid()
    ensures b.Quoting() && b.nextIndex == |b.book.issued| + 1
  {}

  // Whatever is asked of the venue and however the threads interleave, what the router has applied is what its mirror
  // shows, and what the venue has offered is what it published; so without a dropped change the mirror shows exactly
  // what a prefix of the venue's history implies, and once it has caught up with a venue in step, what the venue shows.
  method RunMarketData(slots: nat, acts: seq<Act>) returns (venue: LimitOrderBook, mirror: LimitOrderBook, f: Feed)
    requires 0 < slots && |acts| < TWO_31 - 1
    requires forall i | 0 <= i < |acts| && acts[i].Ask? :: Acceptable(acts[i].request)
    ensures fresh(venue) && fresh(mirror) && venue.Valid() && mirror.Quoting() && mirror.inStep
    ensures Coupled(f, venue.history, mirror.history) && mirror.View() == DeliverAll(mirror.history)
    ensures Lossless(f) ==> mirror.history <= venue.history
    ensures venue.history == mirror.history && venue.inStep ==> venue.View() == mirror.View()
  {
    hide LimitOrderBook.Quoting, LimitOrderBook.Valid, Coupled, Acceptable, Lossless, DeliverAll;
    venue := new LimitOrderBook(4096);
    mirror := new LimitOrderBook(0);
    f := Feed(Queue(seq(slots, _ => None), 0, 0, 0, Idle, Resting, [], []), [], [], []);
    var ids: seq<int> := [];
    StartsCoupled(f);
    for i := 0 to |acts|
      invariant fresh(venue) && fresh(venue.bids) && fresh(venue.bids.ladder) && fresh(venue.bids.mask)
      invariant fresh(venue.asks) && fresh(venue.asks.ladder) && fresh(venue.asks.mask)
      invariant fresh(mirror) && fresh(mirror.bids) && fresh(mirror.bids.ladder) && fresh(mirror.bids.mask)
      invariant fresh(mirror.asks) && fresh(mirror.asks.ladder) && fresh(mirror.asks.mask)
      invariant Disjoint(venue, mirror) && venue.Valid() && mirror.Quoting() && mirror.inStep
      invariant Coupled(f, venue.history, mirror.history) && ids == venue.book.issued && |ids| <= i
    {
      f, ids := Perform(venue, mirror, f, acts[i], ids);
    }
    ValidIsQuoting(venue);
    MirrorShowsPrefix(venue, mirror, f);
  }

  lemma StartsCoupled(f: Feed)
    requires FeedInit(f)
    ensures Coupled(f, [], [])
  {
    InitKeepsInv(f.queue);
  }

  lemma MirrorShowsPrefix(venue: LimitOrderBook, mirror: LimitOrderBook, f: Feed)
    requires venue.Quoting() && mirror.Quoting() && mirror.inStep && Coupled(f, venue.history, mirror.history)
    ensures mirror.View() == DeliverAll(mirror.history)
    ensures Lossless(f) ==> mirror.history <= venue.history
    ensures venue.history == mirror.history && venue.inStep ==> venue.View() == mirror.View()
  {
    hide Inv;
    PoppedArePushed(f.queue);
    ShowsHistory(mirror);
    if venue.inStep { ShowsHistory(venue); }
  }
}
