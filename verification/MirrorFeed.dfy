/** From a venue's published level changes to the router's mirror of its book: the market data queue,
    the deque of changes not yet visible, and the changes applied.  */
module MirrorFeeds {
  import opened Deltas
  import opened LimitOrderBooks
  import opened MarketTypes
  import opened SpscQueues

  const BATCH_LIMIT := 256

  // `offered` is everything the venue has called `push` with, `pending` what the router has popped and
  // not applied.
  datatype Feed = Feed(queue: Queue<Delta>, offered: seq<Delta>, pending: seq<Delta>, applied: seq<Delta>)

  datatype FeedStep = Transfer(step: Step<Delta>) | ApplyFront

  predicate CanStep(f: Feed, step: FeedStep)
    requires WellFormed(f.queue)
  {
    match step
    case Transfer(s) => Enabled(f.queue, s)
    case ApplyFront => f.pending != []
  }

  function Next(f: Feed, step: FeedStep): (r: Feed)
    requires WellFormed(f.queue) && CanStep(f, step)
    ensures WellFormed(r.queue)
  {
    match step
    case Transfer(s) =>
      f.(queue := Apply(f.queue, s),
         offered := if s.LoadHead? then f.offered + [s.item] else f.offered,
         pending := if s.StoreTail? then f.pending + [f.queue.popper.taken] else f.pending)
    case ApplyFront => f.(pending := f.pending[1..], applied := f.applied + [f.pending[0]])
  }

  // The change a push in progress carries.
  function InHand(p: Pusher<Delta>): seq<Delta> {
    if p.HasHead? || p.Ready? || p.Wrote? then [p.item] else []
  }

  predicate Lossless(f: Feed) {
    f.queue.dropped == 0 && !f.queue.pusher.Refused?
  }

  ghost predicate FeedInv(f: Feed) {
    && Inv(f.queue)
    && f.queue.popped == f.applied + f.pending
    && |f.offered| == |f.queue.pushed| + |InHand(f.queue.pusher)| + f.queue.dropped
                      + (if f.queue.pusher.Refused? then 1 else 0)
    && (Lossless(f) ==> f.offered == f.queue.pushed + InHand(f.queue.pusher))
  }

  ghost predicate FeedInit(f: Feed) {
    Init(f.queue) && f.offered == f.pending == f.applied == []
  }

  lemma FeedStepKeeps(f: Feed, step: FeedStep)
    requires FeedInv(f) && CanStep(f, step)
    ensures FeedInv(Next(f, step)) && f.applied <= Next(f, step).applied && f.offered <= Next(f, step).offered
    ensures !Lossless(f) ==> !Lossless(Next(f, step))
  {
    hide Inv, Contents;
    if step.Transfer? {
      StepRefinesFifo(f.queue, step.step);
    } else {
      assert f.applied + f.pending == f.applied + [f.pending[0]] + f.pending[1..];
    }
  }

  ghost predicate FeedRun(steps: seq<FeedStep>, states: seq<Feed>) {
    && |states| == |steps| + 1 && FeedInit(states[0])
    && forall i | 0 <= i < |steps| ::
         WellFormed(states[i].queue) && CanStep(states[i], steps[i]) && states[i + 1] == Next(states[i], steps[i])
  }

  // In every run without a dropped change, what the router has applied is a prefix of what the venue has
  // published, and that prefix only grows.
  lemma {:induction false} AppliedIsPrefix(steps: seq<FeedStep>, states: seq<Feed>, j: nat, i: nat)
    requires FeedRun(steps, states) && j <= i < |states|
    ensures FeedInv(states[i]) && states[j].applied <= states[i].applied
    ensures Lossless(states[i]) ==> states[i].applied <= states[i].offered
  {
    hide Inv;
    if i == 0 {
      InitKeepsInv(states[0].queue);
    } else if j == i {
      AppliedIsPrefix(steps, states, i - 1, i - 1);
      FeedStepKeeps(states[i - 1], steps[i - 1]);
    } else {
      AppliedIsPrefix(steps, states, j, i - 1);
      FeedStepKeeps(states[i - 1], steps[i - 1]);
    }
    PoppedArePushed(states[i].queue);
  }

  lemma PoppedArePushed(q: Queue<Delta>)
    requires Inv(q)
    ensures q.popped <= q.pushed
  {}

  // A mirror that applied a prefix of the venue's history shows what that prefix alone implies: the quantities the
  // venue showed then and, if the venue was in step with its history, the venue's best prices and windows too.
  lemma MirrorShowsThePast(venue: LimitOrderBook, mirror: LimitOrderBook, f: Feed)
    requires venue.Quoting() && mirror.Quoting() && mirror.inStep && FeedInv(f) && Lossless(f)
    requires f.offered == venue.history && f.applied == mirror.history
    ensures exists n | 0 <= n <= |venue.history| ::
              && mirror.View() == DeliverAll(venue.history[..n])
              && (n == |venue.history| ==> venue.View().Quotes() == mirror.View().Quotes())
              && (n == |venue.history| && venue.inStep ==> venue.View() == mirror.View())
  {
    hide Inv;
    PoppedArePushed(f.queue);
    var n := |f.applied|;
    assert venue.history[..n] == mirror.history;
    assert n == |venue.history| ==> venue.history[..n] == venue.history;
    ShowsHistory(mirror);
  }

  // ---- One turn of the market data loop ----

  datatype Stamped = Stamped(delta: Delta, visibleNs: int)

  function Bare(s: seq<Stamped>): (r: seq<Delta>)
    ensures |r| == |s|
  {
    seq(|s|, i requires 0 <= i < |s| => s[i].delta)
  }

  function Min(a: nat, b: nat): nat {
    if a < b then a else b
  }

  method TakeBatch(queued: seq<Stamped>, pending: seq<Stamped>) returns (queued': seq<Stamped>, pending': seq<Stamped>)
    ensures queued' == queued[Min(BATCH_LIMIT, |queued|)..]
            && pending' == pending + queued[..Min(BATCH_LIMIT, |queued|)]
  {
    queued', pending' := queued, pending;
    var processed := 0;
    while processed < BATCH_LIMIT && queued' != []
      invariant 0 <= processed <= Min(BATCH_LIMIT, |queued|)
      invariant queued' == queued[processed..] && pending' == pending + queued[..processed]
    {
      pending', queued', processed := pending' + [queued'[0]], queued'[1..], processed + 1;
    }
  }

  // Applies, in order, at most a batch of what is visible by now.
  method ApplyVisible(mirror: LimitOrderBook, pending: seq<Stamped>, now: int)
    returns (pending': seq<Stamped>, idle: bool)
    requires mirror.Quoting() && LegalHistory(Bare(pending))
    modifies mirror`history, mirror.bids, mirror.bids.ladder, mirror.bids.mask, mirror.asks, mirror.asks.ladder,
        mirror.asks.mask
    ensures mirror.Quoting()
    ensures var n := |pending| - |pending'|;
            && 0 <= n <= BATCH_LIMIT && pending' == pending[n..] && (idle <==> n == 0)
            && mirror.history == old(mirror.history) + Bare(pending[..n])
            && (forall i | 0 <= i < n :: pending[i].visibleNs <= now)
            && (n == BATCH_LIMIT || pending' == [] || pending'[0].visibleNs > now)
  {
    hide LimitOrderBook.Quoting;
    idle, pending' := true, pending;
    var applied := 0;
    while applied < BATCH_LIMIT && pending' != [] && pending'[0].visibleNs <= now
      invariant 0 <= applied <= BATCH_LIMIT && applied <= |pending| && pending' == pending[applied..]
                && (idle <==> applied == 0)
      invariant mirror.Quoting() && mirror.history == old(mirror.history) + Bare(pending[..applied])
      invariant forall i | 0 <= i < applied :: pending[i].visibleNs <= now
    {
      idle := false;
      assert LegalDelta(Bare(pending)[applied]);
      assert Bare(pending[..applied + 1]) == Bare(pending[..applied]) + [pending'[0].delta];
      mirror.ApplyDelta(pending'[0].delta);
      pending', applied := pending'[1..], applied + 1;
    }
  }

  // Pops a batch into the deque, then applies what has become visible.
  method ServeVenue(mirror: LimitOrderBook, queued: seq<Stamped>, pending: seq<Stamped>, now: int)
    returns (queued': seq<Stamped>, pending': seq<Stamped>, idle: bool)
    requires mirror.Quoting() && LegalHistory(Bare(pending + queued))
    modifies mirror`history, mirror.bids, mirror.bids.ladder, mirror.bids.mask, mirror.asks, mirror.asks.ladder,
        mirror.asks.mask
    ensures mirror.Quoting()
    ensures var popped := Min(BATCH_LIMIT, |queued|);
            var all, applied := pending + queued[..popped], |pending + queued[..popped]| - |pending'|;
            && queued' == queued[popped..] && 0 <= applied <= BATCH_LIMIT && pending' == all[applied..]
            && mirror.history == old(mirror.history) + Bare(all[..applied])
            && (forall i | 0 <= i < applied :: all[i].visibleNs <= now)
            && (applied == BATCH_LIMIT || pending' == [] || pending'[0].visibleNs > now)
            && (idle <==> applied == 0)
    ensures var n := |pending + queued| - |pending' + queued'|;
            && 0 <= n && pending' + queued' == (pending + queued)[n..]
            && mirror.history == old(mirror.history) + Bare((pending + queued)[..n])
  {
    hide LimitOrderBook.Quoting;
    var all;
    queued', all := TakeBatch(queued, pending);
    StillLegal(pending, queued, Min(BATCH_LIMIT, |queued|));
    pending', idle := ApplyVisible(mirror, all, now);
    SplitsAt(pending, queued, Min(BATCH_LIMIT, |queued|), |all| - |pending'|);
  }

  lemma StillLegal(pending: seq<Stamped>, queued: seq<Stamped>, m: nat)
    requires m <= |queued| && LegalHistory(Bare(pending + queued))
    ensures LegalHistory(Bare(pending + queued[..m]))
  {
    forall i | 0 <= i < |pending| + m ensures LegalDelta(Bare(pending + queued[..m])[i]) {
      assert Bare(pending + queued)[i] == (pending + queued[..m])[i].delta;
    }
  }

  lemma SplitsAt(pending: seq<Stamped>, queued: seq<Stamped>, m: nat, n: nat)
    requires m <= |queued| && n <= |pending| + m
    ensures (pending + queued)[..n] == (pending + queued[..m])[..n]
    ensures (pending + queued)[n..] == (pending + queued[..m])[n..] + queued[m..]
  {}
}
