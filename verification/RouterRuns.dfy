/** Runs of the router and its venues as the code makes them: every quantity it routes is divided by the strategy's
    split over the venues it sees, and every child order is answered by a venue.  */
module RouterRuns {
  import opened DPEngine
  import opened MarketTypes
  import opened ParentBooks
  import opened PriceTimeBook
  import opened Routers
  import opened RoutingCosts
  import opened RoutingSplit
  import opened RoutingTheorems
  import opened SplitDispatch
  import opened Venues

  // How the router is set up; `top` stands for the largest double, and the exponential is a parameter.
  datatype Setup = Setup(maxReroutes: int, venues: nat, strategy: Strategy, cfg: RouterConfig, exp: real -> real,
                         top: real)

  // An event, the venues the router saw when it split, and the split.
  datatype Step = Step(event: Event, seen: seq<VenueState>, split: SplitResult)

  function SettingOf(s: Setup, whole: set<int>): Setting {
    Setting(s.maxReroutes, s.venues, whole)
  }

  // The side of the parent an event is about.
  function SplitSide(w: World, e: Event): Side {
    if e.Arrive? then e.req.side else Lookup(w.router, ParentOf(w, e)).side
  }

  // What a venue reports of an immediate-or-cancel order of the router.
  ghost predicate VenueReports(child: ChildOrder, events: seq<FillEvent>) {
    exists fills ::
      && Reported(IOC, child.price, child.quantity, fills) && FillTotal(fills) <= child.quantity
      && events == Events(child.id, SOR, child.quantity, fills)
  }

  // A child order as the router sends it: the venue's reports are exactly such reports.
  method SendChild(venue: Venue, child: ChildOrder)
    requires venue.lob.Valid() && 0 <= child.quantity
    modifies venue`sorFills, venue`mmFills, venue.lob, venue.lob.bids, venue.lob.bids.ladder, venue.lob.bids.mask
    modifies venue.lob.asks, venue.lob.asks.ladder, venue.lob.asks.mask
    ensures venue.lob.Valid() && old(venue.sorFills) <= venue.sorFills
    ensures VenueReports(child, venue.sorFills[|old(venue.sorFills)|..])
  {
    hide Events, Reported, OrderStream;
    ghost var fills := venue.ProcessRequest(NewOrder(child.id, SOR, child.side, IOC, child.price, child.quantity));
    assert venue.sorFills[|old(venue.sorFills)|..] == Events(child.id, SOR, child.quantity, fills);
  }

  ghost predicate AllReported(children: seq<ChildOrder>, futures: map<int, seq<FillEvent>>) {
    forall i | 0 <= i < |children| :: children[i].id in futures && VenueReports(children[i], futures[children[i].id])
  }

  // Venues answer every child with a stream of reports.
  lemma ReportsAnswer(children: seq<ChildOrder>, next: int, futures: map<int, seq<FillEvent>>)
    requires Numbered(children, next) && AllReported(children, futures)
    ensures Answered(children, futures)
  {
    forall i | 0 <= i < |children|
      ensures OrderStream(children[i].id, children[i].quantity, futures[children[i].id])
    {
      var c := children[i];
      var fills :| Reported(IOC, c.price, c.quantity, fills) && FillTotal(fills) <= c.quantity
                   && futures[c.id] == Events(c.id, SOR, c.quantity, fills);
      RouterOrdersTerminate(c.id, IOC, c.price, c.quantity, fills);
    }
  }

  // The allocations are those the strategy computes for what is asked, over sane venues.
  ghost predicate SplitAsComputed(w: World, t: Step, s: Setup)
    requires Timely(w, t.event) && !t.event.GiveUp?
  {
    && SaneInputs(s.cfg, s.exp, s.top, t.seen) && |t.seen| == s.venues
    && t.event.allocations == t.split.allocations
    && (0 <= Asked(w, t.event) ==>
          IsSplit(s.strategy, s.cfg, s.exp, s.top, Asked(w, t.event), SplitSide(w, t.event), t.seen, t.split))
  }

  ghost predicate Possible(w: World, t: Step, s: Setup) {
    && Timely(w, t.event)
    && (!t.event.GiveUp? ==>
          && |t.event.allocations| == s.venues
          && AllReported(NewChildren(w, t.event, s.maxReroutes), t.event.futures))
    && (Splits(w, t.event, s.maxReroutes) ==> SplitAsComputed(w, t, s))
  }

  // The venues a split saw can take all of what was asked.
  ghost predicate FindsAll(w: World, t: Step, s: Setup)
    requires Timely(w, t.event) && 1 <= s.cfg.lotSize && 0 <= Asked(w, t.event)
  {
    CanPlace(s.strategy, s.cfg, s.exp, s.top, Asked(w, t.event), SplitSide(w, t.event), t.seen)
  }

  // ... or all of it or nothing.
  ghost predicate FindsAllOrNothing(w: World, t: Step, s: Setup)
    requires Timely(w, t.event) && 1 <= s.cfg.lotSize && 0 <= Asked(w, t.event)
  {
    PlacesAllOrNothing(s.strategy, s.cfg, s.exp, s.top, Asked(w, t.event), t.seen)
  }

  // The record a split is made for, and what it sends.
  lemma SplitSends(w: World, e: Event, s: Setting) returns (parent: Parent)
    requires Good(w, s) && Timely(w, e) && Splits(w, e, s.maxReroutes)
    ensures NewChildren(w, e, s.maxReroutes) == ChildOrders(parent, w.router.nextChild, e.allocations)
    ensures 0 < Asked(w, e) && parent.side == SplitSide(w, e)
    ensures !e.Arrive? ==> parent.price == Lookup(w.router, ParentOf(w, e)).price
    ensures e.Arrive? ==> parent.price == e.req.price
  {
    hide ChildOrders, OrderStream;
    match e
    case Arrive(req, _, _) =>
      parent := NewParent(req);
      SentChildren(w, e, s.maxReroutes, parent);
    case TryAgain(_, _) =>
      assert Live(w, w.client.parentId, s);
      parent := w.router.active[w.client.parentId];
      SentChildren(w, e, s.maxReroutes, parent);
    case Report(child, _, _) =>
      parent := CountedParent(w, child);
      ReportIsSound(w, child, s);
      SentChildren(w, e, s.maxReroutes, parent);
  }

  // An event that splits nothing sends nothing.
  lemma NothingSent(w: World, e: Event, s: Setting)
    requires Good(w, s) && Timely(w, e) && !Splits(w, e, s.maxReroutes)
    ensures NewChildren(w, e, s.maxReroutes) == [] && 0 <= Asked(w, e)
  {
    hide ChildOrders, OrderStream, Kids, Owed;
    match e
    case GiveUp =>
    case Report(child, _, _) =>
      ReportIsSound(w, child, s);
      assert w.streams[child].events[0].status != PARTIAL ==>
               !Reroutes(CountedParent(w, child), w.streams[child].events[0], s.maxReroutes);
  }

  lemma ReportIsSound(w: World, child: int, s: Setting)
    requires Good(w, s) && child in w.streams
    ensures w.streams[child].events != [] && 0 <= w.streams[child].events[0].remaining
    ensures child in w.router.childToParent && w.streams[child].events[0].childId == child
  {
    assert StreamOk(child, w.streams[child]);
    StreamHead(child, w.streams[child]);
  }

  // What a split sends: never more than was asked, all of it exactly when the venues can take it all, and a part of
  // it exactly when they cannot take it all and yet can take something.
  lemma SplitMeetsBounds(w: World, t: Step, s: Setup, whole: set<int>)
    requires Good(w, SettingOf(s, whole)) && Possible(w, t, s) && Splits(w, t.event, s.maxReroutes)
    ensures 0 < Asked(w, t.event) && 1 <= s.cfg.lotSize
    ensures var sent, asked := Quantity(NewChildren(w, t.event, s.maxReroutes)), Asked(w, t.event);
            && 0 <= sent <= asked
            && (sent == asked <==> FindsAll(w, t, s)) && (sent in {0, asked} <==> FindsAllOrNothing(w, t, s))
  {
    hide Good, IsSplit, CanPlace, PlacesAllOrNothing, ChildOrders, NewChildren;
    var parent := SplitSends(w, t.event, SettingOf(s, whole));
    var size: nat := Asked(w, t.event);
    NeverRoutesMore(s.strategy, s.cfg, s.exp, s.top, size, SplitSide(w, t.event), t.seen, t.split, parent,
                    w.router.nextChild);
  }

  // An event whose split, if it makes one, is none for parent p or finds venues for all that is asked or for nothing.
  ghost predicate WholeFor(w: World, t: Step, s: Setup, p: int) {
    (Timely(w, t.event) && Splits(w, t.event, s.maxReroutes) && ParentOf(w, t.event) == p
     && 1 <= s.cfg.lotSize && 0 <= Asked(w, t.event)) ==> FindsAllOrNothing(w, t, s)
  }

  // Real splits and real reports keep within the bounds of the parents' books, for every parent none of whose splits
  // finds venues for a part only.
  lemma StepIsBounded(w: World, t: Step, s: Setup, whole: set<int>)
    requires Good(w, SettingOf(s, whole)) && Possible(w, t, s)
    requires forall p | p in whole :: WholeFor(w, t, s, p)
    ensures Bounded(w, t.event, SettingOf(s, whole))
  {
    hide Good, IsSplit, FindsAllOrNothing, FindsAll, ChildOrders, NewChildren, VenueReports, Answered, SplitAsComputed;
    var e, children := t.event, NewChildren(w, t.event, s.maxReroutes);
    if Splits(w, e, s.maxReroutes) {
      SplitMeetsBounds(w, t, s, whole);
      var parent := SplitSends(w, e, SettingOf(s, whole));
      ChildrenNumbered(parent, w.router.nextChild, e.allocations);
    } else {
      NothingSent(w, e, SettingOf(s, whole));
      NoQuantity();
    }
    if !e.GiveUp? { ReportsAnswer(children, w.router.nextChild, e.futures); }
  }

  // ---- Runs ----

  ghost predicate RealRun(steps: seq<Step>, worlds: seq<World>, s: Setup) {
    && |worlds| == |steps| + 1 && worlds[0] == START
    && forall i | 0 <= i < |steps| ::
         Possible(worlds[i], steps[i], s) && worlds[i + 1] == Next(worlds[i], steps[i].event, s.maxReroutes)
  }

  function Bare(steps: seq<Step>): (events: seq<Event>)
    ensures |events| == |steps|
  {
    seq(|steps|, i requires 0 <= i < |steps| => steps[i].event)
  }

  // No split made for parent p in the first n steps finds venues for a part only.
  ghost predicate WholeSplits(steps: seq<Step>, worlds: seq<World>, s: Setup, p: int, n: nat)
    requires n <= |steps| < |worlds|
  {
    forall i | 0 <= i < n :: WholeFor(worlds[i], steps[i], s, p)
  }

  lemma {:induction false} RealRunIsBounded(steps: seq<Step>, worlds: seq<World>, s: Setup, whole: set<int>, n: nat)
    requires RealRun(steps, worlds, s) && n <= |steps|
    requires forall p | p in whole :: WholeSplits(steps, worlds, s, p, n)
    ensures Run(Bare(steps)[..n], worlds[..n + 1], SettingOf(s, whole))
    ensures Good(worlds[n], SettingOf(s, whole))
  {
    hide Possible, Next, Good, Bounded, WholeFor;
    if n > 0 {
      RealRunIsBounded(steps, worlds, s, whole, n - 1);
      StepIsBounded(worlds[n - 1], steps[n - 1], s, whole);
    }
    assert worlds[..n + 1][n] == worlds[n];
    EveryWorldIsGood(Bare(steps)[..n], worlds[..n + 1], SettingOf(s, whole), n);
  }

  lemma {:induction false} LogsGrow(steps: seq<Step>, worlds: seq<World>, s: Setup, k: nat, i: nat)
    requires RealRun(steps, worlds, s) && k <= i <= |steps|
    ensures worlds[k].router.lifecycle <= worlds[i].router.lifecycle
  {
    hide Next;
    if k < i {
      LogsGrow(steps, worlds, s, k, i - 1);
      assert Possible(worlds[i - 1], steps[i - 1], s);
      LogKeeps(worlds[i - 1], steps[i - 1].event, s.maxReroutes);
    }
  }

  // Once a split found venues for a part only, its parent stays short for as long as it lives.
  lemma {:induction false} ShortFromThen(steps: seq<Step>, worlds: seq<World>, s: Setup, p: int, k: nat, i: nat)
    requires RealRun(steps, worlds, s) && k < i <= |steps| && !WholeFor(worlds[k], steps[k], s, p)
             && Alive(worlds[i], p)
    ensures Settled(worlds[i], p) && worlds[i].router.childToParent.Keys <= worlds[i].streams.Keys
            && Short(worlds[i], p)
  {
    hide Good, Possible, Next, Bounded, DecidedIn, CompletedIn, Short, Settled, FindsAllOrNothing, FindsAll;
    var n, setting := i - 1, SettingOf(s, {});
    RealRunIsBounded(steps, worlds, s, {}, n);
    StepIsBounded(worlds[n], steps[n], s, {});
    if n == k {
      SplitMeetsBounds(worlds[k], steps[k], s, {});
      PartLeavesShort(worlds[k], steps[k].event, setting, p);
    } else {
      RealRunIsBounded(steps, worlds, s, {}, k);
      SplitIsDecided(worlds[k], steps[k].event, setting);
      LogsGrow(steps, worlds, s, k + 1, n);
      LogsGrow(steps, worlds, s, n, i);
      PrefixTells(worlds[k + 1].router.lifecycle, worlds[n].router.lifecycle, p);
      PrefixTells(worlds[n].router.lifecycle, worlds[i].router.lifecycle, p);
      ShortFromThen(steps, worlds, s, p, k, n);
      ShortStays(worlds[n], steps[n].event, setting, p);
    }
  }

  // From decision to completion, in every run: what a parent has filled and what its children in flight still owe
  // never exceed its quantity.  Once the client loop is done with it, they make it up exactly if none of its splits
  // found venues for a part only; and then it has a child in flight.
  lemma ParentsAddUp(steps: seq<Step>, worlds: seq<World>, s: Setup, p: int, i: nat)
    requires RealRun(steps, worlds, s) && i <= |steps| && Alive(worlds[i], p)
    ensures p in worlds[i].router.active && worlds[i].router.childToParent.Keys == worlds[i].streams.Keys
    ensures var parent := worlds[i].router.active[p];
            && 0 <= parent.filledQty == FilledIn(worlds[i].router.lifecycle, p) < parent.totalQty
            && Covered(worlds[i], p) <= parent.totalQty
            && (Settled(worlds[i], p) ==>
                  (Covered(worlds[i], p) == parent.totalQty <==> WholeSplits(steps, worlds, s, p, i)))
            && (Settled(worlds[i], p) && WholeSplits(steps, worlds, s, p, i) ==>
                  Kids(worlds[i].router.childToParent, p) != {})
  {
    hide Kids, Owed, Possible, Next, WholeFor, FilledIn;
    RealRunIsBounded(steps, worlds, s, {}, i);
    assert Live(worlds[i], p, SettingOf(s, {}));
    if WholeSplits(steps, worlds, s, p, i) {
      RealRunIsBounded(steps, worlds, s, {p}, i);
      assert Live(worlds[i], p, SettingOf(s, {p}));
      if Settled(worlds[i], p) { LiveParentHasChild(worlds[i], p, SettingOf(s, {p})); }
    } else {
      var k :| 0 <= k < i && !WholeFor(worlds[k], steps[k], s, p);
      ShortFromThen(steps, worlds, s, p, k, i);
    }
  }

  // The baselines never place a part, so under them no parent is ever stranded.
  lemma BaselinesNeverStrand(steps: seq<Step>, worlds: seq<World>, s: Setup, p: int, i: nat)
    requires RealRun(steps, worlds, s) && i <= |steps| && s.strategy != DP_OPTIMAL
    requires Alive(worlds[i], p) && Settled(worlds[i], p)
    ensures Kids(worlds[i].router.childToParent, p) != {}
  {
    hide RealRun, Alive, Settled, Kids;
    ParentsAddUp(steps, worlds, s, p, i);
  }

  // A completion reports exactly what was filled, which is the whole order unless it timed out.
  lemma CompletionIsAccurate(steps: seq<Step>, worlds: seq<World>, s: Setup, p: int, i: nat)
    requires RealRun(steps, worlds, s) && i < |steps| && Alive(worlds[i], p)
    requires CompletedIn(worlds[i + 1].router.lifecycle, p)
    ensures p in worlds[i].router.active
    ensures var log, total := worlds[i + 1].router.lifecycle, worlds[i].router.active[p].totalQty;
            && log != [] && log[|log| - 1] == Completion(p, FilledIn(log, p), FilledIn(log, p) < total)
            && 0 <= FilledIn(log, p) <= total && Decision(p, total) in log
  {
    hide Good, Possible, Next, Alive, CompletedIn, FilledIn, WholeFor;
    RealRunIsBounded(steps, worlds, s, {}, i);
    StepIsBounded(worlds[i], steps[i], s, {});
    CompletionReports(worlds[i], steps[i].event, SettingOf(s, {}), p);
  }

  // A parent none of whose splits finds venues for a part only is completed by the time V + V * R terminal reports
  // of its children have come in after it was first routed, V being the venues and R the reroutes allowed.
  lemma CompletionFollows(steps: seq<Step>, worlds: seq<World>, s: Setup, p: int, i: nat, j: nat)
    requires RealRun(steps, worlds, s) && 0 <= s.maxReroutes && i < j <= |steps| && WholeSplits(steps, worlds, s, p, j)
    requires (steps[i].event.Arrive? || steps[i].event.TryAgain?) && ParentOf(worlds[i], steps[i].event) == p
    requires Settled(worlds[i + 1], p) && AliveThroughout(worlds, p, i + 1, j)
    ensures Terminals(Bare(steps), worlds, p, i + 1, j) < s.venues + s.venues * s.maxReroutes
  {
    hide Possible, WholeFor, Alive, Settled, Good, Next, Bounded, ParentOf;
    RealRunIsBounded(steps, worlds, s, {p}, j);
    var events, past := Bare(steps)[..j], worlds[..j + 1];
    assert events[i] == steps[i].event && past[i] == worlds[i] && past[i + 1] == worlds[i + 1];
    forall k | i + 1 <= k <= j ensures Alive(past[k], p) { assert past[k] == worlds[k]; }
    BooksComplete(events, past, SettingOf(s, {p}), p, i, j);
    SamePast(Bare(steps), worlds, events, past, p, i + 1, j);
  }

  lemma {:induction false} SamePast(events: seq<Event>, worlds: seq<World>, less: seq<Event>, past: seq<World>, p: int,
                                    i: nat, j: nat)
    requires i <= j <= |events| < |worlds| && j <= |less| < |past|
    requires less <= events && past <= worlds
    ensures Terminals(events, worlds, p, i, j) == Terminals(less, past, p, i, j)
    decreases j
  {
    if i < j { SamePast(events, worlds, less, past, p, i, j - 1); }
  }
}
