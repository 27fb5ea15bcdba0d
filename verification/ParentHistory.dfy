/** Parent orders over whole runs: which client order a parent's record and its children stand for, how often what is
    left of it is routed again, and when it is given up.  */
module ParentHistories {
  import opened MarketTypes
  import opened ParentBooks
  import opened Routers
  import opened RouterRuns
  import opened SplitDispatch
  import opened Venues

  // A step of a run, from a world whose books are in order, keeps within bounds.
  lemma StepAt(steps: seq<Step>, worlds: seq<World>, s: Setup, i: nat)
    requires RealRun(steps, worlds, s) && i < |steps|
    ensures Good(worlds[i], SettingOf(s, {})) && Bounded(worlds[i], steps[i].event, SettingOf(s, {}))
    ensures Timely(worlds[i], steps[i].event)
    ensures Possible(worlds[i], steps[i], s) && worlds[i + 1] == Next(worlds[i], steps[i].event, s.maxReroutes)
    ensures worlds[i].router.lifecycle <= worlds[i + 1].router.lifecycle
  {
    hide Good, Bounded, Next, WholeFor, AllReported, SplitAsComputed, NewChildren;
    RealRunIsBounded(steps, worlds, s, {}, i);
    StepIsBounded(worlds[i], steps[i], s, {});
    LogsGrow(steps, worlds, s, i, i + 1);
  }

  // ---- The client order behind a parent ----

  // The i-th step is the arrival of the order with this id.
  predicate ArrivesAt(steps: seq<Step>, i: nat, p: int) {
    i < |steps| && steps[i].event.Arrive? && steps[i].event.req.orderId == p
  }

  // A parent decided on arrived before, and stays decided on.
  lemma {:induction false} DecidedByArrival(steps: seq<Step>, worlds: seq<World>, s: Setup, p: int, i: nat)
    requires RealRun(steps, worlds, s) && i <= |steps|
    ensures DecidedIn(worlds[i].router.lifecycle, p) <==> exists j: nat | j < i :: ArrivesAt(steps, j, p)
  {
    hide Good, Bounded, Next, Possible, DecidedIn;
    if i == 0 {
      NoDecision(p);
    } else {
      DecidedByArrival(steps, worlds, s, p, i - 1);
      StepAt(steps, worlds, s, i - 1);
      var w, e := worlds[i - 1], steps[i - 1].event;
      PrefixTells(w.router.lifecycle, worlds[i].router.lifecycle, p);
      if !DecidedIn(w.router.lifecycle, p) && DecidedIn(worlds[i].router.lifecycle, p) {
        OnlyByArrival(w, e, SettingOf(s, {}), p);
        assert ArrivesAt(steps, i - 1, p);
      }
      if ArrivesAt(steps, i - 1, p) { ArrivalDecides(w, e, s.maxReroutes); }
    }
  }

  lemma NoDecision(p: int)
    ensures !DecidedIn(START.router.lifecycle, p)
  {}

  lemma ArrivalDecides(w: World, e: Event, maxReroutes: int)
    requires Timely(w, e) && e.Arrive?
    ensures DecidedIn(Next(w, e, maxReroutes).router.lifecycle, e.req.orderId)
    ensures !DecidedIn(w.router.lifecycle, e.req.orderId) && e.req.orderId != 0
  {
    ArriveRecord(w, e, maxReroutes);
  }

  // No two orders of a run have the same id.
  lemma ArrivesOnce(steps: seq<Step>, worlds: seq<World>, s: Setup, p: int, j: nat, k: nat)
    requires RealRun(steps, worlds, s) && ArrivesAt(steps, j, p) && ArrivesAt(steps, k, p)
    ensures j == k
  {
    hide Good, Bounded, Next, DecidedIn;
    if j < k {
      DecidedByArrival(steps, worlds, s, p, k);
      StepAt(steps, worlds, s, k);
    } else if k < j {
      DecidedByArrival(steps, worlds, s, p, j);
      StepAt(steps, worlds, s, j);
    }
  }

  // The record of a parent stands for this order.
  predicate StandsFor(parent: Parent, req: ClientRequest) {
    && parent.parentId == req.orderId && parent.side == req.side && parent.price == req.price
    && parent.totalQty == req.quantity
  }

  // A live parent has a record, with the side, the limit and the quantity the client asked for.
  lemma {:induction false} RecordIsOrder(steps: seq<Step>, worlds: seq<World>, s: Setup, p: int, i: nat)
    returns (j: nat)
    requires RealRun(steps, worlds, s) && i <= |steps| && Alive(worlds[i], p)
    ensures j < i && ArrivesAt(steps, j, p)
    ensures p in worlds[i].router.active && StandsFor(worlds[i].router.active[p], steps[j].event.req)
  {
    hide Good, Bounded, Next, Possible, DecidedIn, CompletedIn;
    if i == 0 {
      NoDecision(p);
    } else {
      StepAt(steps, worlds, s, i - 1);
      var w, e, setting := worlds[i - 1], steps[i - 1].event, SettingOf(s, {});
      PrefixTells(w.router.lifecycle, worlds[i].router.lifecycle, p);
      if Alive(w, p) {
        j := RecordIsOrder(steps, worlds, s, p, i - 1);
        RecordKept(w, e, setting, p);
        KeepsGood(w, e, setting, p);
      } else {
        OnlyByArrival(w, e, setting, p);
        j := i - 1;
        ArriveRecord(w, e, s.maxReroutes);
      }
    }
  }

  lemma KeepsGood(w: World, e: Event, s: Setting, p: int)
    requires Good(w, s) && Bounded(w, e, s) && Alive(Next(w, e, s.maxReroutes), p)
    ensures var w' := Next(w, e, s.maxReroutes); p in w'.router.active && w'.router.active[p].parentId == p
  {
    hide Good, Next, Alive, Live, Answered, NewChildren, WillReroute;
    EventKeepsGood(w, e, s);
    RecordIsOwn(Next(w, e, s.maxReroutes), s, p);
  }

  lemma RecordIsOwn(w: World, s: Setting, p: int)
    requires Good(w, s) && Alive(w, p)
    ensures p in w.router.active && w.router.active[p].parentId == p
  {
    assert Live(w, p, s);
  }

  // Whatever is sent for an order, at first, again, or for what a report left, goes to its side and at its limit; it is
  // split as the strategy says for that side; and the client loop always asks for the whole order.
  lemma ChildrenCarryOrder(steps: seq<Step>, worlds: seq<World>, s: Setup, i: nat) returns (j: nat)
    requires RealRun(steps, worlds, s) && i < |steps| && Splits(worlds[i], steps[i].event, s.maxReroutes)
    requires steps[i].event.Report? ==> Alive(worlds[i], ParentOf(worlds[i], steps[i].event))
    ensures j <= i && ArrivesAt(steps, j, ParentOf(worlds[i], steps[i].event))
    ensures var w, e, req := worlds[i], steps[i].event, steps[j].event.req;
            && OnePerVenue(NewChildren(w, e, s.maxReroutes), req.side, req.price, e.allocations)
            && 0 < Asked(w, e) && (!e.Report? ==> Asked(w, e) == req.quantity)
            && e.allocations == steps[i].split.allocations
            && IsSplit(s.strategy, s.cfg, s.exp, s.top, Asked(w, e), req.side, steps[i].seen, steps[i].split)
  {
    hide Good, Bounded, Next, DecidedIn, CompletedIn, IsSplit, ChildOrders, NewChildren, OnePerVenue;
    StepAt(steps, worlds, s, i);
    var w, e, setting := worlds[i], steps[i].event, SettingOf(s, {});
    var parent := SplitSends(w, e, setting);
    OneChildPerVenue(parent, w.router.nextChild, e.allocations);
    if e.Arrive? {
      j := i;
    } else {
      if e.TryAgain? { TryingIsAlive(w, setting); }
      j := RecordIsOrder(steps, worlds, s, ParentOf(w, e), i);
    }
  }

  lemma TryingIsAlive(w: World, s: Setting)
    requires Good(w, s) && w.client.Trying?
    ensures 1 <= w.client.attempt && Alive(w, w.client.parentId) && w.client.parentId in w.router.active
    ensures w.router.active[w.client.parentId].totalQty == w.client.quantity
  {}

  // ---- How often what is left is routed again ----

  // The terminal reports of a parent's children that left something, among the first n events.
  function Leavings(steps: seq<Step>, worlds: seq<World>, p: int, n: nat): nat
    requires n <= |steps| < |worlds|
  {
    if n == 0 then 0
    else Leavings(steps, worlds, p, n - 1) + if LeavesSomething(worlds[n - 1], steps[n - 1].event, p) then 1 else 0
  }

  // Nothing is reported for an order before it arrives.
  lemma {:induction false} NothingLeftYet(steps: seq<Step>, worlds: seq<World>, s: Setup, p: int, i: nat)
    requires RealRun(steps, worlds, s) && i <= |steps| && p != 0 && !DecidedIn(worlds[i].router.lifecycle, p)
    ensures Leavings(steps, worlds, p, i) == 0
  {
    hide Bounded, Next, Possible, DecidedIn;
    if i > 0 {
      StepAt(steps, worlds, s, i - 1);
      PrefixTells(worlds[i - 1].router.lifecycle, worlds[i].router.lifecycle, p);
      NothingLeftYet(steps, worlds, s, p, i - 1);
    }
  }

  // A live parent's count is the number of its terminal reports that left something.
  lemma {:induction false} CountIsLeavings(steps: seq<Step>, worlds: seq<World>, s: Setup, p: int, i: nat)
    requires RealRun(steps, worlds, s) && i <= |steps| && Alive(worlds[i], p)
    ensures p in worlds[i].router.active && worlds[i].router.active[p].rerouteCount == Leavings(steps, worlds, p, i)
  {
    hide Good, Bounded, Next, Possible, DecidedIn, CompletedIn;
    if i == 0 {
      NoDecision(p);
    } else {
      StepAt(steps, worlds, s, i - 1);
      var w, e, setting := worlds[i - 1], steps[i - 1].event, SettingOf(s, {});
      PrefixTells(w.router.lifecycle, worlds[i].router.lifecycle, p);
      if Alive(w, p) {
        CountIsLeavings(steps, worlds, s, p, i - 1);
        RecordKept(w, e, setting, p);
      } else {
        OnlyByArrival(w, e, setting, p);
        ArriveRecord(w, e, s.maxReroutes);
        NothingLeftYet(steps, worlds, s, p, i - 1);
      }
    }
  }

  // The k-th terminal report that leaves something makes the router split what is left if and only if k is at most the
  // reroutes allowed.
  lemma ReroutesAllowed(steps: seq<Step>, worlds: seq<World>, s: Setup, p: int, i: nat)
    requires RealRun(steps, worlds, s) && i < |steps| && Alive(worlds[i], p)
    requires LeavesSomething(worlds[i], steps[i].event, p)
    ensures Splits(worlds[i], steps[i].event, s.maxReroutes) <==> Leavings(steps, worlds, p, i + 1) <= s.maxReroutes
    ensures Asked(worlds[i], steps[i].event) == worlds[i].streams[steps[i].event.child].events[0].remaining
  {
    hide Good, Bounded, Next, Alive;
    StepAt(steps, worlds, s, i);
    CountIsLeavings(steps, worlds, s, p, i);
    SplitByCount(worlds[i], steps[i].event, SettingOf(s, {}), p);
  }

  // A live parent times out at a step exactly when the client gives it up there, or a report leaves something and
  // either more such reports have come than reroutes are allowed, or the split for it placed nothing.
  lemma TimesOut(steps: seq<Step>, worlds: seq<World>, s: Setup, p: int, i: nat)
    requires RealRun(steps, worlds, s) && i < |steps| && Alive(worlds[i], p)
    ensures var w, e, log := worlds[i], steps[i].event, worlds[i + 1].router.lifecycle;
            CompletedIn(log, p) && log != [] && log[|log| - 1].Completion? && log[|log| - 1].timedOut <==>
            || (e.GiveUp? && w.client.parentId == p)
            || (LeavesSomething(w, e, p)
                && (s.maxReroutes < Leavings(steps, worlds, p, i + 1) || NewChildren(w, e, s.maxReroutes) == []))
  {
    hide Good, Bounded, Next, Alive, CompletedIn, LeavesSomething, NewChildren;
    StepAt(steps, worlds, s, i);
    TimedOutBecause(worlds[i], steps[i].event, SettingOf(s, {}), p);
    if LeavesSomething(worlds[i], steps[i].event, p) {
      ReroutesAllowed(steps, worlds, s, p, i);
      if s.maxReroutes < Leavings(steps, worlds, p, i + 1) {
        NothingSent(worlds[i], steps[i].event, SettingOf(s, {}));
      }
    }
  }

  // ---- How often the client loop tries ----

  // The client loop's attempts to route an order, among the first n events.
  function Attempts(steps: seq<Step>, worlds: seq<World>, p: int, n: nat): nat
    requires n <= |steps| < |worlds|
  {
    if n == 0 then 0
    else Attempts(steps, worlds, p, n - 1) + if IsAttempt(worlds[n - 1], steps[n - 1].event, p) then 1 else 0
  }

  predicate IsAttempt(w: World, e: Event, p: int) {
    (e.Arrive? || (e.TryAgain? && w.client.Trying?)) && ParentOf(w, e) == p
  }

  // None of the attempts among the first n events sent anything.
  ghost predicate NothingRouted(steps: seq<Step>, worlds: seq<World>, s: Setup, p: int, n: nat)
    requires n <= |steps| < |worlds|
  {
    forall k | 0 <= k < n && IsAttempt(worlds[k], steps[k].event, p) ::
      NewChildren(worlds[k], steps[k].event, s.maxReroutes) == []
  }

  lemma {:induction false} NotTriedYet(steps: seq<Step>, worlds: seq<World>, s: Setup, p: int, i: nat)
    requires RealRun(steps, worlds, s) && i <= |steps| && p != 0 && !DecidedIn(worlds[i].router.lifecycle, p)
    ensures Attempts(steps, worlds, p, i) == 0
    ensures forall k | 0 <= k < i :: !IsAttempt(worlds[k], steps[k].event, p)
  {
    hide Good, Bounded, Next, Possible, DecidedIn;
    if i > 0 {
      StepAt(steps, worlds, s, i - 1);
      var w, e := worlds[i - 1], steps[i - 1].event;
      PrefixTells(w.router.lifecycle, worlds[i].router.lifecycle, p);
      NotTriedYet(steps, worlds, s, p, i - 1);
      if e.Arrive? { ArrivalDecides(w, e, s.maxReroutes); }
      if e.TryAgain? { TryingIsAlive(w, SettingOf(s, {})); }
    }
  }

  // While the client loop is trying, its counter is the number of attempts, and none of them sent anything.
  lemma {:induction false} TriesAreCounted(steps: seq<Step>, worlds: seq<World>, s: Setup, i: nat)
    requires RealRun(steps, worlds, s) && i <= |steps| && worlds[i].client.Trying?
    ensures var p := worlds[i].client.parentId;
            Attempts(steps, worlds, p, i) == worlds[i].client.attempt <= 11 && NothingRouted(steps, worlds, s, p, i)
  {
    hide Good, Bounded, Possible, DecidedIn, ChildOrders, NewChildren, RouterAfter, Quantity;
    if i > 0 {
      StepAt(steps, worlds, s, i - 1);
      var w, e := worlds[i - 1], steps[i - 1].event;
      var p := worlds[i].client.parentId;
      if e.Arrive? {
        ArrivalDecides(w, e, s.maxReroutes);
        NotTriedYet(steps, worlds, s, p, i - 1);
        SentNothing(w, e, SettingOf(s, {}));
      } else {
        TriesAreCounted(steps, worlds, s, i - 1);
        if e.TryAgain? { SentNothing(w, e, SettingOf(s, {})); }
      }
    }
  }

  lemma SentNothing(w: World, e: Event, s: Setting)
    requires Good(w, s) && Bounded(w, e, s) && Splits(w, e, s.maxReroutes)
    ensures var sent := NewChildren(w, e, s.maxReroutes);
            0 <= Quantity(sent) && (Quantity(sent) == 0 <==> sent == [])
  {
    hide Good, NewChildren, ChildOrders, Quantity;
    var parent := SplitSends(w, e, s);
    ChildrenNumbered(parent, w.router.nextChild, e.allocations);
    QuantityPositive(NewChildren(w, e, s.maxReroutes), w.router.nextChild);
  }

  // The client loop gives an order up after exactly eleven attempts, none of which sent anything; and it tries again
  // only after fewer, none of which did.
  lemma GivenUpAfterEleven(steps: seq<Step>, worlds: seq<World>, s: Setup, i: nat)
    requires RealRun(steps, worlds, s) && i < |steps| && (steps[i].event.GiveUp? || steps[i].event.TryAgain?)
    ensures var p, tries := ParentOf(worlds[i], steps[i].event),
                            Attempts(steps, worlds, ParentOf(worlds[i], steps[i].event), i);
            && Alive(worlds[i], p) && NothingRouted(steps, worlds, s, p, i)
            && (if steps[i].event.GiveUp? then tries == 11 else 1 <= tries <= 10)
  {
    hide Good, Bounded, Next, Possible, DecidedIn, CompletedIn, NothingRouted, Attempts;
    StepAt(steps, worlds, s, i);
    TryingIsAlive(worlds[i], SettingOf(s, {}));
    TriesAreCounted(steps, worlds, s, i);
  }
}
