/** The router's books on its parent orders through every sequence of events that keeps within bounds: client orders
    arrive, children are sent, and each child's reports come back one at a time, those of different children in any
    order.  That real splits and real venue reports keep within these bounds is proved in RouterRuns.  */
module ParentBooks {
  import opened MarketTypes
  import opened OrderedKeys
  import opened Routers
  import opened Totals
  import opened Venues

  const MAX_INITIAL_ATTEMPTS := 10

  // A child in flight: what of it is still unreported, and the reports still to come.
  datatype Stream = Stream(left: int, events: seq<FillEvent>)

  // The client loop between two attempts to route the same order.
  datatype Client = Free | Trying(parentId: int, quantity: int, attempt: int)

  datatype World = World(router: RouterState, client: Client, streams: map<int, Stream>)

  datatype Event =
    | Arrive(req: ClientRequest, allocations: seq<int>, futures: map<int, seq<FillEvent>>)
    | TryAgain(allocations: seq<int>, futures: map<int, seq<FillEvent>>)
    | GiveUp
    | Report(child: int, allocations: seq<int>, futures: map<int, seq<FillEvent>>)

  // How the router is set up, and the parents whose splits place all they are asked to place or nothing.
  datatype Setting = Setting(maxReroutes: int, venues: nat, whole: set<int>)

  predicate DecidedIn(log: seq<LifecycleEvent>, p: int) {
    exists i | 0 <= i < |log| :: log[i].Decision? && log[i].parentId == p
  }

  predicate CompletedIn(log: seq<LifecycleEvent>, p: int) {
    exists i | 0 <= i < |log| :: log[i].Completion? && log[i].parentId == p
  }

  function FilledIn(log: seq<LifecycleEvent>, p: int): int {
    if log == [] then 0
    else
      var e := log[|log| - 1];
      FilledIn(log[..|log| - 1], p) + if e.Filled? && e.parentId == p then e.quantity else 0
  }

  // The router after an event.
  function RouterAfter(w: World, e: Event, maxReroutes: int): RouterState
    requires e.Report? ==> e.child in w.streams && w.streams[e.child].events != []
  {
    match e
    case Arrive(req, allocations, _) => Registered(w.router, req, allocations)
    case TryAgain(allocations, _) =>
      if w.client.Trying? then Retried(w.router, w.client.parentId, allocations) else w.router
    case GiveUp => if w.client.Trying? then Abandoned(w.router, w.client.parentId) else w.router
    case Report(child, allocations, _) => FillProcessed(w.router, w.streams[child].events[0], maxReroutes, allocations)
  }

  // The children an event sent.
  function NewChildren(w: World, e: Event, maxReroutes: int): seq<ChildOrder>
    requires e.Report? ==> e.child in w.streams && w.streams[e.child].events != []
  {
    var sent := RouterAfter(w, e, maxReroutes).sent;
    if |w.router.sent| <= |sent| then sent[|w.router.sent|..] else []
  }

  // Every child's reports will form a stream for its quantity.
  ghost predicate Answered(children: seq<ChildOrder>, futures: map<int, seq<FillEvent>>) {
    forall i | 0 <= i < |children| ::
      children[i].id in futures && OrderStream(children[i].id, children[i].quantity, futures[children[i].id])
  }

  // What a routing decision was asked to place.
  function Asked(w: World, e: Event): int
    requires e.Report? ==> e.child in w.streams && w.streams[e.child].events != []
  {
    match e
    case Arrive(req, _, _) => req.quantity
    case TryAgain(_, _) => if w.client.Trying? then w.client.quantity else 0
    case GiveUp => 0
    case Report(child, _, _) => w.streams[child].events[0].remaining
  }

  // The parent an event is about.
  function ParentOf(w: World, e: Event): int {
    match e
    case Arrive(req, _, _) => req.orderId
    case TryAgain(_, _) => if w.client.Trying? then w.client.parentId else 0
    case GiveUp => if w.client.Trying? then w.client.parentId else 0
    case Report(child, _, _) => if child in w.router.childToParent then w.router.childToParent[child] else 0
  }

  // The client loop and the children in flight allow the event now.
  predicate Timely(w: World, e: Event) {
    match e
    case Arrive(req, _, _) =>
      w.client.Free? && req.orderId != 0 && 0 < req.quantity && !DecidedIn(w.router.lifecycle, req.orderId)
    case TryAgain(_, _) => w.client.Trying? && w.client.attempt <= MAX_INITIAL_ATTEMPTS
    case GiveUp => w.client.Trying? && w.client.attempt > MAX_INITIAL_ATTEMPTS
    case Report(child, _, _) => child in w.streams && w.streams[child].events != []
  }

  // The event makes the router split a quantity over the venues.
  predicate Splits(w: World, e: Event, maxReroutes: int)
    requires Timely(w, e)
  {
    e.Arrive? || e.TryAgain? || WillReroute(w, e, maxReroutes)
  }

  // A split places no more than it is asked to; all of it or nothing, for the parents of which that is said.
  ghost predicate Bounded(w: World, e: Event, s: Setting) {
    && Timely(w, e)
    && (!e.GiveUp? ==> Answered(NewChildren(w, e, s.maxReroutes), e.futures) && |e.allocations| == s.venues)
    && var children := NewChildren(w, e, s.maxReroutes);
       && Quantity(children) <= Asked(w, e)
       && (Splits(w, e, s.maxReroutes) && ParentOf(w, e) in s.whole ==> Quantity(children) in {0, Asked(w, e)})
  }

  // A terminal report that makes the router split what is left.
  predicate WillReroute(w: World, e: Event, maxReroutes: int)
    requires e.Report? ==> e.child in w.streams && w.streams[e.child].events != []
  {
    && e.Report? && e.child in w.router.childToParent && w.streams[e.child].events[0].status != PARTIAL
    && var fill := w.streams[e.child].events[0];
       Reroutes(Counted(Lookup(w.router, w.router.childToParent[e.child]), fill), fill, maxReroutes)
  }

  function WithStreams(streams: map<int, Stream>, children: seq<ChildOrder>,
                       futures: map<int, seq<FillEvent>>): map<int, Stream>
  {
    if children == [] then streams
    else
      var c := children[|children| - 1];
      var events := if c.id in futures then futures[c.id] else [];
      WithStreams(streams, children[..|children| - 1], futures)[c.id := Stream(c.quantity, events)]
  }

  function Next(w: World, e: Event, maxReroutes: int): World
    requires e.Report? ==> e.child in w.streams && w.streams[e.child].events != []
  {
    var router, children := RouterAfter(w, e, maxReroutes), NewChildren(w, e, maxReroutes);
    match e
    case Arrive(req, _, futures) =>
      World(router, if Quantity(children) > 0 then Free else Trying(req.orderId, req.quantity, 1),
            WithStreams(w.streams, children, futures))
    case TryAgain(_, futures) =>
      World(router,
            if Quantity(children) > 0 || !w.client.Trying? then Free else w.client.(attempt := w.client.attempt + 1),
            WithStreams(w.streams, children, futures))
    case GiveUp => World(router, Free, w.streams)
    case Report(child, _, futures) =>
      var fill := w.streams[child].events[0];
      World(router, w.client,
            if fill.status == PARTIAL then w.streams[child := Stream(fill.remaining, w.streams[child].events[1..])]
            else WithStreams(w.streams, children, futures) - {child})
  }

  // ---- The children of a parent and what they still owe ----

  ghost function Kids(m: map<int, int>, p: int): set<int> {
    set c | c in m && m[c] == p
  }

  function Lefts(streams: map<int, Stream>): map<int, int> {
    map c | c in streams :: streams[c].left
  }

  ghost function Owed(m: map<int, int>, streams: map<int, Stream>, p: int): int
    requires m.Keys <= streams.Keys
  {
    Total(Lefts(streams), Kids(m, p))
  }

  lemma PutKid(m: map<int, int>, c: int, parent: int, p: int)
    requires c !in m
    ensures Kids(m[c := parent], p) == if parent == p then Kids(m, p) + {c} else Kids(m, p)
    ensures |Kids(m[c := parent], p)| == |Kids(m, p)| + if parent == p then 1 else 0
    ensures c !in Kids(m, p)
  {
    var m' := m[c := parent];
    var more := if parent == p then Kids(m, p) + {c} else Kids(m, p);
    forall x | x in Kids(m', p) ensures x in more {}
    forall x | x in more ensures x in Kids(m', p) {}
    assert Kids(m', p) == more;
  }

  lemma PutChild(m: map<int, int>, streams: map<int, Stream>, c: int, parent: int, stream: Stream, p: int)
    requires m.Keys == streams.Keys && c !in m
    ensures |Kids(m[c := parent], p)| == |Kids(m, p)| + if parent == p then 1 else 0
    ensures Owed(m[c := parent], streams[c := stream], p) ==
            Owed(m, streams, p) + if parent == p then stream.left else 0
  {
    PutKid(m, c, parent, p);
    var kids, s' := Kids(m, p), streams[c := stream];
    TotalAgrees(Lefts(streams), Lefts(s'), kids);
    if parent == p { TotalAdd(Lefts(s'), kids, c); }
  }

  lemma DropChild(m: map<int, int>, streams: map<int, Stream>, c: int, p: int)
    requires m.Keys == streams.Keys && c in m
    ensures Kids(m - {c}, p) == Kids(m, p) - {c}
    ensures |Kids(m - {c}, p)| == |Kids(m, p)| - if m[c] == p then 1 else 0
    ensures Owed(m - {c}, streams - {c}, p) == Owed(m, streams, p) - if m[c] == p then streams[c].left else 0
  {
    var m', s' := m - {c}, streams - {c};
    forall x | x in Kids(m', p) ensures x in Kids(m, p) - {c} {}
    assert Kids(m', p) == Kids(m, p) - {c};
    TotalAgrees(Lefts(streams), Lefts(s'), Kids(m, p) - {c});
    if m[c] == p {
      TotalAdd(Lefts(streams), Kids(m, p) - {c}, c);
      assert Kids(m, p) - {c} + {c} == Kids(m, p);
    } else {
      assert Kids(m, p) - {c} == Kids(m, p);
    }
  }

  lemma ShrinkChild(m: map<int, int>, streams: map<int, Stream>, c: int, stream: Stream, p: int)
    requires m.Keys == streams.Keys && c in m
    ensures Owed(m, streams[c := stream], p) ==
            Owed(m, streams, p) - if m[c] == p then streams[c].left - stream.left else 0
  {
    var s' := streams[c := stream];
    var rest := Kids(m, p) - {c};
    TotalAgrees(Lefts(streams), Lefts(s'), rest);
    if m[c] == p {
      TotalAdd(Lefts(streams), rest, c);
      TotalAdd(Lefts(s'), rest, c);
      assert rest + {c} == Kids(m, p);
    } else {
      assert rest == Kids(m, p);
    }
  }

  // Children numbered on from `next`.
  ghost predicate Numbered(children: seq<ChildOrder>, next: int) {
    forall i | 0 <= i < |children| :: children[i].id == next + i && 0 < children[i].quantity
  }

  lemma {:induction false} ChildrenNumbered(parent: Parent, next: int, allocations: seq<int>)
    ensures Numbered(ChildOrders(parent, next, allocations), next)
            && |ChildOrders(parent, next, allocations)| <= |allocations|
  {
    if allocations != [] { ChildrenNumbered(parent, next, allocations[..|allocations| - 1]); }
  }

  lemma {:induction false} PutChildren(m: map<int, int>, streams: map<int, Stream>, children: seq<ChildOrder>,
                                       next: int, parent: int,
                                       futures: map<int, seq<FillEvent>>, p: int)
    requires m.Keys == streams.Keys && Numbered(children, next) && forall c | c in m :: c < next
    ensures var m', s' := WithChildren(m, children, parent), WithStreams(streams, children, futures);
            && m'.Keys == s'.Keys && (forall c | c in m' :: c < next + |children|)
            && |Kids(m', p)| == |Kids(m, p)| + (if parent == p then |children| else 0)
            && Owed(m', s', p) == Owed(m, streams, p) + (if parent == p then Quantity(children) else 0)
            && (forall c | c in m :: c in m' && m'[c] == m[c] && s'[c] == streams[c])
  {
    if children != [] {
      var k := |children| - 1;
      PutChildren(m, streams, children[..k], next, parent, futures, p);
      var m1, s1 := WithChildren(m, children[..k], parent), WithStreams(streams, children[..k], futures);
      PutChild(m1, s1, children[k].id, parent,
               Stream(children[k].quantity, if children[k].id in futures then futures[children[k].id] else []), p);
    }
  }

  lemma {:induction false} PutChildrenKeeps(m: map<int, int>, streams: map<int, Stream>, children: seq<ChildOrder>,
                                            next: int, parent: int,
                                            futures: map<int, seq<FillEvent>>)
    requires m.Keys == streams.Keys && Numbered(children, next) && Answered(children, futures)
    requires forall c | c in streams :: StreamOk(c, streams[c])
    ensures forall c | c in WithStreams(streams, children, futures) ::
              StreamOk(c, WithStreams(streams, children, futures)[c])
    ensures forall c | c in WithChildren(m, children, parent) ::
              WithChildren(m, children, parent)[c] == parent || (c in m && WithChildren(m, children, parent)[c] == m[c])
  {
    if children != [] {
      PutChildrenKeeps(m, streams, children[..|children| - 1], next, parent, futures);
    }
  }

  ghost predicate StreamOk(c: int, stream: Stream) {
    0 < stream.left && OrderStream(c, stream.left, stream.events)
  }

  // Each child carries, to this side and at this limit, the allocation of the venue it goes to; they go out in the
  // order of the venues; and every venue with a positive allocation gets one.
  ghost predicate OnePerVenue(children: seq<ChildOrder>, side: Side, price: int, allocations: seq<int>) {
    && (forall i | 0 <= i < |children| ::
          && children[i].side == side && children[i].price == price && 0 <= children[i].venue < |allocations|
          && children[i].quantity == allocations[children[i].venue] && 0 < children[i].quantity)
    && (forall i, j | 0 <= i < j < |children| :: children[i].venue < children[j].venue)
    && (forall k | 0 <= k < |allocations| && 0 < allocations[k] :: SentTo(children, k))
  }

  predicate SentTo(children: seq<ChildOrder>, venue: int) {
    exists i :: 0 <= i < |children| && children[i].venue == venue
  }

  // The children of a split: exactly one for each venue that is allocated something, and none for any other.
  lemma {:induction false} OneChildPerVenue(parent: Parent, next: int, allocations: seq<int>)
    ensures OnePerVenue(ChildOrders(parent, next, allocations), parent.side, parent.price, allocations)
  {
    hide OnePerVenue, ChildOrders;
    if allocations == [] {
      NoChildren(parent, next);
    } else {
      var n := |allocations| - 1;
      var before := ChildOrders(parent, next, allocations[..n]);
      OneChildPerVenue(parent, next, allocations[..n]);
      OneMoreVenue(before, parent.side, parent.price, allocations[..n], allocations[n], next + |before|);
      LastChild(parent, next, allocations);
      assert allocations[..n] + [allocations[n]] == allocations;
    }
  }

  lemma NoChildren(parent: Parent, next: int)
    ensures OnePerVenue(ChildOrders(parent, next, []), parent.side, parent.price, [])
  {}

  lemma LastChild(parent: Parent, next: int, allocations: seq<int>)
    requires allocations != []
    ensures var n := |allocations| - 1;
            var before := ChildOrders(parent, next, allocations[..n]);
            ChildOrders(parent, next, allocations) ==
            if allocations[n] > 0 then
              before + [ChildOrder(next + |before|, n, parent.side, parent.price, allocations[n])]
            else before
  {}

  lemma OneMoreVenue(children: seq<ChildOrder>, side: Side, price: int, allocations: seq<int>, x: int, id: int)
    requires OnePerVenue(children, side, price, allocations)
    ensures OnePerVenue(if x > 0 then children + [ChildOrder(id, |allocations|, side, price, x)] else children,
                        side, price, allocations + [x])
  {
    var all, child := allocations + [x], ChildOrder(id, |allocations|, side, price, x);
    var more := if x > 0 then children + [child] else children;
    forall k | 0 <= k < |all| && 0 < all[k] ensures SentTo(more, k) {
      if k < |allocations| {
        assert all[k] == allocations[k];
        StillSentTo(children, child, k);
      } else {
        assert more[|children|] == child;
      }
    }
    hide SentTo;
  }

  lemma StillSentTo(children: seq<ChildOrder>, child: ChildOrder, venue: int)
    requires SentTo(children, venue)
    ensures SentTo(children + [child], venue)
  {
    var i :| 0 <= i < |children| && children[i].venue == venue;
    assert (children + [child])[i].venue == venue;
  }

  // ---- What every run keeps ----

  // A parent between its decision and its completion.
  ghost predicate Alive(w: World, p: int) {
    p != 0 && DecidedIn(w.router.lifecycle, p) && !CompletedIn(w.router.lifecycle, p)
  }

  ghost predicate LogOk(log: seq<LifecycleEvent>) {
    forall i | 0 <= i < |log| :: log[i].parentId == 0 || DecidedIn(log, log[i].parentId)
  }

  ghost predicate Shape(w: World) {
    var r := w.router;
    && r.childToParent.Keys == w.streams.Keys
    && (forall c | c in w.streams :: StreamOk(c, w.streams[c]))
    && (forall c | c in r.childToParent ::
          c < r.nextChild && (r.childToParent[c] == 0 || DecidedIn(r.lifecycle, r.childToParent[c])))
    && (forall q | q in r.active :: r.active[q].parentId == q || r.active[q].parentId == 0)
    && LogOk(r.lifecycle)
  }

  // The client loop is done with a parent.
  predicate Settled(w: World, p: int) {
    w.client.Trying? ==> w.client.parentId != p
  }

  // The books of a live parent: what it has filled and what its children still owe do not exceed the order, and make
  // it up if none of its splits places a part.
  ghost predicate Live(w: World, p: int, s: Setting)
    requires w.router.childToParent.Keys <= w.streams.Keys
  {
    && p in w.router.active
    && var parent, owed := w.router.active[p], Owed(w.router.childToParent, w.streams, p);
       && parent.parentId == p && 0 <= parent.filledQty < parent.totalQty
       && parent.filledQty == FilledIn(w.router.lifecycle, p) && Decision(p, parent.totalQty) in w.router.lifecycle
       && parent.filledQty + owed <= parent.totalQty
       && (p in s.whole && Settled(w, p) ==> parent.filledQty + owed == parent.totalQty)
  }

  // While the client loop is still trying, nothing of the order is in flight.
  ghost predicate ClientOk(w: World, s: Setting) {
    w.client.Trying? ==>
      && Alive(w, w.client.parentId) && 1 <= w.client.attempt
      && Kids(w.router.childToParent, w.client.parentId) == {}
      && w.client.parentId in w.router.active && w.router.active[w.client.parentId].filledQty == 0
      && w.router.active[w.client.parentId].totalQty == w.client.quantity
      && w.router.active[w.client.parentId].rerouteCount == 0
  }

  ghost predicate Good(w: World, s: Setting) {
    Shape(w) && ClientOk(w, s) && forall p | Alive(w, p) :: Live(w, p, s)
  }

  lemma LogGrows(log: seq<LifecycleEvent>, e: LifecycleEvent, p: int)
    ensures DecidedIn(log + [e], p) <==> DecidedIn(log, p) || (e.Decision? && e.parentId == p)
    ensures CompletedIn(log + [e], p) <==> CompletedIn(log, p) || (e.Completion? && e.parentId == p)
    ensures FilledIn(log + [e], p) == FilledIn(log, p) + if e.Filled? && e.parentId == p then e.quantity else 0
    ensures LogOk(log) && (e.parentId == 0 || e.Decision? || DecidedIn(log, e.parentId)) ==> LogOk(log + [e])
  {
    var more := log + [e];
    assert more[|log|] == e && more[..|log|] == log;
    if DecidedIn(log, p) {
      var i :| 0 <= i < |log| && log[i].Decision? && log[i].parentId == p;
      assert more[i] == log[i];
    }
    if CompletedIn(log, p) {
      var i :| 0 <= i < |log| && log[i].Completion? && log[i].parentId == p;
      assert more[i] == log[i];
    }
    forall q | DecidedIn(log, q) ensures DecidedIn(more, q) {
      var i :| 0 <= i < |log| && log[i].Decision? && log[i].parentId == q;
      assert more[i] == log[i];
    }
  }

  lemma {:induction false} NothingFilled(log: seq<LifecycleEvent>, p: int)
    requires forall i | 0 <= i < |log| :: log[i].parentId != p
    ensures FilledIn(log, p) == 0
  {
    if log != [] { NothingFilled(log[..|log| - 1], p); }
  }

  // An order whose id was never seen has no children, no fills and no completion.
  lemma UnseenParent(w: World, p: int)
    requires Shape(w) && p != 0 && !DecidedIn(w.router.lifecycle, p)
    ensures Kids(w.router.childToParent, p) == {} && FilledIn(w.router.lifecycle, p) == 0
            && !CompletedIn(w.router.lifecycle, p)
    ensures Owed(w.router.childToParent, w.streams, p) == 0
  {
    forall c | c in Kids(w.router.childToParent, p) ensures false {}
    assert Kids(w.router.childToParent, p) == {};
    NothingFilled(w.router.lifecycle, p);
  }

  lemma SentChildren(w: World, e: Event, maxReroutes: int, parent: Parent)
    requires e.Report? ==> e.child in w.streams && w.streams[e.child].events != []
    requires !e.GiveUp?
    requires RouterAfter(w, e, maxReroutes).sent ==
             w.router.sent + ChildOrders(parent, w.router.nextChild, e.allocations)
    ensures NewChildren(w, e, maxReroutes) == ChildOrders(parent, w.router.nextChild, e.allocations)
  {}

  // Routing children to one parent leaves the books of every other parent as they are.
  lemma RoutingKeeps(w: World, e: Event, s: Setting, parent: Parent, p: int)
    requires Shape(w) && !e.GiveUp?
    requires Answered(ChildOrders(parent, w.router.nextChild, e.allocations), e.futures)
    ensures var children := ChildOrders(parent, w.router.nextChild, e.allocations);
            var m := WithChildren(w.router.childToParent, children, parent.parentId);
            var st := WithStreams(w.streams, children, e.futures);
            && m.Keys == st.Keys && (forall c | c in m :: c < w.router.nextChild + |children|)
            && (forall c | c in st :: StreamOk(c, st[c]))
            && (forall c | c in m ::
                  m[c] == parent.parentId || (c in w.router.childToParent && m[c] == w.router.childToParent[c]))
            && (forall c | c in w.router.childToParent ::
                  c in m && m[c] == w.router.childToParent[c] && st[c] == w.streams[c])
            && |Kids(m, p)| == |Kids(w.router.childToParent, p)| + (if parent.parentId == p then |children| else 0)
            && Owed(m, st, p) == Owed(w.router.childToParent, w.streams, p)
                                 + (if parent.parentId == p then Quantity(children) else 0)
            && 0 <= Quantity(children) && (Quantity(children) == 0 <==> children == []) && |children| <= |e.allocations|
  {
    var children := ChildOrders(parent, w.router.nextChild, e.allocations);
    ChildrenNumbered(parent, w.router.nextChild, e.allocations);
    PutChildren(w.router.childToParent, w.streams, children, w.router.nextChild, parent.parentId, e.futures, p);
    PutChildrenKeeps(w.router.childToParent, w.streams, children, w.router.nextChild, parent.parentId, e.futures);
    QuantityPositive(children, w.router.nextChild);
  }

  lemma {:induction false} QuantityPositive(children: seq<ChildOrder>, next: int)
    requires Numbered(children, next)
    ensures 0 <= Quantity(children) && (Quantity(children) == 0 <==> children == [])
  {
    if children != [] { QuantityPositive(children[..|children| - 1], next); }
  }

  lemma ArriveKeeps(w: World, e: Event, s: Setting, p: int)
    requires Good(w, s) && Bounded(w, e, s) && e.Arrive?
    ensures var w' := Next(w, e, s.maxReroutes); Shape(w') && ClientOk(w', s) && (Alive(w', p) ==> Live(w', p, s))
  {
    hide StreamOk, Kids, Owed, ChildOrders, WithChildren, WithStreams, Quantity, DecidedIn, CompletedIn, FilledIn,
        LogOk, Answered;
    var parent, log := NewParent(e.req), w.router.lifecycle;
    var d := Decision(e.req.orderId, e.req.quantity);
    SentChildren(w, e, s.maxReroutes, parent);
    RoutingKeeps(w, e, s, parent, p);
    RoutingKeeps(w, e, s, parent, parent.parentId);
    forall q ensures (DecidedIn(log, q) ==> DecidedIn(log + [d], q)) { LogGrows(log, d, q); }
    LogGrows(log, d, p);
    LogGrows(log, d, parent.parentId);
    UnseenParent(w, parent.parentId);
    assert Alive(w, p) ==> Live(w, p, s);
    assert (log + [d])[|log|] == d;
  }

  lemma TryAgainKeeps(w: World, e: Event, s: Setting, p: int)
    requires Good(w, s) && Bounded(w, e, s) && e.TryAgain?
    ensures var w' := Next(w, e, s.maxReroutes); Shape(w') && ClientOk(w', s) && (Alive(w', p) ==> Live(w', p, s))
  {
    hide StreamOk, Kids, Owed, ChildOrders, WithChildren, WithStreams, Quantity, DecidedIn, CompletedIn, FilledIn,
        LogOk, Answered;
    var q := w.client.parentId;
    assert Live(w, q, s);
    var parent := w.router.active[q];
    assert w.router.active[q := parent] == w.router.active;
    SentChildren(w, e, s.maxReroutes, parent);
    RoutingKeeps(w, e, s, parent, p);
    RoutingKeeps(w, e, s, parent, q);
    assert Alive(w, p) ==> Live(w, p, s);
    NoKids(w, q);
  }

  lemma NoKids(w: World, p: int)
    requires w.router.childToParent.Keys == w.streams.Keys
    ensures Kids(w.router.childToParent, p) == {} ==> Owed(w.router.childToParent, w.streams, p) == 0
  {}

  lemma GiveUpKeeps(w: World, e: Event, s: Setting, p: int)
    requires Good(w, s) && Bounded(w, e, s) && e.GiveUp?
    ensures var w' := Next(w, e, s.maxReroutes); Shape(w') && ClientOk(w', s) && (Alive(w', p) ==> Live(w', p, s))
  {
    hide StreamOk, Kids, Owed, DecidedIn, CompletedIn, FilledIn, LogOk;
    var q, log := w.client.parentId, w.router.lifecycle;
    var d := Completion(q, 0, true);
    forall x ensures (DecidedIn(log, x) ==> DecidedIn(log + [d], x)) { LogGrows(log, d, x); }
    LogGrows(log, d, p);
    LogGrows(log, d, q);
    assert Alive(w, p) ==> Live(w, p, s);
  }

  lemma PartialKeeps(w: World, e: Event, s: Setting, p: int)
    requires Good(w, s) && Bounded(w, e, s) && e.Report? && w.streams[e.child].events[0].status == PARTIAL
    ensures var w' := Next(w, e, s.maxReroutes); Shape(w') && ClientOk(w', s) && (Alive(w', p) ==> Live(w', p, s))
  {
    hide Kids, Owed, DecidedIn, CompletedIn, FilledIn, LogOk;
    var c, log := e.child, w.router.lifecycle;
    assert StreamOk(c, w.streams[c]);
    var fill, q := w.streams[c].events[0], w.router.childToParent[c];
    var d := Filled(q, fill.filled);
    forall x ensures (DecidedIn(log, x) ==> DecidedIn(log + [d], x)) { LogGrows(log, d, x); }
    LogGrows(log, d, p);
    LogGrows(log, d, q);
    assert w.client.Trying? ==> w.client.parentId != q by { KidIs(w, c); }
    if w.client.Trying? { LogGrows(log, d, w.client.parentId); }
    assert Alive(w, p) ==> Live(w, p, s);
    var left := Stream(fill.remaining, w.streams[c].events[1..]);
    ShrinkChild(w.router.childToParent, w.streams, c, left, p);
    KidOwes(w.router.childToParent, w.streams[c := left], c);
  }

  // A child in flight owes something, so its parent's children do.
  lemma KidOwes(m: map<int, int>, streams: map<int, Stream>, c: int)
    requires m.Keys == streams.Keys && c in m && forall x | x in streams :: 0 < streams[x].left
    ensures 0 < Owed(m, streams, m[c])
  {
    TotalOfSubset(Lefts(streams), {c}, Kids(m, m[c]));
    TotalAdd(Lefts(streams), {}, c);
    assert {} + {c} == {c};
  }

  lemma OwedNonNegative(m: map<int, int>, streams: map<int, Stream>, p: int)
    requires m.Keys == streams.Keys && forall x | x in streams :: 0 < streams[x].left
    ensures 0 <= Owed(m, streams, p)
  {
    TotalNonNegative(Lefts(streams), Kids(m, p));
  }

  lemma KidIs(w: World, c: int)
    requires c in w.router.childToParent
    ensures Kids(w.router.childToParent, w.router.childToParent[c]) != {}
  {
    assert c in Kids(w.router.childToParent, w.router.childToParent[c]);
  }

  lemma StreamHead(c: int, stream: Stream)
    requires StreamOk(c, stream)
    ensures stream.events != [] && stream.events[0].childId == c
    ensures var fill := stream.events[0];
            0 <= fill.filled && 0 <= fill.remaining && fill.filled + fill.remaining == stream.left
  {}

  // The parent record after a terminal report of one of its children, before it is kept or given up.
  function CountedParent(w: World, child: int): Parent
    requires child in w.streams && w.streams[child].events != [] && child in w.router.childToParent
  {
    var fill, before := w.streams[child].events[0], Lookup(w.router, w.router.childToParent[child]);
    Counted(before.(filledQty := before.filledQty + fill.filled), fill)
  }

  // The children of a terminal report, and the maps they leave.
  lemma TerminalChildren(w: World, e: Event, s: Setting, p: int)
    requires Shape(w) && Bounded(w, e, s) && e.Report? && w.streams[e.child].events[0].status != PARTIAL
    ensures var fill, parent, w' := w.streams[e.child].events[0], CountedParent(w, e.child), Next(w, e, s.maxReroutes);
            var m, m', q := w.router.childToParent, w'.router.childToParent, w.router.childToParent[e.child];
            var children := NewChildren(w, e, s.maxReroutes);
            && StreamOk(e.child, w.streams[e.child])
            && children == (if Reroutes(parent, fill, s.maxReroutes)
                            then ChildOrders(parent, w.router.nextChild, e.allocations) else [])
            && m'.Keys == w'.streams.Keys
            && (forall c | c in m' ::
                  c < w'.router.nextChild && (m'[c] == parent.parentId || (c in m && m'[c] == m[c])))
            && (forall c | c in w'.streams :: StreamOk(c, w'.streams[c]))
            && |Kids(m', p)| == |Kids(m, p)| + (if parent.parentId == p then |children| else 0)
                                - (if q == p then 1 else 0)
            && Owed(m', w'.streams, p) == Owed(m, w.streams, p)
                                          + (if parent.parentId == p then Quantity(children) else 0)
                                          - (if q == p then w.streams[e.child].left else 0)
            && 0 <= Quantity(children) && (Quantity(children) == 0 <==> children == []) && |children| <= s.venues
  {
    hide Kids, Owed, ChildOrders, DecidedIn, CompletedIn, FilledIn, LogOk, OrderStream;
    var c := e.child;
    StreamHead(c, w.streams[c]);
    var fill, parent := w.streams[c].events[0], CountedParent(w, c);
    if Reroutes(parent, fill, s.maxReroutes) {
      SentChildren(w, e, s.maxReroutes, parent);
      RoutingKeeps(w, e, s, parent, p);
      var children := ChildOrders(parent, w.router.nextChild, e.allocations);
      DropChild(WithChildren(w.router.childToParent, children, parent.parentId),
                WithStreams(w.streams, children, e.futures), c, p);
    } else {
      assert NewChildren(w, e, s.maxReroutes) == [];
      DropChild(w.router.childToParent, w.streams, c, p);
    }
  }

  // What a terminal report adds to the lifecycle, and whether it ends the parent.
  lemma TerminalLog(w: World, e: Event, s: Setting, p: int)
    requires Shape(w) && Bounded(w, e, s) && e.Report? && w.streams[e.child].events[0].status != PARTIAL
    ensures var fill, parent, w' := w.streams[e.child].events[0], CountedParent(w, e.child), Next(w, e, s.maxReroutes);
            var q, log, log' := w.router.childToParent[e.child], w.router.lifecycle, w'.router.lifecycle;
            var timedOut := fill.remaining > 0 && NewChildren(w, e, s.maxReroutes) == [];
            var finished := timedOut || parent.filledQty == parent.totalQty;
            && log' == log + [Filled(q, fill.filled)]
                 + (if finished then [Completion(q, parent.filledQty, timedOut)] else [])
            && (DecidedIn(log', p) <==> DecidedIn(log, p)) && (LogOk(log) ==> LogOk(log'))
            && (CompletedIn(log', p) <==> CompletedIn(log, p) || (finished && p == q))
            && FilledIn(log', p) == FilledIn(log, p) + (if p == q then fill.filled else 0)
            && w'.router.active == if finished then w.router.active[q := parent] - {q} else w.router.active[q := parent]
  {
    hide Kids, Owed, ChildOrders, DecidedIn, CompletedIn, FilledIn, LogOk, OrderStream, WithChildren;
    TerminalChildren(w, e, s, p);
    StreamHead(e.child, w.streams[e.child]);
    var fill, parent := w.streams[e.child].events[0], CountedParent(w, e.child);
    var q, log := w.router.childToParent[e.child], w.router.lifecycle;
    var d := Filled(q, fill.filled);
    LogGrows(log, d, p);
    LogGrows(log, d, q);
    var timedOut := fill.remaining > 0 && NewChildren(w, e, s.maxReroutes) == [];
    LogGrows(log + [d], Completion(q, parent.filledQty, timedOut), p);
  }

  lemma TerminalKeepsLive(w: World, e: Event, s: Setting, p: int)
    requires Good(w, s) && Bounded(w, e, s) && e.Report? && w.streams[e.child].events[0].status != PARTIAL
    ensures var w' := Next(w, e, s.maxReroutes);
            w'.router.childToParent.Keys == w'.streams.Keys && (Alive(w', p) ==> Alive(w, p) && Live(w', p, s))
  {
    hide Kids, Owed, ChildOrders, DecidedIn, CompletedIn, FilledIn, LogOk, OrderStream, NewChildren, Quantity, StreamOk,
        RouterAfter, Answered;
    TerminalChildren(w, e, s, p);
    TerminalLog(w, e, s, p);
    StreamHead(e.child, w.streams[e.child]);
    if Alive(w, p) { assert Live(w, p, s); }
    var w' := Next(w, e, s.maxReroutes);
    LeftsPositive(w'.streams);
    OwedNonNegative(w'.router.childToParent, w'.streams, p);
  }

  lemma LeftsPositive(streams: map<int, Stream>)
    requires forall c | c in streams :: StreamOk(c, streams[c])
    ensures forall c | c in streams :: 0 < streams[c].left
  {}

  lemma TerminalKeepsShape(w: World, e: Event, s: Setting)
    requires Good(w, s) && Bounded(w, e, s) && e.Report? && w.streams[e.child].events[0].status != PARTIAL
    ensures var w' := Next(w, e, s.maxReroutes); Shape(w') && ClientOk(w', s)
  {
    hide Owed, ChildOrders, DecidedIn, CompletedIn, FilledIn, LogOk, OrderStream, NewChildren, Quantity, StreamOk,
        RouterAfter, Answered;
    TerminalChildren(w, e, s, 0);
    StreamHead(e.child, w.streams[e.child]);
    var w', q, log := Next(w, e, s.maxReroutes), w.router.childToParent[e.child], w.router.lifecycle;
    forall x ensures DecidedIn(w'.router.lifecycle, x) <==> DecidedIn(log, x) { TerminalLog(w, e, s, x); }
    TerminalLog(w, e, s, q);
    if w.client.Trying? {
      var t := w.client.parentId;
      KidIs(w, e.child);
      TerminalChildren(w, e, s, t);
      TerminalLog(w, e, s, t);
      assert Live(w, t, s);
      NoneLeft(w'.router.childToParent, t);
    }
  }

  lemma NoneLeft(m: map<int, int>, p: int)
    ensures |Kids(m, p)| == 0 ==> Kids(m, p) == {}
  {}

  // Whatever happens, the books of every live parent stay in order.
  lemma EventKeepsGood(w: World, e: Event, s: Setting)
    requires Good(w, s) && Bounded(w, e, s)
    ensures Good(Next(w, e, s.maxReroutes), s)
  {
    hide ClientOk, Live, Alive, Next, Answered, NewChildren, WillReroute, RouterAfter, StreamOk, DecidedIn, LogOk;
    EventKeeps(w, e, s, 0);
    forall p | Alive(Next(w, e, s.maxReroutes), p) ensures Live(Next(w, e, s.maxReroutes), p, s) {
      EventKeeps(w, e, s, p);
    }
  }

  lemma EventKeeps(w: World, e: Event, s: Setting, p: int)
    requires Good(w, s) && Bounded(w, e, s)
    ensures var w' := Next(w, e, s.maxReroutes); Shape(w') && ClientOk(w', s) && (Alive(w', p) ==> Live(w', p, s))
  {
    hide Shape, ClientOk, Live, Alive, Next, Answered, NewChildren, WillReroute, RouterAfter;
    match e
    case Arrive(_, _, _) => ArriveKeeps(w, e, s, p);
    case TryAgain(_, _) => TryAgainKeeps(w, e, s, p);
    case GiveUp => GiveUpKeeps(w, e, s, p);
    case Report(c, _, _) =>
      if w.streams[c].events[0].status == PARTIAL {
        PartialKeeps(w, e, s, p);
      } else {
        TerminalKeepsShape(w, e, s);
        TerminalKeepsLive(w, e, s, p);
      }
  }

  // What a parent has filled and what its children still owe.
  ghost function Covered(w: World, p: int): int
    requires p in w.router.active && w.router.childToParent.Keys <= w.streams.Keys
  {
    w.router.active[p].filledQty + Owed(w.router.childToParent, w.streams, p)
  }

  ghost predicate Short(w: World, p: int)
    requires w.router.childToParent.Keys <= w.streams.Keys
  {
    p in w.router.active && Covered(w, p) < w.router.active[p].totalQty
  }

  // The lifecycle only grows, so a parent decided before was alive before.
  lemma LogKeeps(w: World, e: Event, maxReroutes: int)
    requires Timely(w, e)
    ensures w.router.lifecycle <= Next(w, e, maxReroutes).router.lifecycle
  {
    hide ChildOrders, WithChildren;
  }

  lemma PrefixTells(log: seq<LifecycleEvent>, more: seq<LifecycleEvent>, p: int)
    requires log <= more
    ensures DecidedIn(log, p) ==> DecidedIn(more, p)
    ensures CompletedIn(log, p) ==> CompletedIn(more, p)
  {
    if DecidedIn(log, p) {
      var i :| 0 <= i < |log| && log[i].Decision? && log[i].parentId == p;
      assert more[i] == log[i];
    }
    if CompletedIn(log, p) {
      var i :| 0 <= i < |log| && log[i].Completion? && log[i].parentId == p;
      assert more[i] == log[i];
    }
  }

  // A parent a quantity is split for has been decided on.
  lemma SplitIsDecided(w: World, e: Event, s: Setting)
    requires Good(w, s) && Timely(w, e) && Splits(w, e, s.maxReroutes) && ParentOf(w, e) != 0
    ensures DecidedIn(Next(w, e, s.maxReroutes).router.lifecycle, ParentOf(w, e))
  {
    hide ChildOrders, DecidedIn, WithChildren;
    var p, log := ParentOf(w, e), w.router.lifecycle;
    LogKeeps(w, e, s.maxReroutes);
    PrefixTells(log, Next(w, e, s.maxReroutes).router.lifecycle, p);
    if e.Arrive? { LogGrows(log, Decision(p, e.req.quantity), p); }
  }

  // A split that places a part leaves the parent short ...
  lemma PartLeavesShort(w: World, e: Event, s: Setting, p: int)
    requires Good(w, s) && Bounded(w, e, s) && Splits(w, e, s.maxReroutes) && ParentOf(w, e) == p
    requires 0 < Quantity(NewChildren(w, e, s.maxReroutes)) < Asked(w, e) && Alive(Next(w, e, s.maxReroutes), p)
    ensures var w' := Next(w, e, s.maxReroutes);
            Settled(w', p) && w'.router.childToParent.Keys == w'.streams.Keys && Short(w', p)
  {
    hide Kids, Owed, ChildOrders, DecidedIn, CompletedIn, FilledIn, LogOk, OrderStream, Quantity, StreamOk,
        WithChildren;
    hide WithStreams, Answered;
    match e
    case Arrive(req, _, _) =>
      UnseenParent(w, p);
      SentChildren(w, e, s.maxReroutes, NewParent(req));
      RoutingKeeps(w, e, s, NewParent(req), p);
    case TryAgain(_, _) =>
      assert Live(w, p, s);
      NoKids(w, p);
      SentChildren(w, e, s.maxReroutes, w.router.active[p]);
      RoutingKeeps(w, e, s, w.router.active[p], p);
    case Report(c, _, _) =>
      StreamHead(c, w.streams[c]);
      KidIs(w, c);
      TerminalChildren(w, e, s, p);
      TerminalLog(w, e, s, p);
      assert Live(w, p, s);
  }

  // ... and it stays short for as long as it lives.
  lemma ShortStays(w: World, e: Event, s: Setting, p: int)
    requires Good(w, s) && Bounded(w, e, s) && Alive(w, p) && Settled(w, p) && Short(w, p)
    requires Alive(Next(w, e, s.maxReroutes), p)
    ensures var w' := Next(w, e, s.maxReroutes);
            Settled(w', p) && w'.router.childToParent.Keys == w'.streams.Keys && Short(w', p)
  {
    hide Kids, Owed, ChildOrders, CompletedIn, FilledIn, LogOk, OrderStream, Quantity, StreamOk, WithChildren;
    hide WithStreams, Answered;
    assert Live(w, p, s);
    match e
    case Arrive(req, _, _) =>
      SentChildren(w, e, s.maxReroutes, NewParent(req));
      RoutingKeeps(w, e, s, NewParent(req), p);
    case TryAgain(_, _) =>
      var q := w.client.parentId;
      assert Live(w, q, s);
      SentChildren(w, e, s.maxReroutes, w.router.active[q]);
      RoutingKeeps(w, e, s, w.router.active[q], p);
    case GiveUp =>
    case Report(c, _, _) =>
      StreamHead(c, w.streams[c]);
      if w.streams[c].events[0].status != PARTIAL {
        TerminalChildren(w, e, s, p);
        TerminalLog(w, e, s, p);
      } else {
        ShrinkChild(w.router.childToParent, w.streams, c,
                    Stream(w.streams[c].events[0].remaining, w.streams[c].events[1..]), p);
      }
  }

  const START := World(RouterState(map[], map[], 1000000, [], []), Free, map[])

  ghost predicate Run(events: seq<Event>, worlds: seq<World>, s: Setting) {
    && |worlds| == |events| + 1 && worlds[0] == START
    && forall i | 0 <= i < |events| ::
         Bounded(worlds[i], events[i], s) && worlds[i + 1] == Next(worlds[i], events[i], s.maxReroutes)
  }

  // From decision to completion, what a parent has filled and what its children in flight still owe never exceed its
  // quantity, in every run.
  lemma {:induction false} EveryWorldIsGood(events: seq<Event>, worlds: seq<World>, s: Setting, i: nat)
    requires Run(events, worlds, s) && i < |worlds|
    ensures Good(worlds[i], s)
  {
    hide Good, Bounded, Next;
    if i == 0 {
      StartIsGood(s);
    } else {
      EveryWorldIsGood(events, worlds, s, i - 1);
      EventKeepsGood(worlds[i - 1], events[i - 1], s);
    }
  }

  lemma StartIsGood(s: Setting)
    ensures Good(START, s)
  {}

  // A live parent none of whose splits places a part has a child in flight once the client loop is done with it.
  lemma LiveParentHasChild(w: World, p: int, s: Setting)
    requires Good(w, s) && p in s.whole && Alive(w, p) && Settled(w, p)
    ensures Kids(w.router.childToParent, p) != {}
  {
    assert Live(w, p, s);
    NoKids(w, p);
  }

  // A completion reports exactly what was filled, which is the whole order unless it timed out.
  lemma CompletionReports(w: World, e: Event, s: Setting, p: int)
    requires Good(w, s) && Bounded(w, e, s) && Alive(w, p) && CompletedIn(Next(w, e, s.maxReroutes).router.lifecycle, p)
    ensures p in w.router.active
    ensures var log, total := Next(w, e, s.maxReroutes).router.lifecycle, w.router.active[p].totalQty;
            && log != [] && log[|log| - 1] == Completion(p, FilledIn(log, p), FilledIn(log, p) < total)
            && 0 <= FilledIn(log, p) <= total && Decision(p, total) in log
  {
    hide Kids, ChildOrders, DecidedIn, CompletedIn, FilledIn, LogOk, OrderStream, Quantity, StreamOk, Answered,
        WillReroute, WithChildren;
    var log := w.router.lifecycle;
    assert Live(w, p, s);
    match e
    case Arrive(req, _, _) => LogGrows(log, Decision(req.orderId, req.quantity), p);
    case TryAgain(_, _) =>
    case GiveUp => LogGrows(log, Completion(w.client.parentId, 0, true), p);
    case Report(c, _, _) =>
      var q, fill := w.router.childToParent[c], w.streams[c].events[0];
      StreamHead(c, w.streams[c]);
      if fill.status == PARTIAL {
        LogGrows(log, Filled(q, fill.filled), p);
      } else {
        TerminalLog(w, e, s, p);
        ChildWithinOwed(w, c);
      }
  }

  lemma ChildWithinOwed(w: World, c: int)
    requires Shape(w) && c in w.streams
    ensures w.streams[c].left <= Owed(w.router.childToParent, w.streams, w.router.childToParent[c])
  {
    LeftsPositive(w.streams);
    DropChild(w.router.childToParent, w.streams, c, w.router.childToParent[c]);
    OwedNonNegative(w.router.childToParent - {c}, w.streams - {c}, w.router.childToParent[c]);
  }

  // ---- Completion follows finitely many terminal reports ----

  function ReroutesLeft(parent: Parent, s: Setting): nat {
    if parent.rerouteCount < s.maxReroutes then s.maxReroutes - parent.rerouteCount else 0
  }

  // Children in flight, and those that the reroutes left could still send.
  ghost function Measure(w: World, p: int, s: Setting): int
    requires p in w.router.active
  {
    |Kids(w.router.childToParent, p)| + s.venues * ReroutesLeft(w.router.active[p], s)
  }

  predicate IsTerminalOf(w: World, e: Event, p: int) {
    && e.Report? && e.child in w.streams && w.streams[e.child].events != []
       && w.streams[e.child].events[0].status != PARTIAL
    && e.child in w.router.childToParent && w.router.childToParent[e.child] == p
  }

  lemma OneRerouteLess(venues: nat, left: nat)
    requires 0 < left
    ensures venues * (left - 1) + venues == venues * left
  {}

  // A terminal report of a child lowers the measure of a parent that stays alive; nothing else raises it.
  lemma MeasureFalls(w: World, e: Event, s: Setting, p: int)
    requires Good(w, s) && Bounded(w, e, s) && Alive(w, p) && Settled(w, p) && Alive(Next(w, e, s.maxReroutes), p)
    ensures var w' := Next(w, e, s.maxReroutes);
            && p in w.router.active && p in w'.router.active && Settled(w', p)
            && Measure(w', p, s) + (if IsTerminalOf(w, e, p) then 1 else 0) <= Measure(w, p, s)
  {
    hide Kids, Owed, ChildOrders, CompletedIn, FilledIn, LogOk, OrderStream, Quantity, StreamOk, WillReroute,
        WithChildren, WithStreams;
    var log := w.router.lifecycle;
    assert Live(w, p, s);
    match e
    case Arrive(req, _, _) =>
      SentChildren(w, e, s.maxReroutes, NewParent(req));
      RoutingKeeps(w, e, s, NewParent(req), p);
    case TryAgain(_, _) =>
      var q := w.client.parentId;
      assert Live(w, q, s);
      SentChildren(w, e, s.maxReroutes, w.router.active[q]);
      RoutingKeeps(w, e, s, w.router.active[q], p);
    case GiveUp =>
    case Report(c, _, _) =>
      StreamHead(c, w.streams[c]);
      if w.streams[c].events[0].status != PARTIAL {
        TerminalMeasure(w, e, s, p);
      }
  }

  lemma TerminalMeasure(w: World, e: Event, s: Setting, p: int)
    requires Good(w, s) && Bounded(w, e, s) && Alive(w, p) && Alive(Next(w, e, s.maxReroutes), p)
    requires e.Report? && w.streams[e.child].events[0].status != PARTIAL
    ensures var w' := Next(w, e, s.maxReroutes);
            && p in w.router.active && p in w'.router.active
            && Measure(w', p, s) + (if IsTerminalOf(w, e, p) then 1 else 0) <= Measure(w, p, s)
  {
    hide Kids, Owed, ChildOrders, DecidedIn, CompletedIn, FilledIn, LogOk, OrderStream, Quantity, StreamOk, WillReroute,
        RouterAfter, NewChildren, Answered;
    assert Live(w, p, s);
    StreamHead(e.child, w.streams[e.child]);
    TerminalChildren(w, e, s, p);
    TerminalLog(w, e, s, p);
    var left := ReroutesLeft(w.router.active[p], s);
    if w.router.childToParent[e.child] == p && 0 < left { OneRerouteLess(s.venues, left); }
  }

  // Terminal reports of a parent's children among events i .. j - 1.
  function Terminals(events: seq<Event>, worlds: seq<World>, p: int, i: nat, j: nat): nat
    requires i <= j <= |events| < |worlds|
    decreases j
  {
    if i == j then 0
    else Terminals(events, worlds, p, i, j - 1) + if IsTerminalOf(worlds[j - 1], events[j - 1], p) then 1 else 0
  }

  ghost predicate AliveThroughout(worlds: seq<World>, p: int, i: nat, j: nat)
    requires j < |worlds|
  {
    forall k | i <= k <= j :: Alive(worlds[k], p)
  }

  lemma {:induction false} TerminalsAreCounted(events: seq<Event>, worlds: seq<World>, s: Setting, p: int, i: nat,
                                               j: nat)
    requires Run(events, worlds, s) && i <= j <= |events| && AliveThroughout(worlds, p, i, j) && Settled(worlds[i], p)
    ensures p in worlds[i].router.active && p in worlds[j].router.active && Settled(worlds[j], p)
    ensures Measure(worlds[j], p, s) + Terminals(events, worlds, p, i, j) <= Measure(worlds[i], p, s)
  {
    hide Good, Next, Measure, IsTerminalOf, Alive, Live, NewChildren, Answered, Quantity, WillReroute, Asked, DecidedIn;
    EveryWorldIsGood(events, worlds, s, i);
    AliveIsActive(worlds[i], p, s);
    if i < j {
      TerminalsAreCounted(events, worlds, s, p, i, j - 1);
      EveryWorldIsGood(events, worlds, s, j - 1);
      assert Alive(worlds[j - 1], p) && Alive(worlds[j], p)
             && worlds[j] == Next(worlds[j - 1], events[j - 1], s.maxReroutes);
      MeasureFalls(worlds[j - 1], events[j - 1], s, p);
    }
  }

  lemma AliveIsActive(w: World, p: int, s: Setting)
    requires Good(w, s) && Alive(w, p)
    ensures p in w.router.active
  {
    assert Live(w, p, s);
  }

  // What the client loop's routing leaves: at most one child a venue, and all reroutes.
  lemma FirstMeasure(w: World, e: Event, s: Setting)
    requires Good(w, s) && Bounded(w, e, s) && (e.Arrive? || e.TryAgain?) && 0 <= s.maxReroutes
    ensures var w', p := Next(w, e, s.maxReroutes), ParentOf(w, e);
            && Alive(w', p) && p in w'.router.active && Measure(w', p, s) <= s.venues + s.venues * s.maxReroutes
  {
    hide Kids, Owed, ChildOrders, CompletedIn, DecidedIn, FilledIn, LogOk, OrderStream, Quantity, StreamOk,
        WithChildren, WithStreams;
    var p := ParentOf(w, e);
    if e.Arrive? {
      UnseenParent(w, p);
      LogGrows(w.router.lifecycle, Decision(p, e.req.quantity), p);
      SentChildren(w, e, s.maxReroutes, NewParent(e.req));
      RoutingKeeps(w, e, s, NewParent(e.req), p);
    } else {
      assert Live(w, p, s);
      SentChildren(w, e, s.maxReroutes, w.router.active[p]);
      RoutingKeeps(w, e, s, w.router.active[p], p);
    }
  }

  // A parent none of whose splits places a part is completed by the time V + V * R terminal reports of its children
  // have come in after it was first routed, V being the venues and R the reroutes allowed: while it is alive there
  // were fewer.
  lemma BooksComplete(events: seq<Event>, worlds: seq<World>, s: Setting, p: int, i: nat, j: nat)
    requires Run(events, worlds, s) && p in s.whole && 0 <= s.maxReroutes && i < j <= |events|
    requires (events[i].Arrive? || events[i].TryAgain?) && ParentOf(worlds[i], events[i]) == p
    requires Settled(worlds[i + 1], p) && AliveThroughout(worlds, p, i + 1, j)
    ensures Terminals(events, worlds, p, i + 1, j) < s.venues + s.venues * s.maxReroutes
  {
    hide Bounded, Next, Shape, Live, ParentOf;
    EveryWorldIsGood(events, worlds, s, i);
    EveryWorldIsGood(events, worlds, s, i + 1);
    EveryWorldIsGood(events, worlds, s, j);
    FirstMeasure(worlds[i], events[i], s);
    TerminalsAreCounted(events, worlds, s, p, i + 1, j);
    LiveParentHasChild(worlds[j], p, s);
    SomeKid(worlds[j].router.childToParent, p);
  }

  lemma SomeKid(m: map<int, int>, p: int)
    ensures Kids(m, p) != {} ==> 1 <= |Kids(m, p)|
  {}

  // ---- The record of a parent from its order on ----

  // A terminal report of one of the parent's children that leaves something.
  predicate LeavesSomething(w: World, e: Event, p: int) {
    IsTerminalOf(w, e, p) && w.streams[e.child].events[0].remaining > 0
  }

  // What an arrival writes down.
  lemma ArriveRecord(w: World, e: Event, maxReroutes: int)
    requires Timely(w, e) && e.Arrive?
    ensures var r := Next(w, e, maxReroutes).router;
            && e.req.orderId in r.active
            && var parent := r.active[e.req.orderId];
               && parent.parentId == e.req.orderId && parent.side == e.req.side && parent.price == e.req.price
               && parent.totalQty == e.req.quantity && parent.filledQty == 0 && parent.rerouteCount == 0
    ensures DecidedIn(Next(w, e, maxReroutes).router.lifecycle, e.req.orderId)
  {
    hide ChildOrders, WithChildren, DecidedIn;
    LogGrows(w.router.lifecycle, Decision(e.req.orderId, e.req.quantity), e.req.orderId);
  }

  // No event changes the order a live parent stands for, and exactly the reports that leave something are counted.
  lemma RecordKept(w: World, e: Event, s: Setting, p: int)
    requires Good(w, s) && Bounded(w, e, s) && Alive(w, p) && Alive(Next(w, e, s.maxReroutes), p)
    ensures var w' := Next(w, e, s.maxReroutes);
            && p in w.router.active && p in w'.router.active
            && var before, after := w.router.active[p], w'.router.active[p];
               && after.side == before.side && after.price == before.price && after.totalQty == before.totalQty
               && after.rerouteCount == before.rerouteCount + if LeavesSomething(w, e, p) then 1 else 0
  {
    hide Kids, Owed, ChildOrders, DecidedIn, CompletedIn, FilledIn, LogOk, OrderStream, Quantity, StreamOk;
    hide WithChildren, WithStreams, Answered;
    assert Live(w, p, s);
    match e
    case Arrive(_, _, _) =>
    case TryAgain(_, _) => assert Live(w, w.client.parentId, s);
    case GiveUp => LogGrows(w.router.lifecycle, Completion(w.client.parentId, 0, true), p);
    case Report(c, _, _) =>
      StreamHead(c, w.streams[c]);
      if w.streams[c].events[0].status != PARTIAL { TerminalLog(w, e, s, p); }
  }

  // A parent comes alive only by its arrival.
  lemma OnlyByArrival(w: World, e: Event, s: Setting, p: int)
    requires Good(w, s) && Bounded(w, e, s) && !DecidedIn(w.router.lifecycle, p)
    requires DecidedIn(Next(w, e, s.maxReroutes).router.lifecycle, p)
    ensures e.Arrive? && e.req.orderId == p
  {
    hide Kids, Owed, ChildOrders, DecidedIn, CompletedIn, FilledIn, LogOk, OrderStream, Quantity, StreamOk;
    hide WithChildren, WithStreams, Answered;
    var log := w.router.lifecycle;
    match e
    case Arrive(req, _, _) => LogGrows(log, Decision(req.orderId, req.quantity), p);
    case TryAgain(_, _) =>
    case GiveUp => LogGrows(log, Completion(w.client.parentId, 0, true), p);
    case Report(c, _, _) =>
      StreamHead(c, w.streams[c]);
      if w.streams[c].events[0].status == PARTIAL {
        LogGrows(log, Filled(w.router.childToParent[c], w.streams[c].events[0].filled), p);
      } else {
        TerminalLog(w, e, s, p);
      }
  }

  // A report that leaves something is split exactly while the parent's count stays within the reroutes allowed.
  lemma SplitByCount(w: World, e: Event, s: Setting, p: int)
    requires Good(w, s) && Timely(w, e) && Alive(w, p) && LeavesSomething(w, e, p)
    ensures p in w.router.active
    ensures Splits(w, e, s.maxReroutes) <==> w.router.active[p].rerouteCount + 1 <= s.maxReroutes
  {
    assert Live(w, p, s);
  }

  // Whether the parent's completion is timed out: exactly when a report left something and nothing was sent for it, or
  // the client gave up.
  lemma TimedOutBecause(w: World, e: Event, s: Setting, p: int)
    requires Good(w, s) && Bounded(w, e, s) && Alive(w, p)
    ensures var log := Next(w, e, s.maxReroutes).router.lifecycle;
            CompletedIn(log, p) && log != [] && log[|log| - 1].Completion? && log[|log| - 1].timedOut <==>
            || (e.GiveUp? && w.client.parentId == p)
            || (LeavesSomething(w, e, p) && NewChildren(w, e, s.maxReroutes) == [])
  {
    hide Kids, Owed, ChildOrders, DecidedIn, CompletedIn, FilledIn, LogOk, OrderStream, Quantity, StreamOk;
    hide WithChildren, WithStreams, Answered;
    assert Live(w, p, s);
    var log := w.router.lifecycle;
    match e
    case Arrive(req, _, _) => LogGrows(log, Decision(req.orderId, req.quantity), p);
    case TryAgain(_, _) =>
    case GiveUp => LogGrows(log, Completion(w.client.parentId, 0, true), p);
    case Report(c, _, _) =>
      StreamHead(c, w.streams[c]);
      if w.streams[c].events[0].status == PARTIAL {
        LogGrows(log, Filled(w.router.childToParent[c], w.streams[c].events[0].filled), p);
      } else {
        TerminalLog(w, e, s, p);
      }
  }
}
