/** The router's handling of parent orders: registration, routing decisions and fill events.

    Each handler runs under the router's order lock, so each is one method here and one step of a run.
    What a split would allocate depends on the mirror books at that moment and comes in as a parameter. */
module Routers {
  import opened MarketTypes
  import opened Venues

  datatype Parent = Parent(parentId: int, side: Side, price: int, totalQty: int, filledQty: int, rerouteCount: int)

  // What looking up an unknown parent creates.
  const BLANK_PARENT := Parent(0, BUY, 0, 0, 0, 0)

  datatype ChildOrder = ChildOrder(id: int, venue: nat, side: Side, price: int, quantity: int)

  datatype LifecycleEvent =
    | Decision(parentId: int, quantity: int)
    | Filled(parentId: int, quantity: int)
    | Completion(parentId: int, quantity: int, timedOut: bool)

  datatype ClientRequest = ClientRequest(orderId: int, side: Side, price: int, quantity: int)

  datatype RouterState = RouterState(active: map<int, Parent>, childToParent: map<int, int>, nextChild: int,
                                     sent: seq<ChildOrder>, lifecycle: seq<LifecycleEvent>)

  // The children of a routing decision: one for every venue with a positive allocation, in order.
  function ChildOrders(parent: Parent, next: int, allocations: seq<int>): seq<ChildOrder> {
    if allocations == [] then []
    else
      var k := |allocations| - 1;
      var before := ChildOrders(parent, next, allocations[..k]);
      if allocations[k] > 0 then before + [ChildOrder(next + |before|, k, parent.side, parent.price, allocations[k])]
        else before
  }

  function Quantity(children: seq<ChildOrder>): int {
    if children == [] then 0 else Quantity(children[..|children| - 1]) + children[|children| - 1].quantity
  }

  function WithChildren(m: map<int, int>, children: seq<ChildOrder>, parentId: int): map<int, int> {
    if children == [] then m
    else WithChildren(m, children[..|children| - 1], parentId)[children[|children| - 1].id := parentId]
  }

  function Routed(r: RouterState, parent: Parent, allocations: seq<int>): RouterState {
    var children := ChildOrders(parent, r.nextChild, allocations);
    r.(childToParent := WithChildren(r.childToParent, children, parent.parentId),
       nextChild := r.nextChild + |children|, sent := r.sent + children)
  }

  function RoutedQuantity(r: RouterState, parent: Parent, allocations: seq<int>): int {
    Quantity(ChildOrders(parent, r.nextChild, allocations))
  }

  function Lookup(r: RouterState, parentId: int): Parent {
    if parentId in r.active then r.active[parentId] else BLANK_PARENT
  }

  // A terminal report that leaves something counts as a reroute.
  function Counted(parent: Parent, fill: FillEvent): Parent {
    if fill.remaining > 0 then parent.(rerouteCount := parent.rerouteCount + 1) else parent
  }

  // What is left is routed again while reroutes remain; the parent is given up when they do not, or when
  // nothing could be routed.
  predicate Reroutes(counted: Parent, fill: FillEvent, maxReroutes: int) {
    fill.remaining > 0 && counted.rerouteCount <= maxReroutes
  }

  predicate GivenUp(r: RouterState, counted: Parent, fill: FillEvent, maxReroutes: int, allocations: seq<int>) {
    fill.remaining > 0 && !(Reroutes(counted, fill, maxReroutes) && RoutedQuantity(r, counted, allocations) != 0)
  }

  // The handling of a terminal report, the fill having been added up and the reroute counted.
  function Terminated(r: RouterState, parentId: int, counted: Parent, fill: FillEvent, maxReroutes: int,
                      allocations: seq<int>): RouterState
  {
    var routed := if Reroutes(counted, fill, maxReroutes) then Routed(r, counted, allocations) else r;
    var timedOut := GivenUp(r, counted, fill, maxReroutes, allocations);
    var erased := routed.(childToParent := routed.childToParent - {fill.childId});
    if timedOut || counted.filledQty == counted.totalQty then
      erased.(active := r.active - {parentId},
              lifecycle := r.lifecycle + [Completion(parentId, counted.filledQty, timedOut)])
    else
      erased
  }

  function FillProcessed(r: RouterState, fill: FillEvent, maxReroutes: int, allocations: seq<int>): RouterState {
    if fill.childId !in r.childToParent then r
    else
      var parentId := r.childToParent[fill.childId];
      var before := Lookup(r, parentId);
      var parent := before.(filledQty := before.filledQty + fill.filled);
      var counted := if fill.status == PARTIAL then parent else Counted(parent, fill);
      var logged := r.(active := r.active[parentId := counted],
                       lifecycle := r.lifecycle + [Filled(parentId, fill.filled)]);
      if fill.status == PARTIAL then logged
      else Terminated(logged, parentId, counted, fill, maxReroutes, allocations)
  }

  function NewParent(req: ClientRequest): Parent {
    Parent(req.orderId, req.side, req.price, req.quantity, 0, 0)
  }

  // The first attempt registers the parent and routes it.
  function Registered(r: RouterState, req: ClientRequest, allocations: seq<int>): RouterState {
    Routed(r.(active := r.active[req.orderId := NewParent(req)],
              lifecycle := r.lifecycle + [Decision(req.orderId, req.quantity)]),
           NewParent(req), allocations)
  }

  // A later attempt only routes; its lookup would create a missing parent.
  function Retried(r: RouterState, parentId: int, allocations: seq<int>): RouterState {
    var parent := Lookup(r, parentId);
    Routed(r.(active := r.active[parentId := parent]), parent, allocations)
  }

  function Abandoned(r: RouterState, parentId: int): RouterState {
    r.(active := r.active - {parentId}, lifecycle := r.lifecycle + [Completion(parentId, 0, true)])
  }

  class SmartOrderRouter {
    const maxRerouteAttempts: int
    var activeParentOrders: map<int, Parent>
    var childToParent: map<int, int>
    var nextChild: int
    var sent: seq<ChildOrder>
    var lifecycle: seq<LifecycleEvent>

    function State(): RouterState
      reads this
    {
      RouterState(activeParentOrders, childToParent, nextChild, sent, lifecycle)
    }

    constructor (maxRerouteAttempts: int)
      ensures this.maxRerouteAttempts == maxRerouteAttempts && State() == RouterState(map[], map[], 1000000, [], [])
    {
      this.maxRerouteAttempts := maxRerouteAttempts;
      activeParentOrders, childToParent, nextChild, sent, lifecycle := map[], map[], 1000000, [], [];
    }

    // Sends a child order to every venue with a positive allocation.
    method ExecuteRoutingDecision(parent: Parent, allocations: seq<int>) returns (totalRouted: int)
      modifies this`childToParent, this`nextChild, this`sent
      ensures State() == Routed(old(State()), parent, allocations)
      ensures totalRouted == RoutedQuantity(old(State()), parent, allocations)
    {
      totalRouted := 0;
      ghost var r := State();
      for i := 0 to |allocations|
        invariant State() == Routed(r, parent, allocations[..i])
        invariant totalRouted == RoutedQuantity(r, parent, allocations[..i])
      {
        assert allocations[..i + 1][..i] == allocations[..i];
        if allocations[i] > 0 {
          totalRouted := totalRouted + allocations[i];
          childToParent := childToParent[nextChild := parent.parentId];
          sent := sent + [ChildOrder(nextChild, i, parent.side, parent.price, allocations[i])];
          nextChild := nextChild + 1;
        }
      }
      assert allocations[..|allocations|] == allocations;
    }

    method ProcessFill(fill: FillEvent, allocations: seq<int>)
      modifies this
      ensures State() == FillProcessed(old(State()), fill, maxRerouteAttempts, allocations)
    {
      if fill.childId !in childToParent {
        return;
      }
      var parentId := childToParent[fill.childId];
      var parent := if parentId in activeParentOrders then activeParentOrders[parentId] else BLANK_PARENT;
      parent := parent.(filledQty := parent.filledQty + fill.filled);
      activeParentOrders := activeParentOrders[parentId := parent];
      lifecycle := lifecycle + [Filled(parentId, fill.filled)];
      if fill.status == PARTIAL {
        return;
      }
      var orderFinished, timedOut := false, false;
      if fill.remaining > 0 {
        parent := parent.(rerouteCount := parent.rerouteCount + 1);
        activeParentOrders := activeParentOrders[parentId := parent];
        assert activeParentOrders == old(activeParentOrders)[parentId := parent];
        if parent.rerouteCount <= maxRerouteAttempts {
          var routed := ExecuteRoutingDecision(parent, allocations);
          if routed == 0 {
            orderFinished, timedOut := true, true;
          }
        } else {
          orderFinished, timedOut := true, true;
        }
      }
      if parent.filledQty == parent.totalQty {
        orderFinished := true;
      }
      if orderFinished {
        lifecycle := lifecycle + [Completion(parentId, parent.filledQty, timedOut)];
        activeParentOrders := activeParentOrders - {parentId};
      }
      childToParent := childToParent - {fill.childId};
    }

    // The first of the routing attempts for a client order.
    method Register(req: ClientRequest, allocations: seq<int>) returns (routed: int)
      modifies this
      ensures State() == Registered(old(State()), req, allocations)
      ensures routed == RoutedQuantity(old(State()), NewParent(req), allocations)
    {
      var parent := NewParent(req);
      activeParentOrders := activeParentOrders[parent.parentId := parent];
      lifecycle := lifecycle + [Decision(parent.parentId, parent.totalQty)];
      routed := ExecuteRoutingDecision(parent, allocations);
    }

    method Retry(parentId: int, allocations: seq<int>) returns (routed: int)
      modifies this
      ensures State() == Retried(old(State()), parentId, allocations)
      ensures routed == RoutedQuantity(old(State()), Lookup(old(State()), parentId), allocations)
    {
      var parent := if parentId in activeParentOrders then activeParentOrders[parentId] else BLANK_PARENT;
      activeParentOrders := activeParentOrders[parentId := parent];
      routed := ExecuteRoutingDecision(parent, allocations);
    }

    method Abandon(parentId: int)
      modifies this
      ensures State() == Abandoned(old(State()), parentId)
    {
      lifecycle := lifecycle + [Completion(parentId, 0, true)];
      activeParentOrders := activeParentOrders - {parentId};
    }
  }
}
