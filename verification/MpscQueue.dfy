/** The ticketed ring that many producers share with one consumer, as a transition system.

    Every atomic load, compare-exchange, data copy and store is a step of its own, and the steps of any
    number of producers and the consumer interleave freely.  The counters are unbounded.  `tickets`,
    `published`, `accepted` and `popped` are history: no step reads them.  */
module MpscQueues {
  import opened Arithmetic
  import opened MarketTypes
  import opened Rings

  datatype Slot<T> = Slot(sequence: nat, data: Option<T>)

  // Where a producer is inside `push`.
  datatype Producer<T> =
    | Idle
    | Loaded(item: T, pos: nat)            // has a position, and loads the slot's sequence next
    | Seen(item: T, pos: nat, found: nat)  // has compared nothing yet
    | Won(item: T, pos: nat)               // its compare-exchange succeeded
    | Wrote(item: T, pos: nat)             // the item is in the slot, not yet published

  // Where the consumer is inside `try_pop`.
  datatype Consumer<T> =
    | Resting
    | Looked(found: nat)
    | Copied(taken: T)
    | Released(taken: T)                   // the slot is free again, the position not yet advanced

  // One successful compare-exchange.
  datatype Ticket<T> = Ticket(item: T, producer: nat)

  datatype Queue<T> = Queue(slots: seq<Slot<T>>, enqueuePos: nat, dequeuePos: nat,
                            producers: seq<Producer<T>>, consumer: Consumer<T>,
                            tickets: seq<Ticket<T>>, published: seq<bool>, accepted: seq<seq<T>>, popped: seq<T>)

  datatype Step<T> =
    | StartPush(p: nat, item: T)
    | LoadSequence(p: nat)
    | CompareExchange(p: nat, spurious: bool) // a weak exchange may fail although the values agree
    | Reject(p: nat)
    | Reload(p: nat)
    | WriteData(p: nat)
    | Publish(p: nat)
    | LookForItem
    | GiveUp
    | CopyItem
    | ReleaseSlot
    | FinishPop

  predicate WellFormed<T>(s: Queue<T>) {
    0 < |s.slots| && |s.accepted| == |s.producers|
  }

  predicate Enabled<T>(s: Queue<T>, step: Step<T>)
    requires WellFormed(s)
  {
    match step
    case StartPush(p, item) => p < |s.producers| && s.producers[p].Idle?
    case LoadSequence(p) => p < |s.producers| && s.producers[p].Loaded?
    case CompareExchange(p, spurious) => p < |s.producers| && s.producers[p].Seen?
      && s.producers[p].found == s.producers[p].pos
    case Reject(p) => p < |s.producers| && s.producers[p].Seen? && s.producers[p].found < s.producers[p].pos
    case Reload(p) => p < |s.producers| && s.producers[p].Seen? && s.producers[p].found > s.producers[p].pos
    case WriteData(p) => p < |s.producers| && s.producers[p].Won?
    case Publish(p) => p < |s.producers| && s.producers[p].Wrote? && s.producers[p].pos < |s.published|
    case LookForItem => s.consumer.Resting?
    case GiveUp => s.consumer.Looked? && s.consumer.found != s.dequeuePos + 1
    case CopyItem => s.consumer.Looked? && s.consumer.found == s.dequeuePos + 1
      && s.slots[SlotOf(s.dequeuePos, |s.slots|)].data.Some?
    case ReleaseSlot => s.consumer.Copied?
    case FinishPop => s.consumer.Released?
  }

  function At<T>(s: Queue<T>, pos: nat): Slot<T>
    requires WellFormed(s)
  {
    s.slots[SlotOf(pos, |s.slots|)]
  }

  function With<T>(s: Queue<T>, pos: nat, slot: Slot<T>): (r: Queue<T>)
    requires WellFormed(s)
    ensures WellFormed(r)
  {
    s.(slots := s.slots[SlotOf(pos, |s.slots|) := slot])
  }

  function Moved<T>(s: Queue<T>, p: nat, producer: Producer<T>): (r: Queue<T>)
    requires WellFormed(s) && p < |s.producers|
    ensures WellFormed(r)
  {
    s.(producers := s.producers[p := producer])
  }

  function Apply<T>(s: Queue<T>, step: Step<T>): (r: Queue<T>)
    requires WellFormed(s) && Enabled(s, step)
    ensures WellFormed(r) && |r.slots| == |s.slots| && |r.producers| == |s.producers|
  {
    match step
    case StartPush(p, item) => Moved(s, p, Loaded(item, s.enqueuePos))
    case LoadSequence(p) =>
      var at := s.producers[p];
      Moved(s, p, Seen(at.item, at.pos, At(s, at.pos).sequence))
    case CompareExchange(p, spurious) =>
      var at := s.producers[p];
      if s.enqueuePos == at.pos && !spurious then
        Moved(s, p, Won(at.item, at.pos)).(enqueuePos := at.pos + 1,
                                           tickets := s.tickets + [Ticket(at.item, p)],
                                           published := s.published + [false])
      else
        Moved(s, p, Loaded(at.item, s.enqueuePos))
    case Reject(p) => Moved(s, p, Idle)
    case Reload(p) => Moved(s, p, Loaded(s.producers[p].item, s.enqueuePos))
    case WriteData(p) =>
      var at := s.producers[p];
      With(Moved(s, p, Wrote(at.item, at.pos)), at.pos, At(s, at.pos).(data := Some(at.item)))
    case Publish(p) =>
      var at := s.producers[p];
      With(Moved(s, p, Idle), at.pos, At(s, at.pos).(sequence := at.pos + 1))
        .(published := s.published[at.pos := true], accepted := s.accepted[p := s.accepted[p] + [at.item]])
    case LookForItem => s.(consumer := Looked(At(s, s.dequeuePos).sequence))
    case GiveUp => s.(consumer := Resting)
    case CopyItem => s.(consumer := Copied(At(s, s.dequeuePos).data.value))
    case ReleaseSlot =>
      With(s, s.dequeuePos, At(s, s.dequeuePos).(sequence := s.dequeuePos + |s.slots|))
      .(consumer := Released(s.consumer.taken))
    case FinishPop => s.(consumer := Resting, dequeuePos := s.dequeuePos + 1, popped := s.popped + [s.consumer.taken])
  }

  ghost predicate Init<T>(s: Queue<T>) {
    && WellFormed(s)
    && (forall i | 0 <= i < |s.slots| :: s.slots[i].sequence == i)
    && s.enqueuePos == s.dequeuePos == 0
    && (forall p | 0 <= p < |s.producers| :: s.producers[p].Idle? && s.accepted[p] == [])
    && s.consumer.Resting? && s.tickets == [] && s.published == [] && s.popped == []
  }

  // How many slots the consumer has handed back.
  function ReleasedCount<T>(s: Queue<T>): nat {
    s.dequeuePos + if s.consumer.Released? then 1 else 0
  }

  // Tickets handed out and not yet released.
  function Outstanding<T>(s: Queue<T>): int {
    s.enqueuePos - ReleasedCount(s)
  }

  predicate IsPublished<T>(s: Queue<T>, t: nat) {
    t < |s.published| && s.published[t]
  }

  // The slot of a position that can be in use: one past the position once published, and the item in it.
  ghost predicate SlotHolds<T>(s: Queue<T>, t: nat)
    requires WellFormed(s) && |s.published| == |s.tickets|
  {
    && At(s, t).sequence == (if IsPublished(s, t) then t + 1 else t)
    && (IsPublished(s, t) ==> At(s, t).data == Some(s.tickets[t].item))
  }

  ghost predicate Ring<T>(s: Queue<T>) {
    && WellFormed(s) && s.enqueuePos == |s.tickets| == |s.published|
    && 0 <= Outstanding(s) <= |s.slots|
    && (forall t: nat | ReleasedCount(s) <= t < ReleasedCount(s) + |s.slots| :: SlotHolds(s, t))
    && (forall t: nat | t < ReleasedCount(s) :: IsPublished(s, t))
  }

  // A claimed position is the producer's own, unpublished, and within the ring.
  ghost predicate Owns<T>(s: Queue<T>, p: nat, item: T, pos: nat) {
    && pos < |s.tickets| && s.tickets[pos] == Ticket(item, p) && !IsPublished(s, pos)
  }

  ghost predicate ProducerOk<T>(s: Queue<T>, p: nat)
    requires WellFormed(s) && p < |s.producers|
  {
    match s.producers[p]
    case Idle => true
    case Loaded(item, pos) => pos <= s.enqueuePos
    case Seen(item, pos, found) => pos <= s.enqueuePos && (found == pos ==> pos < ReleasedCount(s) + |s.slots|)
    case Won(item, pos) => Owns(s, p, item, pos)
    case Wrote(item, pos) => Owns(s, p, item, pos) && At(s, pos).data == Some(item)
  }

  predicate Holds<T>(producer: Producer<T>, t: nat) {
    (producer.Won? || producer.Wrote?) && producer.pos == t
  }

  // An unpublished ticket is in its producer's hands.
  ghost predicate InHands<T>(s: Queue<T>, t: nat)
    requires |s.published| == |s.tickets|
  {
    t < |s.tickets| && !IsPublished(s, t) ==>
        s.tickets[t].producer < |s.producers| && Holds(s.producers[s.tickets[t].producer], t)
  }

  ghost predicate ConsumerOk<T>(s: Queue<T>) {
    match s.consumer
    case Resting => true
    case Looked(found) => found == s.dequeuePos + 1 ==> IsPublished(s, s.dequeuePos)
    case Copied(taken) => IsPublished(s, s.dequeuePos) && s.dequeuePos < |s.tickets|
      && s.tickets[s.dequeuePos].item == taken
    case Released(taken) => s.dequeuePos < |s.tickets| && s.tickets[s.dequeuePos].item == taken
  }

  // The items of one producer, in ticket order.
  function Projection<T>(tickets: seq<Ticket<T>>, p: nat): seq<T> {
    if tickets == [] then []
    else
      var last := tickets[|tickets| - 1];
      Projection(tickets[..|tickets| - 1], p) + if last.producer == p then [last.item] else []
  }

  function InHand<T>(producer: Producer<T>): seq<T> {
    if producer.Won? || producer.Wrote? then [producer.item] else []
  }

  ghost predicate Fifo<T>(s: Queue<T>) {
    && |s.accepted| == |s.producers| && |s.popped| == s.dequeuePos <= |s.tickets|
    && (forall t: nat | t < |s.popped| :: s.popped[t] == s.tickets[t].item)
    && (forall p: nat | p < |s.producers| :: Projection(s.tickets, p) == s.accepted[p] + InHand(s.producers[p]))
  }

  ghost predicate Inv<T>(s: Queue<T>) {
    && Ring(s) && ConsumerOk(s) && Fifo(s)
    && (forall p: nat | p < |s.producers| :: ProducerOk(s, p))
    && (forall t: nat :: InHands(s, t))
  }

  // ---- Positions and slots ----

  lemma InitKeepsInv<T>(s: Queue<T>)
    requires Init(s)
    ensures Inv(s)
  {
    forall t: nat | t < |s.slots| ensures SlotHolds(s, t) { SmallRemainder(t, |s.slots|); }
  }

  // What a producer finds in the slot of its position, for a ring of at least two slots.
  lemma SequenceFound<T>(s: Queue<T>, pos: nat)
    requires Ring(s) && 2 <= |s.slots| && pos <= s.enqueuePos
    ensures At(s, pos).sequence < pos <==> pos == ReleasedCount(s) + |s.slots|
    ensures At(s, pos).sequence == pos ==>
              ReleasedCount(s) <= pos < ReleasedCount(s) + |s.slots| && !IsPublished(s, pos)
  {
    hide SlotOf;
    var r, cap := ReleasedCount(s), |s.slots|;
    if pos == r + cap {
      SlotWraps(r, cap);
      assert SlotHolds(s, r);
    } else if r <= pos {
      assert SlotHolds(s, pos);
    } else {
      var t := LaterInWindow(pos, r, cap);
      assert SlotHolds(s, t);
    }
  }

  // The position of the window that shares a slot with an earlier one.
  lemma LaterInWindow(pos: nat, r: nat, cap: nat) returns (t: nat)
    requires 0 < cap && pos < r
    ensures r <= t < r + cap && pos < t && SlotOf(t, cap) == SlotOf(pos, cap)
  {
    t := pos;
    while t < r
      invariant pos <= t < r + cap && SlotOf(t, cap) == SlotOf(pos, cap)
    {
      SlotWraps(t, cap);
      t := t + cap;
    }
  }

  // ---- Every step keeps the invariant ----

  // A step that only moves a producer which neither held nor holds a ticket.
  lemma MoveKeepsInv<T>(s: Queue<T>, p: nat, producer: Producer<T>)
    requires Inv(s) && p < |s.producers| && InHand(s.producers[p]) == [] == InHand(producer)
    requires ProducerOk(Moved(s, p, producer), p)
    ensures Inv(Moved(s, p, producer))
  {
    hide SlotOf, Projection;
    var r := Moved(s, p, producer);
    forall t: nat | ReleasedCount(r) <= t < ReleasedCount(r) + |r.slots| ensures SlotHolds(r, t) {
      assert SlotHolds(s, t);
    }
    forall t: nat | t < ReleasedCount(r) ensures IsPublished(r, t) {
      assert IsPublished(s, t);
    }
    forall t: nat ensures InHands(r, t) {
      assert InHands(s, t);
    }
    forall q: nat | q < |r.producers| ensures ProducerOk(r, q) {
      assert ProducerOk(s, q);
    }
  }

  lemma LoadSequenceKeepsInv<T>(s: Queue<T>, p: nat)
    requires Inv(s) && 2 <= |s.slots| && Enabled(s, LoadSequence(p))
    ensures Inv(Apply(s, LoadSequence(p)))
  {
    hide SlotOf, Projection, SlotHolds;
    var at := s.producers[p];
    assert ProducerOk(s, p);
    SequenceFound(s, at.pos);
    MoveKeepsInv(s, p, Seen(at.item, at.pos, At(s, at.pos).sequence));
  }

  lemma ProjectionAppend<T>(tickets: seq<Ticket<T>>, ticket: Ticket<T>, p: nat)
    ensures Projection(tickets + [ticket], p) ==
            Projection(tickets, p) + if ticket.producer == p then [ticket.item] else []
  {
    assert (tickets + [ticket])[..|tickets|] == tickets;
  }

  lemma ClaimKeepsInv<T>(s: Queue<T>, p: nat)
    requires Inv(s) && Enabled(s, CompareExchange(p, false)) && s.enqueuePos == s.producers[p].pos
    ensures Inv(Apply(s, CompareExchange(p, false)))
  {
    hide SlotOf, Projection;
    var r, at := Apply(s, CompareExchange(p, false)), s.producers[p];
    var ticket := Ticket(at.item, p);
    assert ProducerOk(s, p);
    forall t: nat | ReleasedCount(r) <= t < ReleasedCount(r) + |r.slots| ensures SlotHolds(r, t) {
      assert SlotHolds(s, t);
    }
    forall t: nat | t < ReleasedCount(r) ensures IsPublished(r, t) {
      assert IsPublished(s, t);
    }
    forall t: nat ensures InHands(r, t) {
      assert InHands(s, t);
    }
    forall q: nat | q < |r.producers| ensures ProducerOk(r, q) {
      assert ProducerOk(s, q);
    }
    forall q: nat | q < |r.producers| ensures Projection(r.tickets, q) == r.accepted[q] + InHand(r.producers[q]) {
      ProjectionAppend(s.tickets, ticket, q);
    }
  }

  // The slot of a claimed position belongs to no other position in use.
  lemma OwnSlot<T>(s: Queue<T>, p: nat, pos: nat, t: nat)
    requires Ring(s) && p < |s.producers| && ProducerOk(s, p) && Holds(s.producers[p], pos)
    requires ReleasedCount(s) <= t < ReleasedCount(s) + |s.slots|
    ensures ReleasedCount(s) <= pos < ReleasedCount(s) + |s.slots|
    ensures t != pos ==> SlotOf(t, |s.slots|) != SlotOf(pos, |s.slots|)
  {
    hide SlotOf, SlotHolds;
    assert pos < ReleasedCount(s) ==> IsPublished(s, pos);
    if t < pos { SlotsDiffer(t, pos, |s.slots|); }
    if pos < t { SlotsDiffer(pos, t, |s.slots|); }
  }

  // Two producers never hold the same slot.
  lemma OwnersDiffer<T>(s: Queue<T>, p: nat, q: nat)
    requires Ring(s) && p < |s.producers| && q < |s.producers| && p != q && ProducerOk(s, p) && ProducerOk(s, q)
    requires InHand(s.producers[p]) != [] && InHand(s.producers[q]) != []
    ensures SlotOf(s.producers[p].pos, |s.slots|) != SlotOf(s.producers[q].pos, |s.slots|)
  {
    hide SlotOf, SlotHolds;
    OwnSlot(s, q, s.producers[q].pos, ReleasedCount(s));
    OwnSlot(s, p, s.producers[p].pos, s.producers[q].pos);
  }

  lemma WriteKeepsInv<T>(s: Queue<T>, p: nat)
    requires Inv(s) && Enabled(s, WriteData(p))
    ensures Inv(Apply(s, WriteData(p)))
  {
    hide SlotOf, Projection;
    var r, at := Apply(s, WriteData(p)), s.producers[p];
    assert ProducerOk(s, p);
    forall t: nat | ReleasedCount(r) <= t < ReleasedCount(r) + |r.slots| ensures SlotHolds(r, t) {
      assert SlotHolds(s, t);
      OwnSlot(s, p, at.pos, t);
    }
    forall t: nat | t < ReleasedCount(r) ensures IsPublished(r, t) {
      assert IsPublished(s, t);
    }
    forall t: nat ensures InHands(r, t) {
      assert InHands(s, t);
    }
    forall q: nat | q < |r.producers| ensures ProducerOk(r, q) {
      assert ProducerOk(s, q);
      if q != p && InHand(s.producers[q]) != [] { OwnersDiffer(s, p, q); }
    }
  }

  lemma PublishKeepsInv<T>(s: Queue<T>, p: nat)
    requires Inv(s) && Enabled(s, Publish(p))
    ensures Inv(Apply(s, Publish(p)))
  {
    hide SlotOf, Projection;
    var r, at := Apply(s, Publish(p)), s.producers[p];
    assert ProducerOk(s, p);
    forall t: nat | ReleasedCount(r) <= t < ReleasedCount(r) + |r.slots| ensures SlotHolds(r, t) {
      assert SlotHolds(s, t);
      OwnSlot(s, p, at.pos, t);
    }
    forall t: nat | t < ReleasedCount(r) ensures IsPublished(r, t) {
      assert IsPublished(s, t);
    }
    forall t: nat ensures InHands(r, t) {
      assert InHands(s, t);
    }
    forall q: nat | q < |r.producers| ensures ProducerOk(r, q) {
      assert ProducerOk(s, q);
      if q != p && InHand(s.producers[q]) != [] { OwnersDiffer(s, p, q); }
    }
  }

  // A step that only moves the consumer, before the slot is released.
  lemma ConsumerMoveKeepsInv<T>(s: Queue<T>, consumer: Consumer<T>)
    requires Inv(s) && !s.consumer.Released? && !consumer.Released? && ConsumerOk(s.(consumer := consumer))
    ensures Inv(s.(consumer := consumer))
  {
    hide SlotOf, Projection;
    var r := s.(consumer := consumer);
    forall t: nat | ReleasedCount(r) <= t < ReleasedCount(r) + |r.slots| ensures SlotHolds(r, t) {
      assert SlotHolds(s, t);
    }
    forall t: nat | t < ReleasedCount(r) ensures IsPublished(r, t) {
      assert IsPublished(s, t);
    }
    forall t: nat ensures InHands(r, t) {
      assert InHands(s, t);
    }
    forall q: nat | q < |r.producers| ensures ProducerOk(r, q) {
      assert ProducerOk(s, q);
    }
  }

  // What the consumer finds: its item is there exactly when the next ticket is published.
  lemma ItemFound<T>(s: Queue<T>)
    requires Ring(s) && !s.consumer.Released?
    ensures At(s, s.dequeuePos).sequence == s.dequeuePos + 1 <==> IsPublished(s, s.dequeuePos)
    ensures IsPublished(s, s.dequeuePos) ==> At(s, s.dequeuePos).data == Some(s.tickets[s.dequeuePos].item)
  {
    hide SlotOf;
    assert SlotHolds(s, s.dequeuePos);
  }

  lemma ReleaseKeepsInv<T>(s: Queue<T>)
    requires Inv(s) && Enabled(s, ReleaseSlot)
    ensures Inv(Apply(s, ReleaseSlot))
  {
    hide SlotOf, Projection;
    var r, d, cap := Apply(s, ReleaseSlot), s.dequeuePos, |s.slots|;
    forall t: nat | d + 1 <= t < d + 1 + cap ensures SlotHolds(r, t) {
      if t == d + cap {
        SlotWraps(d, cap);
      } else {
        assert SlotHolds(s, t);
        SlotsDiffer(d, t, cap);
      }
    }
    forall t: nat | t < ReleasedCount(r) ensures IsPublished(r, t) {
      assert t < d ==> IsPublished(s, t);
    }
    forall t: nat ensures InHands(r, t) {
      assert InHands(s, t);
    }
    forall q: nat | q < |r.producers| ensures ProducerOk(r, q) {
      assert ProducerOk(s, q);
      if InHand(s.producers[q]) != [] { OwnSlot(s, q, s.producers[q].pos, d); }
    }
  }

  lemma FinishKeepsInv<T>(s: Queue<T>)
    requires Inv(s) && Enabled(s, FinishPop)
    ensures Inv(Apply(s, FinishPop))
  {
    hide SlotOf, Projection;
    var r := Apply(s, FinishPop);
    forall t: nat | ReleasedCount(r) <= t < ReleasedCount(r) + |r.slots| ensures SlotHolds(r, t) {
      assert SlotHolds(s, t);
    }
    forall t: nat | t < ReleasedCount(r) ensures IsPublished(r, t) {
      assert IsPublished(s, t);
    }
    forall t: nat ensures InHands(r, t) {
      assert InHands(s, t);
    }
    forall q: nat | q < |r.producers| ensures ProducerOk(r, q) {
      assert ProducerOk(s, q);
    }
  }

  // For a ring of at least two slots, no step of any thread breaks the invariant.
  lemma StepKeepsInv<T>(s: Queue<T>, step: Step<T>)
    requires Inv(s) && 2 <= |s.slots| && Enabled(s, step)
    ensures Inv(Apply(s, step))
  {
    hide SlotOf, Projection, Ring, InHands, SlotHolds;
    match step
    case StartPush(p, item) => MoveKeepsInv(s, p, Loaded(item, s.enqueuePos));
    case LoadSequence(p) => LoadSequenceKeepsInv(s, p);
    case CompareExchange(p, spurious) =>
      if s.enqueuePos == s.producers[p].pos && !spurious {
        ClaimKeepsInv(s, p);
      } else {
        MoveKeepsInv(s, p, Loaded(s.producers[p].item, s.enqueuePos));
      }
    case Reject(p) => MoveKeepsInv(s, p, Idle);
    case Reload(p) => MoveKeepsInv(s, p, Loaded(s.producers[p].item, s.enqueuePos));
    case WriteData(p) => WriteKeepsInv(s, p);
    case Publish(p) => PublishKeepsInv(s, p);
    case LookForItem =>
      ItemFound(s);
      ConsumerMoveKeepsInv(s, Looked(At(s, s.dequeuePos).sequence));
    case GiveUp => ConsumerMoveKeepsInv(s, Resting);
    case CopyItem =>
      ItemFound(s);
      IsTicket(s);
      ConsumerMoveKeepsInv(s, Copied(At(s, s.dequeuePos).data.value));
    case ReleaseSlot => ReleaseKeepsInv(s);
    case FinishPop => FinishKeepsInv(s);
  }

  lemma IsTicket<T>(s: Queue<T>)
    requires Ring(s)
    ensures forall t: nat | IsPublished(s, t) :: t < |s.tickets|
  {}

  // ---- Runs ----

  ghost predicate Run<T>(steps: seq<Step<T>>, states: seq<Queue<T>>) {
    && |states| == |steps| + 1 && Init(states[0])
    && forall i | 0 <= i < |steps| ::
         WellFormed(states[i]) && Enabled(states[i], steps[i]) && states[i + 1] == Apply(states[i], steps[i])
  }

  // In every run of any number of producers, on a ring of at least two slots, the invariant holds throughout.
  lemma {:induction false} EveryStateIsSound<T>(steps: seq<Step<T>>, states: seq<Queue<T>>, i: nat)
    requires Run(steps, states) && i < |states| && 2 <= |states[0].slots|
    ensures Inv(states[i]) && |states[i].slots| == |states[0].slots| && |states[i].producers| == |states[0].producers|
  {
    if i == 0 {
      InitKeepsInv(states[0]);
    } else {
      EveryStateIsSound(steps, states, i - 1);
      StepKeepsInv(states[i - 1], steps[i - 1]);
    }
  }

  lemma {:induction false} ProjectionSplits<T>(tickets: seq<Ticket<T>>, k: nat, p: nat)
    requires k <= |tickets|
    ensures Projection(tickets, p) == Projection(tickets[..k], p) + Projection(tickets[k..], p)
  {
    if k == |tickets| {
      assert tickets[..k] == tickets;
    } else {
      var n := |tickets| - 1;
      ProjectionSplits(tickets[..n], k, p);
      assert tickets[..n][..k] == tickets[..k] && tickets[..n][k..] == tickets[k..][..n - k];
    }
  }

  lemma {:induction false} ProjectionHas<T>(tickets: seq<Ticket<T>>, i: nat)
    requires i < |tickets|
    ensures Projection(tickets, tickets[i].producer) != []
  {
    var n := |tickets| - 1;
    if i < n { ProjectionHas(tickets[..n], i); }
  }

  lemma PrefixBefore<T>(a: seq<T>, b: seq<T>, c: seq<T>, d: seq<T>)
    requires a + b == c + d && |d| <= |b|
    ensures a <= c
  {
    forall i | 0 <= i < |a| ensures a[i] == c[i] {
      assert (a + b)[i] == (c + d)[i];
    }
  }

  // The items popped so far are those of the first tickets, in ticket order and each once; of every
  // producer they are the first items it was told were accepted, in the order it pushed them.
  lemma PoppedInOrder<T>(s: Queue<T>, p: nat)
    requires Inv(s) && p < |s.producers|
    ensures |s.popped| == s.dequeuePos <= |s.tickets|
    ensures forall t: nat | t < |s.popped| :: s.popped[t] == s.tickets[t].item
    ensures Projection(s.tickets[..s.dequeuePos], p) <= s.accepted[p]
    ensures s.dequeuePos == s.enqueuePos ==> Projection(s.tickets[..s.dequeuePos], p) == s.accepted[p]
  {
    hide SlotOf, SlotHolds;
    var d := s.dequeuePos;
    ProjectionSplits(s.tickets, d, p);
    assert ProducerOk(s, p);
    if InHand(s.producers[p]) != [] {
      var pos := s.producers[p].pos;
      assert pos < d ==> IsPublished(s, pos);
      ProjectionHas(s.tickets[d..], pos - d);
    }
    PrefixBefore(Projection(s.tickets[..d], p), Projection(s.tickets[d..], p), s.accepted[p], InHand(s.producers[p]));
    assert d == s.enqueuePos ==> s.tickets[d..] == [];
  }

  // A producer is turned away only if, when it looked at its slot, every slot was claimed and unreleased.
  lemma TurnedAwayWhenFull<T>(s: Queue<T>, p: nat)
    requires Inv(s) && 2 <= |s.slots| && Enabled(s, LoadSequence(p))
    ensures Enabled(Apply(s, LoadSequence(p)), Reject(p)) <==>
            s.producers[p].pos == s.enqueuePos && Outstanding(s) == |s.slots|
  {
    hide SlotOf, SlotHolds, Projection;
    assert ProducerOk(s, p);
    SequenceFound(s, s.producers[p].pos);
  }

  ghost predicate StandsAs<T>(s: Queue<T>, p: nat, producer: Producer<T>) {
    p < |s.producers| && s.producers[p] == producer
  }

  // The step at which a producer last looked at its slot.
  lemma {:induction false} LastLook<T>(steps: seq<Step<T>>, states: seq<Queue<T>>, i: nat, p: nat,
                                       producer: Producer<T>) returns (j: nat)
    requires Run(steps, states) && i < |states| && StandsAs(states[i], p, producer) && producer.Seen?
    ensures j < i && steps[j] == LoadSequence(p) && forall k | j < k <= i :: StandsAs(states[k], p, producer)
  {
    hide SlotOf, Inv, Projection;
    assert i > 0;
    j := i - 1;
    if steps[j] != LoadSequence(p) {
      OthersStay(states[j], steps[j], p);
      j := LastLook(steps, states, i - 1, p, producer);
    }
  }

  // A rejected push saw every slot claimed and unreleased at the moment it looked.
  lemma RejectionSawFullQueue<T>(steps: seq<Step<T>>, states: seq<Queue<T>>, i: nat, p: nat) returns (j: nat)
    requires Run(steps, states) && 2 <= |states[0].slots| && i < |steps| && steps[i] == Reject(p)
    ensures j < i && steps[j] == LoadSequence(p) && Outstanding(states[j]) == |states[j].slots|
    ensures forall k | j < k <= i :: StandsAs(states[k], p, states[i].producers[p])
  {
    hide SlotOf, Inv, Projection, Init;
    j := LastLook(steps, states, i, p, states[i].producers[p]);
    EveryStateIsSound(steps, states, j);
    assert StandsAs(states[j + 1], p, states[i].producers[p]);
    TurnedAwayWhenFull(states[j], p);
  }

  // Only its own look at a slot brings a producer to where it can be turned away.
  lemma OthersStay<T>(s: Queue<T>, step: Step<T>, p: nat)
    requires WellFormed(s) && Enabled(s, step) && step != LoadSequence(p) && p < |s.producers|
             && Apply(s, step).producers[p].Seen?
    ensures s.producers[p] == Apply(s, step).producers[p]
  {}

  // The consumer comes away empty only if the next ticket is not handed out or its producer is still at work.
  lemma EmptyHanded<T>(s: Queue<T>)
    requires Inv(s) && Enabled(s, LookForItem)
    ensures Enabled(Apply(s, LookForItem), GiveUp) <==>
            s.dequeuePos == s.enqueuePos ||
            (exists p: nat :: p < |s.producers| && Holds(s.producers[p], s.dequeuePos))
  {
    hide SlotOf, SlotHolds, Projection;
    ItemFound(s);
    var d := s.dequeuePos;
    assert InHands(s, d);
    if p: nat :| p < |s.producers| && Holds(s.producers[p], d) {
      assert ProducerOk(s, p);
    }
  }

  // While the consumer may copy a slot, and while a producer may write one, no other producer may write it.
  lemma NoTornData<T>(s: Queue<T>, p: nat, q: nat)
    requires Inv(s) && p < |s.producers| && q < |s.producers| && InHand(s.producers[p]) != []
    ensures Enabled(s, CopyItem) ==> SlotOf(s.producers[p].pos, |s.slots|) != SlotOf(s.dequeuePos, |s.slots|)
    ensures p != q && InHand(s.producers[q]) != [] ==>
              SlotOf(s.producers[p].pos, |s.slots|) != SlotOf(s.producers[q].pos, |s.slots|)
    ensures s.producers[p].pos - |s.slots| < ReleasedCount(s)
  {
    hide SlotOf, SlotHolds, Projection;
    assert ProducerOk(s, p) && ProducerOk(s, q);
    if p != q && InHand(s.producers[q]) != [] { OwnersDiffer(s, p, q); }
    OwnSlot(s, p, s.producers[p].pos, ReleasedCount(s));
  }

  // ---- Why two slots are needed ----

  function RunFrom<T>(s: Queue<T>, steps: seq<Step<T>>): (r: Option<Queue<T>>)
    requires WellFormed(s)
    ensures r.Some? ==> WellFormed(r.value)
    decreases |steps|
  {
    if steps == [] then Some(s)
    else if Enabled(s, steps[0]) then RunFrom(Apply(s, steps[0]), steps[1..])
    else None
  }

  lemma RunFirst<T>(s: Queue<T>, step: Step<T>, rest: seq<Step<T>>)
    requires WellFormed(s) && Enabled(s, step)
    ensures RunFrom(s, [step] + rest) == RunFrom(Apply(s, step), rest)
  {
    assert ([step] + rest)[1..] == rest;
  }

  // A whole push with no other thread in between.
  function Push<T>(p: nat, item: T): seq<Step<T>> {
    [StartPush(p, item)] + ([LoadSequence(p)] + ([CompareExchange(p, false)] + ([WriteData(p)] + ([Publish(p)] + []))))
  }

  function Pushed<T>(s: Queue<T>, p: nat, item: T): Queue<T>
    requires WellFormed(s) && p < |s.producers|
  {
    With(s, s.enqueuePos, Slot(s.enqueuePos + 1, Some(item)))
      .(enqueuePos := s.enqueuePos + 1, tickets := s.tickets + [Ticket(item, p)], published := s.published + [true],
        accepted := s.accepted[p := s.accepted[p] + [item]])
  }

  // Left alone, a push whose slot shows its position takes it.
  lemma PushAlone<T>(s: Queue<T>, p: nat, item: T)
    requires WellFormed(s) && p < |s.producers| && s.producers[p].Idle? && |s.published| == s.enqueuePos
    requires At(s, s.enqueuePos).sequence == s.enqueuePos
    ensures RunFrom(s, Push(p, item)) == Some(Pushed(s, p, item))
  {
    hide SlotOf, RunFrom;
    var n := s.enqueuePos;
    var s1 := Apply(s, StartPush(p, item));
    var s2 := Apply(s1, LoadSequence(p));
    var s3 := Apply(s2, CompareExchange(p, false));
    var s4 := Apply(s3, WriteData(p));
    var s5 := Apply(s4, Publish(p));
    RunFirst(s4, Publish(p), []);
    RunFirst(s3, WriteData(p), [Publish(p)] + []);
    RunFirst(s2, CompareExchange(p, false), [WriteData(p)] + ([Publish(p)] + []));
    RunFirst(s1, LoadSequence(p), [CompareExchange(p, false)] + ([WriteData(p)] + ([Publish(p)] + [])));
    RunFirst(s, StartPush(p, item),
             [LoadSequence(p)] + ([CompareExchange(p, false)] + ([WriteData(p)] + ([Publish(p)] + []))));
    RunNothing(s5);
    assert s5.slots == Pushed(s, p, item).slots;
    assert s5.producers == s.producers;
    assert s5.published == s.published + [true];
  }

  lemma RunNothing<T>(s: Queue<T>)
    requires WellFormed(s)
    ensures RunFrom(s, []) == Some(s)
  {}

  // With a single slot the second push overwrites the first item before it is read, both are reported
  // accepted, and the consumer finds neither.
  lemma OneSlotLosesItems<T>(s: Queue<T>, first: T, second: T)
    requires Init(s) && |s.slots| == 1 && 0 < |s.producers|
    ensures RunFrom(s, Push(0, first)).Some?
    ensures var r := RunFrom(RunFrom(s, Push(0, first)).value, Push(0, second));
            && r.Some? && r.value.accepted != [] && r.value.accepted[0] == [first, second] && r.value.popped == []
            && r.value.slots == [Slot(2, Some(second))] && Outstanding(r.value) == 2
            && Enabled(r.value, LookForItem) && Enabled(Apply(r.value, LookForItem), GiveUp)
            && !Inv(r.value)
  {
    hide RunFrom, Push;
    PushAlone(s, 0, first);
    var s1 := Pushed(s, 0, first);
    PushAlone(s1, 0, second);
  }

  // A thread in the middle of a call always has a next step.
  lemma NeverStuck<T>(s: Queue<T>, p: nat)
    requires Inv(s) && p < |s.producers|
    ensures match s.producers[p]
            case Idle => true
            case Loaded(_, _) => Enabled(s, LoadSequence(p))
            case Seen(_, _, _) => Enabled(s, CompareExchange(p, false)) || Enabled(s, Reject(p))
              || Enabled(s, Reload(p))
            case Won(_, _) => Enabled(s, WriteData(p))
            case Wrote(_, _) => Enabled(s, Publish(p))
    ensures match s.consumer
            case Resting => Enabled(s, LookForItem)
            case Looked(_) => Enabled(s, GiveUp) || Enabled(s, CopyItem)
            case Copied(_) => Enabled(s, ReleaseSlot)
            case Released(_) => Enabled(s, FinishPop)
  {
    hide SlotOf, Projection;
    assert ProducerOk(s, p);
    if s.consumer.Looked? { ItemFound(s); }
  }
}
