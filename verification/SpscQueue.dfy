/** The ring between one producer and one consumer, as a transition system, and the bounded queue it is.

    One slot always stays empty.  Every load, data copy and store is a step of its own.  `pushed` and
    `popped` are history: the items `push` and `try_pop` have returned for.  */
module SpscQueues {
  import opened Arithmetic
  import opened MarketTypes
  import opened Rings

  // Where the producer is inside `push`: `head` is the index it loaded.
  datatype Pusher<T> =
    | Idle
    | HasHead(item: T, head: nat)
    | Refused
    | Ready(item: T, head: nat)
    | Wrote(item: T, head: nat)

  // Where the consumer is inside `try_pop`: `tail` is the index it loaded.
  datatype Popper<T> =
    | Resting
    | HasTail(tail: nat)
    | Empty
    | Found(tail: nat)
    | Copied(taken: T, tail: nat)

  datatype Queue<T> = Queue(buffer: seq<Option<T>>, head: nat, tail: nat, dropped: nat,
                            pusher: Pusher<T>, popper: Popper<T>, pushed: seq<T>, popped: seq<T>)

  datatype Step<T> =
    | LoadHead(item: T)
    | CheckTail
    | Refuse
    | WriteData
    | StoreHead
    | LoadTail
    | CheckHead
    | GiveUp
    | CopyItem
    | StoreTail

  predicate WellFormed<T>(s: Queue<T>) {
    0 < |s.buffer| && s.head < |s.buffer| && s.tail < |s.buffer|
  }

  predicate Enabled<T>(s: Queue<T>, step: Step<T>)
    requires WellFormed(s)
  {
    match step
    case LoadHead(item) => s.pusher.Idle?
    case CheckTail => s.pusher.HasHead?
    case Refuse => s.pusher.Refused?
    case WriteData => s.pusher.Ready? && s.pusher.head < |s.buffer|
    case StoreHead => s.pusher.Wrote?
    case LoadTail => s.popper.Resting?
    case CheckHead => s.popper.HasTail?
    case GiveUp => s.popper.Empty?
    case CopyItem => s.popper.Found? && s.popper.tail < |s.buffer| && s.buffer[s.popper.tail].Some?
    case StoreTail => s.popper.Copied?
  }

  function Apply<T>(s: Queue<T>, step: Step<T>): (r: Queue<T>)
    requires WellFormed(s) && Enabled(s, step)
    ensures WellFormed(r) && |r.buffer| == |s.buffer|
  {
    var cap := |s.buffer|;
    match step
    case LoadHead(item) => s.(pusher := HasHead(item, s.head))
    case CheckTail =>
      if NextOf(s.pusher.head, cap) == s.tail then s.(pusher := Refused)
      else s.(pusher := Ready(s.pusher.item, s.pusher.head))
    case Refuse => s.(pusher := Idle, dropped := s.dropped + 1)
    case WriteData => s.(pusher := Wrote(s.pusher.item, s.pusher.head),
                         buffer := s.buffer[s.pusher.head := Some(s.pusher.item)])
    case StoreHead => s.(pusher := Idle, head := NextOf(s.pusher.head, cap), pushed := s.pushed + [s.pusher.item])
    case LoadTail => s.(popper := HasTail(s.tail))
    case CheckHead => s.(popper := if s.popper.tail == s.head then Empty else Found(s.popper.tail))
    case GiveUp => s.(popper := Resting)
    case CopyItem => s.(popper := Copied(s.buffer[s.popper.tail].value, s.popper.tail))
    case StoreTail => s.(popper := Resting, tail := NextOf(s.popper.tail, cap), popped := s.popped + [s.popper.taken])
  }

  ghost predicate Init<T>(s: Queue<T>) {
    WellFormed(s) && s.head == s.tail == s.dropped == 0 && s.pusher.Idle? && s.popper.Resting?
      && s.pushed == s.popped == []
  }

  // What is in the queue: pushed and not yet popped.
  function Contents<T>(s: Queue<T>): seq<T> {
    if |s.popped| <= |s.pushed| then s.pushed[|s.popped|..] else []
  }

  ghost predicate PusherOk<T>(s: Queue<T>)
    requires WellFormed(s)
  {
    match s.pusher
    case Idle => true
    case HasHead(item, head) => head == s.head
    case Refused => true
    case Ready(item, head) => head == s.head && |Contents(s)| < |s.buffer| - 1
    case Wrote(item, head) => head == s.head && |Contents(s)| < |s.buffer| - 1 && s.buffer[head] == Some(item)
  }

  ghost predicate PopperOk<T>(s: Queue<T>)
    requires WellFormed(s)
  {
    match s.popper
    case Resting => true
    case HasTail(tail) => tail == s.tail
    case Empty => true
    case Found(tail) => tail == s.tail && Contents(s) != []
    case Copied(taken, tail) => tail == s.tail && Contents(s) != [] && taken == Contents(s)[0]
  }

  ghost predicate Holds<T>(s: Queue<T>, n: nat)
    requires WellFormed(s) && n < |s.pushed|
  {
    s.buffer[SlotOf(n, |s.buffer|)] == Some(s.pushed[n])
  }

  ghost predicate Inv<T>(s: Queue<T>) {
    && WellFormed(s) && s.popped <= s.pushed && |Contents(s)| <= |s.buffer| - 1
    && s.head == SlotOf(|s.pushed|, |s.buffer|) && s.tail == SlotOf(|s.popped|, |s.buffer|)
    && (forall n: nat | |s.popped| <= n < |s.pushed| :: Holds(s, n))
    && PusherOk(s) && PopperOk(s)
  }

  lemma InitKeepsInv<T>(s: Queue<T>)
    requires Init(s)
    ensures Inv(s)
  {
    SmallRemainder(0, |s.buffer|);
  }

  // What the index comparisons mean: one slot short of the ring is full, equal indices are empty.
  lemma IndicesTell<T>(s: Queue<T>)
    requires Inv(s)
    ensures NextOf(s.head, |s.buffer|) == s.tail <==> |Contents(s)| == |s.buffer| - 1
    ensures s.tail == s.head <==> Contents(s) == []
  {
    hide SlotOf, NextOf;
    var h, t, cap := |s.pushed|, |s.popped|, |s.buffer|;
    NextSlot(h, cap);
    if h + 1 == t + cap {
      SlotWraps(t, cap);
    } else {
      SlotsDiffer(t, h + 1, cap);
    }
    if t < h { SlotsDiffer(t, h, cap); }
  }

  // A push is refused exactly when, as it looked at the tail, the queue held one item less than it has slots.
  lemma RefusedWhenFull<T>(s: Queue<T>)
    requires Inv(s) && Enabled(s, CheckTail)
    ensures Apply(s, CheckTail).pusher.Refused? <==> |Contents(s)| == |s.buffer| - 1
  {
    IndicesTell(s);
  }

  // A pop comes away empty exactly when, as it looked at the head, nothing was in the queue.
  lemma EmptyWhenEmpty<T>(s: Queue<T>)
    requires Inv(s) && Enabled(s, CheckHead)
    ensures Apply(s, CheckHead).popper.Empty? <==> Contents(s) == []
  {
    IndicesTell(s);
  }

  // The slot at the head is not among those of the items in the queue.
  lemma HeadIsFree<T>(s: Queue<T>, n: nat)
    requires Inv(s) && |s.popped| <= n < |s.pushed|
    ensures SlotOf(n, |s.buffer|) != s.head
  {
    SlotsDiffer(n, |s.pushed|, |s.buffer|);
  }

  lemma PusherStepKeepsInv<T>(s: Queue<T>, step: Step<T>)
    requires Inv(s) && Enabled(s, step)
    requires step.LoadHead? || step.CheckTail? || step.Refuse? || step.WriteData? || step.StoreHead?
    ensures Inv(Apply(s, step))
  {
    hide SlotOf, NextOf;
    var r := Apply(s, step);
    IndicesTell(s);
    NextSlot(|s.pushed|, |s.buffer|);
    forall n: nat | |r.popped| <= n < |r.pushed| ensures Holds(r, n) {
      if n < |s.pushed| {
        assert Holds(s, n);
        HeadIsFree(s, n);
      }
    }
    assert step.StoreHead? ==> Contents(r) == Contents(s) + [s.pusher.item];
  }

  lemma PopperStepKeepsInv<T>(s: Queue<T>, step: Step<T>)
    requires Inv(s) && Enabled(s, step)
    requires step.LoadTail? || step.CheckHead? || step.GiveUp? || step.CopyItem? || step.StoreTail?
    ensures Inv(Apply(s, step))
  {
    hide SlotOf, NextOf;
    var r := Apply(s, step);
    IndicesTell(s);
    NextSlot(|s.popped|, |s.buffer|);
    forall n: nat | |r.popped| <= n < |r.pushed| ensures Holds(r, n) {
      assert Holds(s, n);
    }
    assert step.CopyItem? ==> Holds(s, |s.popped|);
    assert step.StoreTail? ==> Contents(r) == Contents(s)[1..];
  }

  // What a step does to the queue the ring stands for.
  datatype Effect<T> = Nothing | Enqueue(item: T) | Dequeue(item: T)

  function EffectOf<T>(s: Queue<T>, step: Step<T>): Effect<T>
    requires WellFormed(s) && Enabled(s, step)
  {
    match step
    case StoreHead => Enqueue(s.pusher.item)
    case StoreTail => Dequeue(s.popper.taken)
    case _ => Nothing
  }

  // A bounded first-in first-out queue.
  ghost predicate FifoStep<T>(contents: seq<T>, effect: Effect<T>, contents': seq<T>, bound: nat) {
    match effect
    case Nothing => contents' == contents
    case Enqueue(item) => |contents| < bound && contents' == contents + [item]
    case Dequeue(item) => contents != [] && item == contents[0] && contents' == contents[1..]
  }

  // Every step of either thread is a step of a FIFO queue bounded by one less than the slots.
  lemma StepRefinesFifo<T>(s: Queue<T>, step: Step<T>)
    requires Inv(s) && Enabled(s, step)
    ensures Inv(Apply(s, step))
    ensures FifoStep(Contents(s), EffectOf(s, step), Contents(Apply(s, step)), |s.buffer| - 1)
  {
    hide SlotOf, NextOf;
    if step.LoadHead? || step.CheckTail? || step.Refuse? || step.WriteData? || step.StoreHead? {
      PusherStepKeepsInv(s, step);
    } else {
      PopperStepKeepsInv(s, step);
    }
    IndicesTell(s);
  }

  // A thread in the middle of a call always has a next step, and never touches the slot the other one uses.
  lemma NeverStuck<T>(s: Queue<T>)
    requires Inv(s)
    ensures match s.pusher
            case Idle => true
            case HasHead(_, _) => Enabled(s, CheckTail)
            case Refused => Enabled(s, Refuse)
            case Ready(_, _) => Enabled(s, WriteData)
            case Wrote(_, _) => Enabled(s, StoreHead)
    ensures match s.popper
            case Resting => Enabled(s, LoadTail)
            case HasTail(_) => Enabled(s, CheckHead)
            case Empty => Enabled(s, GiveUp)
            case Found(_) => Enabled(s, CopyItem)
            case Copied(_, _) => Enabled(s, StoreTail)
    ensures s.pusher.Ready? && s.popper.Found? ==> s.pusher.head != s.popper.tail
  {
    hide SlotOf, NextOf;
    if Contents(s) != [] {
      assert Holds(s, |s.popped|);
      HeadIsFree(s, |s.popped|);
    }
  }
}
