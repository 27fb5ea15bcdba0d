/** The slab of orders and the doubly linked list that runs through it at every price level.

    `Listed` says that the list of a level is exactly a queue of the abstract book; each lemma is one
    of the book's list surgeries.  */
module OrderSlab {
  import opened Ladder
  import opened MarketTypes
  import opened OrderIds
  import opened PriceTimeBook
  import opened Totals

  // A value-initialised slot of the slab.
  const NO_ORDER := Order(0, 0, 0, BUY, 0, 0, false)

  function LinkTo(q: Queue, i: int): int {
    if 0 <= i < |q| then q[i].index else -1
  }

  // The i-th entry of the queue, as the slab stores it.
  function Stored(side: Side, price: int, q: Queue, i: int): Order
    requires 0 <= i < |q|
  {
    Order(MakeId(side, price, q[i].index), price, q[i].quantity, side, LinkTo(q, i - 1), LinkTo(q, i + 1), true)
  }

  ghost predicate EntryAt(pool: seq<Order>, side: Side, price: int, q: Queue, i: int)
    requires 0 <= i < |q|
  {
    0 <= q[i].index < |pool| && pool[q[i].index] == Stored(side, price, q, i)
  }

  // Slab indices grow along the queue: orders are listed in arrival order, each once.
  ghost predicate Arrival(q: Queue) {
    forall i, j | 0 <= i < j < |q| :: q[i].index < q[j].index
  }

  ghost predicate Listed(pool: seq<Order>, side: Side, v: PriceLevel, q: Queue) {
    && PositiveQueue(q) && Arrival(q)
    && (forall i | 0 <= i < |q| :: EntryAt(pool, side, v.price, q, i))
    && v.quantity == Sum(q) && v.head == LinkTo(q, 0) && v.tail == LinkTo(q, |q| - 1)
  }

  predicate StandsAt(o: Order, side: Side, price: int) {
    o.side == side && o.price == price
  }

  // Only orders of the level (side, price), or slots without an active order, were written.
  ghost predicate OnlyLevel(pool: seq<Order>, pool': seq<Order>, side: Side, price: int) {
    && |pool| <= |pool'|
    && (forall k | 0 <= k < |pool| && pool'[k] != pool[k] ::
          (pool[k].active ==> StandsAt(pool[k], side, price)) && StandsAt(pool'[k], side, price))
    && (forall k | |pool| <= k < |pool'| && pool'[k].active :: StandsAt(pool'[k], side, price))
  }

  ghost predicate NoneRevived(pool: seq<Order>, pool': seq<Order>) {
    |pool'| == |pool| && forall k | 0 <= k < |pool| && pool'[k].active :: pool[k].active
  }

  ghost predicate InQueue(q: Queue, k: int) {
    exists i | 0 <= i < |q| :: q[i].index == k
  }

  // Every active order of the level is in its queue.
  ghost predicate Complete(pool: seq<Order>, side: Side, price: int, q: Queue) {
    forall k | 0 <= k < |pool| && pool[k].active && StandsAt(pool[k], side, price) :: InQueue(q, k)
  }

  lemma OtherLevelKept(pool: seq<Order>, pool': seq<Order>, side: Side, price: int, s: Side, v: PriceLevel, q: Queue)
    requires Listed(pool, s, v, q) && OnlyLevel(pool, pool', side, price) && !(s == side && v.price == price)
    ensures Listed(pool', s, v, q)
  {
    forall i | 0 <= i < |q| ensures EntryAt(pool', s, v.price, q, i) {
      assert EntryAt(pool, s, v.price, q, i);
    }
  }

  lemma {:induction false} SumPositive(q: Queue)
    requires PositiveQueue(q)
    ensures 0 <= Sum(q) && (Sum(q) == 0 <==> q == [])
  {
    if q != [] {
      assert forall i | 0 <= i < |q[1..]| :: q[1..][i] == q[i + 1];
      SumPositive(q[1..]);
    }
  }

  lemma {:induction false} SumConcat(a: Queue, b: Queue)
    ensures Sum(a + b) == Sum(a) + Sum(b)
  {
    if a == [] {
      assert a + b == b;
    } else {
      assert (a + b)[1..] == a[1..] + b;
      SumConcat(a[1..], b);
    }
  }

  lemma OnlyLevelTransitive(a: seq<Order>, b: seq<Order>, c: seq<Order>, side: Side, price: int)
    requires OnlyLevel(a, b, side, price) && OnlyLevel(b, c, side, price)
    ensures OnlyLevel(a, c, side, price)
  {
    forall k | 0 <= k < |a| && c[k] != a[k]
      ensures (a[k].active ==> StandsAt(a[k], side, price)) && StandsAt(c[k], side, price)
    {
      if b[k] != a[k] { assert StandsAt(b[k], side, price); }
    }
  }

  // The head is filled completely: it leaves the list, and its successor becomes the head.
  function HeadFilled(pool: seq<Order>, i: int): seq<Order>
    requires 0 <= i < |pool| && -1 <= pool[i].next < |pool|
  {
    var n := pool[i].next;
    var dead := pool[i := pool[i].(active := false, quantity := 0)];
    if n != -1 then dead[n := dead[n].(prev := -1)] else dead
  }

  lemma HeadFilledKeeps(pool: seq<Order>, side: Side, v: PriceLevel, q: Queue, v': PriceLevel)
    requires Listed(pool, side, v, q) && q != []
    requires v' == v.(quantity := v.quantity - q[0].quantity, head := LinkTo(q, 1),
                      tail := if |q| == 1 then -1 else v.tail)
    ensures 0 <= q[0].index < |pool| && -1 <= pool[q[0].index].next < |pool|
    ensures Listed(HeadFilled(pool, q[0].index), side, v', q[1..])
    ensures OnlyLevel(pool, HeadFilled(pool, q[0].index), side, v.price)
    ensures Complete(pool, side, v.price, q) ==> Complete(HeadFilled(pool, q[0].index), side, v.price, q[1..])
  {
    assert EntryAt(pool, side, v.price, q, 0);
    if |q| > 1 { assert EntryAt(pool, side, v.price, q, 1); }
    var pool', t := HeadFilled(pool, q[0].index), q[1..];
    if Complete(pool, side, v.price, q) {
      forall k | 0 <= k < |pool'| && pool'[k].active && StandsAt(pool'[k], side, v.price) ensures InQueue(t, k) {
        assert pool[k].active && StandsAt(pool[k], side, v.price);
        var i :| 0 <= i < |q| && q[i].index == k;
        assert t[i - 1] == q[i];
      }
    }
    forall i | 0 <= i < |t| ensures EntryAt(pool', side, v'.price, t, i) {
      assert t[i] == q[i + 1];
      assert EntryAt(pool, side, v.price, q, i + 1);
    }
  }

  // The head is filled in part and stays.
  function HeadReduced(pool: seq<Order>, k: int, amount: int): seq<Order>
    requires 0 <= k < |pool|
  {
    pool[k := pool[k].(quantity := pool[k].quantity - amount)]
  }

  function ReducedQueue(q: Queue, amount: int): Queue
    requires q != []
  {
    [Resting(q[0].index, q[0].quantity - amount)] + q[1..]
  }

  lemma HeadReducedKeeps(pool: seq<Order>, side: Side, v: PriceLevel, q: Queue, amount: int)
    requires Listed(pool, side, v, q) && q != [] && 0 < amount < q[0].quantity
    ensures 0 <= q[0].index < |pool|
    ensures Listed(HeadReduced(pool, q[0].index, amount), side, v.(quantity := v.quantity - amount),
                   ReducedQueue(q, amount))
  {
    var t := ReducedQueue(q, amount);
    assert EntryAt(pool, side, v.price, q, 0);
    assert t[1..] == q[1..];
    assert forall i | 0 <= i < |q| :: t[i].index == q[i].index;
    forall i | 0 <= i < |t| ensures EntryAt(HeadReduced(pool, q[0].index, amount), side, v.price, t, i) {
      assert EntryAt(pool, side, v.price, q, i);
    }
  }

  lemma HeadReducedTouches(pool: seq<Order>, side: Side, v: PriceLevel, q: Queue, amount: int)
    requires Listed(pool, side, v, q) && q != [] && Complete(pool, side, v.price, q) && 0 <= q[0].index < |pool|
    ensures OnlyLevel(pool, HeadReduced(pool, q[0].index, amount), side, v.price)
    ensures Complete(HeadReduced(pool, q[0].index, amount), side, v.price, ReducedQueue(q, amount))
  {
    var pool', t := HeadReduced(pool, q[0].index, amount), ReducedQueue(q, amount);
    assert EntryAt(pool, side, v.price, q, 0);
    forall j | 0 <= j < |pool'| && pool'[j].active && StandsAt(pool'[j], side, v.price) ensures InQueue(t, j) {
      assert pool[j].active && StandsAt(pool[j], side, v.price);
      var i :| 0 <= i < |q| && q[i].index == j;
      assert t[i].index == j;
    }
  }

  // A new order, already stored at index k, joins the back.
  function Appended(pool: seq<Order>, v: PriceLevel, k: int): seq<Order>
    requires 0 <= k < |pool| && -1 <= v.tail < |pool|
  {
    var p := pool[k := pool[k].(prev := v.tail)];
    if v.tail != -1 then p[v.tail := p[v.tail].(next := k)] else p
  }

  lemma AppendKeeps(pool: seq<Order>, side: Side, v: PriceLevel, q: Queue, k: int, quantity: int, v': PriceLevel)
    requires Listed(pool, side, v, q) && 0 <= k < |pool| && 0 < quantity
    requires pool[k] == Order(MakeId(side, v.price, k), v.price, quantity, side, -1, -1, true)
    requires forall i | 0 <= i < |q| :: q[i].index < k
    requires v' == v.(quantity := v.quantity + quantity, tail := k, head := if v.tail == -1 then k else v.head)
    ensures -1 <= v.tail < |pool|
    ensures Listed(Appended(pool, v, k), side, v', q + [Resting(k, quantity)])
    ensures OnlyLevel(pool, Appended(pool, v, k), side, v.price)
    ensures (forall j | 0 <= j < |pool| && j != k && pool[j].active && StandsAt(pool[j], side, v.price) ::
             InQueue(q, j)) ==>
              Complete(Appended(pool, v, k), side, v.price, q + [Resting(k, quantity)])
  {
    var t := q + [Resting(k, quantity)];
    SumConcat(q, [Resting(k, quantity)]);
    if q != [] { assert EntryAt(pool, side, v.price, q, |q| - 1); }
    var pool' := Appended(pool, v, k);
    if forall j | 0 <= j < |pool| && j != k && pool[j].active && StandsAt(pool[j], side, v.price) :: InQueue(q, j) {
      forall j | 0 <= j < |pool'| && pool'[j].active && StandsAt(pool'[j], side, v.price) ensures InQueue(t, j) {
        if j == k {
          assert t[|q|].index == k;
        } else {
          assert pool[j].active && StandsAt(pool[j], side, v.price);
          var i :| 0 <= i < |q| && q[i].index == j;
          assert t[i].index == j;
        }
      }
    }
    forall i | 0 <= i < |t| ensures EntryAt(pool', side, v.price, t, i) {
      if i < |q| { assert EntryAt(pool, side, v.price, q, i); }
    }
  }

  // The order at index k leaves its list.
  function Unlinked(pool: seq<Order>, k: int): seq<Order>
    requires 0 <= k < |pool| && -1 <= pool[k].prev < |pool| && -1 <= pool[k].next < |pool|
  {
    var a, b := pool[k].prev, pool[k].next;
    var p := pool[k := pool[k].(active := false)];
    var p' := if a != -1 then p[a := p[a].(next := b)] else p;
    if b != -1 then p'[b := p'[b].(prev := a)] else p'
  }

  lemma UnlinkKeeps(pool: seq<Order>, side: Side, v: PriceLevel, q: Queue, j: int, v': PriceLevel)
    requires Listed(pool, side, v, q) && 0 <= j < |q|
    requires v' == v.(quantity := v.quantity - q[j].quantity,
                      head := if j == 0 then LinkTo(q, 1) else v.head,
                      tail := if j == |q| - 1 then LinkTo(q, j - 1) else v.tail)
    ensures var k := q[j].index; 0 <= k < |pool| && -1 <= pool[k].prev < |pool| && -1 <= pool[k].next < |pool|
    ensures Listed(Unlinked(pool, q[j].index), side, v', q[..j] + q[j + 1..])
  {
    var t := q[..j] + q[j + 1..];
    assert EntryAt(pool, side, v.price, q, j);
    if j > 0 { assert EntryAt(pool, side, v.price, q, j - 1); }
    if j + 1 < |q| { assert EntryAt(pool, side, v.price, q, j + 1); }
    WithoutOne(q, j);
    forall i | 0 <= i < |t| ensures EntryAt(Unlinked(pool, q[j].index), side, v.price, t, i) {
      UnlinkEntry(pool, side, v, q, j, i);
    }
  }

  // The level an order has left.
  function LevelWithout(v: PriceLevel, order: Order): PriceLevel {
    v.(quantity := v.quantity - order.quantity, head := if order.prev == -1 then order.next else v.head,
       tail := if order.next == -1 then order.prev else v.tail)
  }

  lemma LevelWithoutEntry(pool: seq<Order>, side: Side, v: PriceLevel, q: Queue, j: int)
    requires Listed(pool, side, v, q) && 0 <= j < |q|
    ensures var k := q[j].index;
            && 0 <= k < |pool| && -1 <= pool[k].prev < |pool| && -1 <= pool[k].next < |pool|
            && LevelWithout(v, pool[k]) == v.(quantity := v.quantity - q[j].quantity,
                                              head := if j == 0 then LinkTo(q, 1) else v.head,
                                              tail := if j == |q| - 1 then LinkTo(q, j - 1) else v.tail)
  {
    assert EntryAt(pool, side, v.price, q, j);
    if j > 0 { assert EntryAt(pool, side, v.price, q, j - 1); }
    if j + 1 < |q| { assert EntryAt(pool, side, v.price, q, j + 1); }
  }

  // Detaching an order leaves the list of the others, and touches no other level.
  lemma DetachKeeps(pool: seq<Order>, side: Side, v: PriceLevel, q: Queue, j: int)
    requires Listed(pool, side, v, q) && Complete(pool, side, v.price, q) && 0 <= j < |q|
    ensures var k := q[j].index;
            && 0 <= k < |pool| && -1 <= pool[k].prev < |pool| && -1 <= pool[k].next < |pool|
            && Listed(Unlinked(pool, k), side, LevelWithout(v, pool[k]), q[..j] + q[j + 1..])
            && Complete(Unlinked(pool, k), side, v.price, q[..j] + q[j + 1..])
            && OnlyLevel(pool, Unlinked(pool, k), side, v.price) && NoneRevived(pool, Unlinked(pool, k))
  {
    hide Listed, Complete, OnlyLevel, EntryAt;
    LevelWithoutEntry(pool, side, v, q, j);
    UnlinkKeeps(pool, side, v, q, j, LevelWithout(v, pool[q[j].index]));
    UnlinkTouches(pool, side, v, q, j);
  }

  lemma UnlinkTouches(pool: seq<Order>, side: Side, v: PriceLevel, q: Queue, j: int)
    requires Listed(pool, side, v, q) && 0 <= j < |q| && Complete(pool, side, v.price, q)
    requires var k := q[j].index; 0 <= k < |pool| && -1 <= pool[k].prev < |pool| && -1 <= pool[k].next < |pool|
    ensures OnlyLevel(pool, Unlinked(pool, q[j].index), side, v.price)
    ensures Complete(Unlinked(pool, q[j].index), side, v.price, q[..j] + q[j + 1..])
  {
    var pool', t := Unlinked(pool, q[j].index), q[..j] + q[j + 1..];
    assert EntryAt(pool, side, v.price, q, j);
    if j > 0 { assert EntryAt(pool, side, v.price, q, j - 1); }
    if j + 1 < |q| { assert EntryAt(pool, side, v.price, q, j + 1); }
    forall k | 0 <= k < |pool'| && pool'[k].active && StandsAt(pool'[k], side, v.price) ensures InQueue(t, k) {
      assert pool[k].active && StandsAt(pool[k], side, v.price);
      var i :| 0 <= i < |q| && q[i].index == k;
      assert t[if i < j then i else i - 1].index == k;
    }
  }

  lemma WithoutOne(q: Queue, j: int)
    requires 0 <= j < |q| && PositiveQueue(q) && Arrival(q)
    ensures var t := q[..j] + q[j + 1..];
            && PositiveQueue(t) && Arrival(t) && Sum(t) == Sum(q) - q[j].quantity
            && LinkTo(t, 0) == (if j == 0 then LinkTo(q, 1) else LinkTo(q, 0))
            && LinkTo(t, |t| - 1) == (if j == |q| - 1 then LinkTo(q, j - 1) else LinkTo(q, |q| - 1))
  {
    SumWithout(q, j);
    var t := q[..j] + q[j + 1..];
    assert forall i | 0 <= i < |t| :: t[i] == q[if i < j then i else i + 1];
  }

  lemma SumWithout(q: Queue, j: int)
    requires 0 <= j < |q|
    ensures Sum(q[..j] + q[j + 1..]) == Sum(q) - q[j].quantity
  {
    SumConcat(q[..j], q[j + 1..]);
    SumConcat(q[..j], q[j..]);
    assert q == q[..j] + q[j..] && q[j..][1..] == q[j + 1..];
  }

  lemma UnlinkEntry(pool: seq<Order>, side: Side, v: PriceLevel, q: Queue, j: int, i: int)
    requires Listed(pool, side, v, q) && 0 <= j < |q| && 0 <= i < |q| - 1
    requires var k := q[j].index; 0 <= k < |pool| && -1 <= pool[k].prev < |pool| && -1 <= pool[k].next < |pool|
    ensures EntryAt(Unlinked(pool, q[j].index), side, v.price, q[..j] + q[j + 1..], i)
  {
    assert EntryAt(pool, side, v.price, q, j);
    assert EntryAt(pool, side, v.price, q, if i < j then i else i + 1);
  }

  // Every level of the side lists exactly the queue of the abstract book.
  ghost predicate SideLinked(pool: seq<Order>, side: Side, levels: map<int, PriceLevel>, qs: Queues) {
    && levels.Keys == qs.Keys
    && forall p | p in qs :: qs[p] != [] && levels[p].price == p && Listed(pool, side, levels[p], qs[p])
  }

  // The order at index k carries the k-th id issued, and that id spells out its side, price and index.
  ghost predicate Known(o: Order, k: int, issued: seq<int>) {
    1 <= k <= |issued| && o.id == issued[k - 1] == MakeId(o.side, o.price, k)
  }

  // Every active order is queued at its own price, under the id it was issued.
  ghost predicate AllQueued(pool: seq<Order>, b: Book) {
    forall k | 0 <= k < |pool| && pool[k].active ::
      Known(pool[k], k, b.issued) && InQueue(QueueAt(b.Of(pool[k].side), pool[k].price), k)
  }

  lemma SideRelinked(pool: seq<Order>, pool': seq<Order>, side: Side, price: int, levels: map<int, PriceLevel>,
                     levels': map<int, PriceLevel>, qs: Queues, q: Queue, v: PriceLevel)
    requires SideLinked(pool, side, levels, qs) && OnlyLevel(pool, pool', side, price)
    requires v.price == price && Listed(pool', side, v, q)
    requires levels' == if v.quantity == 0 then levels - {price} else levels[price := v]
    ensures SideLinked(pool', side, levels', WithQueue(qs, price, q))
  {
    SumPositive(q);
    var qs' := WithQueue(qs, price, q);
    assert levels'.Keys == qs'.Keys;
    forall p | p in qs' ensures qs'[p] != [] && levels'[p].price == p && Listed(pool', side, levels'[p], qs'[p]) {
      if p != price { OtherLevelKept(pool, pool', side, price, side, levels[p], qs[p]); }
    }
  }

  lemma OtherSideKept(pool: seq<Order>, pool': seq<Order>, side: Side, price: int, levels: map<int, PriceLevel>,
                      qs: Queues)
    requires SideLinked(pool, Opposite(side), levels, qs) && OnlyLevel(pool, pool', side, price)
    ensures SideLinked(pool', Opposite(side), levels, qs)
  {
    forall p | p in qs ensures Listed(pool', Opposite(side), levels[p], qs[p]) {
      OtherLevelKept(pool, pool', side, price, Opposite(side), levels[p], qs[p]);
    }
  }

  lemma StillQueued(pool: seq<Order>, pool': seq<Order>, side: Side, v: PriceLevel, b: Book, q: Queue, issued: seq<int>)
    requires AllQueued(pool, b) && OnlyLevel(pool, pool', side, v.price)
    requires Listed(pool', side, v, q) && Complete(pool', side, v.price, q) && b.issued <= issued
    requires forall k | 0 <= k < |pool'| && pool'[k].active && (k >= |pool| || !pool[k].active) ::
               Known(pool'[k], k, issued)
    ensures AllQueued(pool', b.With(side, WithQueue(b.Of(side), v.price, q)).(issued := issued))
  {
    var b' := b.With(side, WithQueue(b.Of(side), v.price, q)).(issued := issued);
    forall k | 0 <= k < |pool'| && pool'[k].active
      ensures Known(pool'[k], k, issued) && InQueue(QueueAt(b'.Of(pool'[k].side), pool'[k].price), k)
    {
      if StandsAt(pool'[k], side, v.price) {
        assert QueueAt(b'.Of(side), v.price) == q;
        var i :| 0 <= i < |q| && q[i].index == k;
        assert EntryAt(pool', side, v.price, q, i);
        if k < |pool| && pool[k].active { assert Known(pool[k], k, b.issued); }
      } else {
        assert pool'[k] == pool[k] && Known(pool[k], k, b.issued);
        assert QueueAt(b'.Of(pool[k].side), pool[k].price) == QueueAt(b.Of(pool[k].side), pool[k].price);
      }
    }
  }

  // The lists of both sides are the queues of the abstract book, and no active order is missing.
  ghost predicate BookLinked(pool: seq<Order>, bids: map<int, PriceLevel>, asks: map<int, PriceLevel>, b: Book) {
    SideLinked(pool, BUY, bids, b.bids) && SideLinked(pool, SELL, asks, b.asks) && AllQueued(pool, b)
  }

  // A level after it was written back; an empty one goes.
  function Updated(levels: map<int, PriceLevel>, v: PriceLevel): map<int, PriceLevel> {
    if v.quantity == 0 then levels - {v.price} else levels[v.price := v]
  }

  lemma Relinked(pool: seq<Order>, pool': seq<Order>, bids: map<int, PriceLevel>, asks: map<int, PriceLevel>, b: Book,
                 side: Side, v: PriceLevel, q: Queue, issued: seq<int>)
    requires BookLinked(pool, bids, asks, b) && OnlyLevel(pool, pool', side, v.price) && b.issued <= issued
    requires Listed(pool', side, v, q) && Complete(pool', side, v.price, q)
    requires forall k | 0 <= k < |pool'| && pool'[k].active && (k >= |pool| || !pool[k].active) ::
               Known(pool'[k], k, issued)
    ensures BookLinked(pool', if side == BUY then Updated(bids, v) else bids,
                       if side == SELL then Updated(asks, v) else asks,
                       b.With(side, WithQueue(b.Of(side), v.price, q)).(issued := issued))
  {
    StillQueued(pool, pool', side, v, b, q, issued);
    if side == BUY {
      SideRelinked(pool, pool', BUY, v.price, bids, Updated(bids, v), b.bids, q, v);
      OtherSideKept(pool, pool', BUY, v.price, asks, b.asks);
    } else {
      SideRelinked(pool, pool', SELL, v.price, asks, Updated(asks, v), b.asks, q, v);
      OtherSideKept(pool, pool', SELL, v.price, bids, b.bids);
    }
  }

  // The slab grown so that index k exists, with a new order stored there, not linked yet.
  ghost predicate Grown(pool: seq<Order>, pool': seq<Order>, k: int, o: Order) {
    && 0 <= k < |pool'| && |pool| <= |pool'| && pool'[k] == o
    && (forall i | 0 <= i < |pool| && i != k :: pool'[i] == pool[i])
    && (forall i | |pool| <= i < |pool'| && i != k :: !pool'[i].active)
  }

  // Storing a new order and linking it at the back of its level.
  lemma GrownAndLinked(pool: seq<Order>, pool': seq<Order>, bids: map<int, PriceLevel>, asks: map<int, PriceLevel>,
                       b: Book,
                       side: Side, price: int, quantity: int, v: PriceLevel)
    requires BookLinked(pool, bids, asks, b) && 0 < quantity && v.price == price
    requires Grown(pool, pool', b.NextIndex(),
                   Order(MakeId(side, price, b.NextIndex()), price, quantity, side, -1, -1, true))
    requires var levels := if side == BUY then bids else asks;
             if price in levels then v == levels[price] else v == PriceLevel(price, 0, -1, -1)
    ensures -1 <= v.tail < |pool'| && b.NextIndex() < |pool'|
    ensures var b' := WithResting(b, side, price, quantity);
            && 0 < Sum(QueueAt(b'.Of(side), price)) == v.quantity + quantity
            && BookLinked(Appended(pool', v, b.NextIndex()),
                          if side == BUY then bids[price := Extended(v, quantity, b.NextIndex())] else bids,
                          if side == SELL then asks[price := Extended(v, quantity, b.NextIndex())] else asks, b')
  {
    hide AllQueued, Complete, EntryAt;
    var k, q := b.NextIndex(), QueueAt(b.Of(side), price);
    var v' := PriceLevel(price, v.quantity + quantity, if v.tail == -1 then k else v.head, k);
    GrownKeeps(pool, pool', bids, asks, b, side, price, quantity, v);
    AppendKeeps(pool', side, v, q, k, quantity, v');
    var pool'' := Appended(pool', v, k);
    OnlyLevelTransitive(pool, pool', pool'', side, price);
    SumPositive(q + [Resting(k, quantity)]);
    assert Listed(pool'', side, v', q + [Resting(k, quantity)]);
    Relinked(pool, pool'', bids, asks, b, side, v', q + [Resting(k, quantity)], b.issued + [MakeId(side, price, k)]);
  }

  lemma GrownKeeps(pool: seq<Order>, pool': seq<Order>, bids: map<int, PriceLevel>, asks: map<int, PriceLevel>, b: Book,
                   side: Side, price: int, quantity: int, v: PriceLevel)
    requires BookLinked(pool, bids, asks, b) && 0 < quantity && v.price == price
    requires Grown(pool, pool', b.NextIndex(),
                   Order(MakeId(side, price, b.NextIndex()), price, quantity, side, -1, -1, true))
    requires var levels := if side == BUY then bids else asks;
             if price in levels then v == levels[price] else v == PriceLevel(price, 0, -1, -1)
    ensures var k, q := b.NextIndex(), QueueAt(b.Of(side), price);
            && OnlyLevel(pool, pool', side, price) && Listed(pool', side, v, q)
               && (forall i | 0 <= i < |q| :: q[i].index < k)
            && (forall j | 0 <= j < |pool'| && j != k && pool'[j].active && StandsAt(pool'[j], side, price) ::
                InQueue(q, j))
  {
    var k, q := b.NextIndex(), QueueAt(b.Of(side), price);
    if q != [] { assert Listed(pool, side, v, q); }
    forall i | 0 <= i < |q| ensures q[i].index < k && EntryAt(pool', side, price, q, i) {
      assert EntryAt(pool, side, price, q, i);
    }
    forall j | 0 <= j < |pool'| && j != k && pool'[j].active && StandsAt(pool'[j], side, price) ensures InQueue(q, j) {
      assert pool'[j] == pool[j];
    }
  }

  // A linked level has a positive quantity: the sum of its queue.
  lemma LinkedQuantities(pool: seq<Order>, side: Side, levels: map<int, PriceLevel>, qs: Queues)
    requires SideLinked(pool, side, levels, qs)
    ensures forall p | p in levels :: p in qs && 0 < levels[p].quantity == Sum(qs[p])
    ensures Quantities(levels) == Sums(qs) && Positive(Sums(qs))
  {
    forall p | p in levels ensures p in qs && 0 < levels[p].quantity == Sum(qs[p]) {
      assert p in levels.Keys;
      assert Listed(pool, side, levels[p], qs[p]);
      SumPositive(qs[p]);
    }
  }

  // A level with a new order behind its tail.
  function Extended(v: PriceLevel, quantity: int, k: int): PriceLevel {
    PriceLevel(v.price, v.quantity + quantity, if v.tail == -1 then k else v.head, k)
  }

  lemma TailsInRange(pool: seq<Order>, side: Side, levels: map<int, PriceLevel>, qs: Queues)
    requires SideLinked(pool, side, levels, qs)
    ensures forall p | p in levels :: -1 <= levels[p].tail < |pool|
  {
    forall p | p in levels ensures -1 <= levels[p].tail < |pool| {
      assert Listed(pool, side, levels[p], qs[p]);
      assert EntryAt(pool, side, p, qs[p], |qs[p]| - 1);
    }
  }

  lemma SoundQueues(pool: seq<Order>, side: Side, levels: map<int, PriceLevel>, qs: Queues)
    requires SideLinked(pool, side, levels, qs)
    ensures Sound(qs)
  {
    forall p | p in qs ensures qs[p] != [] && PositiveQueue(qs[p]) {
      assert Listed(pool, side, levels[p], qs[p]);
    }
  }

  lemma ListedSum(pool: seq<Order>, side: Side, v: PriceLevel, q: Queue)
    requires Listed(pool, side, v, q)
    ensures v.quantity == Sum(q) && 0 <= Sum(q) && (q == [] <==> Sum(q) == 0)
  {
    SumPositive(q);
  }

  // A queued order carries the id that its side, price and index make up.
  lemma QueuedIsMade(pool: seq<Order>, bids: map<int, PriceLevel>, asks: map<int, PriceLevel>, b: Book,
                     side: Side, price: int, i: int)
    requires BookLinked(pool, bids, asks, b) && price in b.Of(side) && 0 <= i < |b.Of(side)[price]|
    ensures var k := b.Of(side)[price][i].index; 0 <= k < |pool| && pool[k].id == MakeId(side, price, k)
  {
    var q := b.Of(side)[price];
    assert Listed(pool, side, (if side == BUY then bids else asks)[price], q);
    assert EntryAt(pool, side, price, q, i);
  }

  // An id whose index is not an active order's names no queued order.
  lemma NotQueued(pool: seq<Order>, bids: map<int, PriceLevel>, asks: map<int, PriceLevel>, b: Book, id: int)
    requires BookLinked(pool, bids, asks, b)
    requires var k := IdIndex(id); k >= |pool| || !pool[k].active
    ensures !Queued(b.Of(IdSide(id)), IdPrice(id), IdIndex(id))
  {
    var side, price, k := IdSide(id), IdPrice(id), IdIndex(id);
    var q := QueueAt(b.Of(side), price);
    forall i | 0 <= i < |q| ensures q[i].index != k {
      assert Listed(pool, side, (if side == BUY then bids else asks)[price], q);
      assert EntryAt(pool, side, price, q, i);
    }
  }

  // An active order's own id leads to its queue, at one position.
  lemma OwnIdIsQueued(pool: seq<Order>, bids: map<int, PriceLevel>, asks: map<int, PriceLevel>, b: Book, id: int)
    returns (i: int)
    requires BookLinked(pool, bids, asks, b)
    requires var k := IdIndex(id); 0 <= k < |pool| && pool[k].active && pool[k].id == id
    requires Legal(bids.Keys) && Legal(asks.Keys) && b.NextIndex() <= TWO_31
    ensures var side, price, k := IdSide(id), IdPrice(id), IdIndex(id);
            var qs := b.Of(side);
            var levels := if side == BUY then bids else asks;
            && price in qs && 0 <= i < |qs[price]| && qs[price][i].index == k
            && price in levels && Listed(pool, side, levels[price], qs[price]) && Complete(pool, side, price, qs[price])
            && Cancelled(b, id) == (b.With(side, WithQueue(qs, price, qs[price][..i] + qs[price][i + 1..])), true)
  {
    var k := IdIndex(id);
    var side, price := pool[k].side, pool[k].price;
    var q := QueueAt(b.Of(side), price);
    assert InQueue(q, k);
    i :| 0 <= i < |q| && q[i].index == k;
    assert Listed(pool, side, (if side == BUY then bids else asks)[price], q);
    assert EntryAt(pool, side, price, q, i);
    assert price in (if side == BUY then bids else asks).Keys;
    IdRoundTrip(side, price, k);
  }
}
