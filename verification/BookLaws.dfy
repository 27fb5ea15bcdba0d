/** What price-time priority promises, stated on the abstract book: how deep a sweep goes, what each
    level and each order gives, and what every run of requests keeps.  */
module BookLaws {
  import opened MarketTypes
  import opened OrderIds
  import opened OrderedKeys
  import opened PriceTimeBook
  import opened Totals

  function Max0(x: int): int {
    if x < 0 then 0 else x
  }

  function Least(x: int, y: int): int {
    if x < y then x else y
  }

  // A level gives the lesser of what it has and what is wanted, and empties only when it gives all.
  lemma {:induction false} MatchAmount(q: Queue, want: int)
    requires PositiveQueue(q) && 0 <= want
    ensures var (q', rest) := MatchQueue(q, want);
            && rest == Max0(want - Sum(q)) && Sum(q') == Max0(Sum(q) - want) && PositiveQueue(q')
            && (q' == [] <==> Sum(q) <= want)
  {
    if q != [] {
      Tail(q);
      Nonnegative(q[1..]);
      if want >= q[0].quantity {
        MatchAmount(q[1..], want - q[0].quantity);
      } else if want > 0 {
        assert ([Resting(q[0].index, q[0].quantity - want)] + q[1..])[1..] == q[1..];
      } else {
        Nonnegative(q);
      }
    }
  }

  lemma Tail(q: Queue)
    requires q != [] && PositiveQueue(q)
    ensures PositiveQueue(q[1..])
  {
    assert forall i | 0 <= i < |q[1..]| :: q[1..][i] == q[i + 1];
  }

  lemma {:induction false} Nonnegative(q: Queue)
    requires PositiveQueue(q)
    ensures 0 <= Sum(q) && (q != [] ==> 0 < Sum(q))
  {
    if q != [] {
      Tail(q);
      Nonnegative(q[1..]);
    }
  }

  // The quantity a queue still holds for the order at an index.
  function LeftOf(q: Queue, index: int): int {
    if q == [] then 0 else if q[0].index == index then q[0].quantity else LeftOf(q[1..], index)
  }

  ghost predicate DistinctIndices(q: Queue) {
    forall i, j | 0 <= i < j < |q| :: q[i].index != q[j].index
  }

  lemma {:induction false} NotListed(q: Queue, index: int)
    requires forall i | 0 <= i < |q| :: q[i].index != index
    ensures LeftOf(q, index) == 0
  {
    if q != [] {
      assert forall i | 0 <= i < |q[1..]| :: q[1..][i] == q[i + 1];
      NotListed(q[1..], index);
    }
  }

  // First come, first served: an order gives up exactly what is still wanted after all orders before it.
  lemma {:induction false} TimePriority(q: Queue, want: int, i: nat)
    requires PositiveQueue(q) && DistinctIndices(q) && 0 <= want && i < |q|
    ensures LeftOf(MatchQueue(q, want).0, q[i].index) == q[i].quantity - Least(q[i].quantity, Max0(want - Sum(q[..i])))
  {
    var t := q[1..];
    Tail(q);
    assert forall j | 0 <= j < |t| :: t[j] == q[j + 1];
    if want > 0 && want >= q[0].quantity {
      if i == 0 {
        NotListed(t, q[0].index);
        MatchSublist(t, want - q[0].quantity, q[0].index);
      } else {
        TimePriority(t, want - q[0].quantity, i - 1);
        assert q[..i][1..] == t[..i - 1];
      }
    } else {
      hide LeftOf;
      var q' := if want > 0 then [Resting(q[0].index, q[0].quantity - want)] + t else q;
      assert q'[1..] == t && forall j | 0 < j < |q| :: q'[j] == q[j];
      LeftOfEntry(q', i);
      PrefixSum(q, i);
    }
  }

  lemma {:induction false} LeftOfEntry(q: Queue, i: nat)
    requires DistinctIndices(q) && i < |q|
    ensures LeftOf(q, q[i].index) == q[i].quantity
  {
    if i > 0 {
      assert forall j | 0 <= j < |q[1..]| :: q[1..][j] == q[j + 1];
      LeftOfEntry(q[1..], i - 1);
    }
  }

  lemma PrefixSum(q: Queue, i: nat)
    requires PositiveQueue(q) && 0 < |q| && i <= |q|
    ensures 0 <= Sum(q[..i]) && (i > 0 ==> q[0].quantity <= Sum(q[..i]))
  {
    Nonnegative(q[..i]);
    if i > 0 {
      assert q[..i][1..] == q[1..][..i - 1];
      Tail(q);
      Nonnegative(q[1..][..i - 1]);
    }
  }

  lemma {:induction false} MatchSublist(q: Queue, want: int, index: int)
    requires forall i | 0 <= i < |q| :: q[i].index != index
    ensures LeftOf(MatchQueue(q, want).0, index) == 0
  {
    NotListed(q, index);
    if want > 0 && q != [] {
      assert forall i | 0 <= i < |q[1..]| :: q[1..][i] == q[i + 1];
      if want >= q[0].quantity {
        MatchSublist(q[1..], want - q[0].quantity, index);
      } else {
        var q' := [Resting(q[0].index, q[0].quantity - want)] + q[1..];
        assert q'[1..] == q[1..];
        NotListed(q[1..], index);
      }
    }
  }

  // The prices with priority over p.
  ghost function Ahead(side: Side, prices: set<int>, p: int): set<int> {
    set r | r in prices && Better(side, r, p)
  }

  ghost function VolumeAhead(side: Side, qs: Queues, p: int): int {
    Total(Sums(qs), Ahead(side, qs.Keys, p))
  }

  ghost function LevelSum(qs: Queues, p: int): int {
    Sum(QueueAt(qs, p))
  }

  // What is left without one level.
  lemma WithoutLevel(qs: Queues, p: int, prices: set<int>)
    requires p in prices && prices <= qs.Keys
    ensures prices - {p} <= (qs - {p}).Keys
            && Total(Sums(qs), prices) == Sum(qs[p]) + Total(Sums(qs - {p}), prices - {p})
  {
    assert prices - {p} <= (qs - {p}).Keys;
    assert prices == prices - {p} + {p};
    TotalAdd(Sums(qs), prices - {p}, p);
    TotalAgrees(Sums(qs), Sums(qs - {p}), prices - {p});
  }

  // What a level gives up: what is still wanted after all better levels, if the limit admits it.
  ghost function Given(side: Side, kind: OrderType, limit: int, qs: Queues, want: int, p: int): int {
    if Admits(side, kind, limit, p) then Least(LevelSum(qs, p), Max0(want - VolumeAhead(Opposite(side), qs, p))) else 0
  }

  // Price priority, level by level.
  lemma {:induction false} PricePriority(side: Side, kind: OrderType, limit: int, qs: Queues, want: int, p: int)
    requires Sound(qs) && 0 <= want && p in qs
    ensures LevelSum(Sweep(side, kind, limit, qs, want).left, p) ==
              LevelSum(qs, p) - Given(side, kind, limit, qs, want, p)
    decreases |qs|
  {
    hide First, PositiveQueue;
    var b := First(Opposite(side), qs.Keys).value;
    AheadNonnegative(Opposite(side), qs, p);
    Nonnegative(qs[p]);
    if want == 0 || !Admits(side, kind, limit, b) {
      SweepEnds(side, kind, limit, qs, want);
    } else {
      var (q, rest) := MatchQueue(qs[b], want);
      MatchAmount(qs[b], want);
      SweepStep(side, kind, limit, qs, want, b, q, rest);
      if q == [] {
        if p == b {
          Untouched(side, kind, limit, qs - {b}, rest, b);
        } else {
          PricePriority(side, kind, limit, qs - {b}, rest, p);
        }
      }
      GivenStep(side, kind, limit, qs, want, b, p);
    }
  }

  // The best level gives first; behind it, the same question is asked of the rest.
  lemma GivenStep(side: Side, kind: OrderType, limit: int, qs: Queues, want: int, b: int, p: int)
    requires Sound(qs) && 0 < want && p in qs && First(Opposite(side), qs.Keys) == Some(b)
             && Admits(side, kind, limit, b)
    ensures Given(side, kind, limit, qs, want, p) ==
            if p == b then Least(Sum(qs[b]), want)
            else if Sum(qs[b]) <= want then Given(side, kind, limit, qs - {b}, want - Sum(qs[b]), p)
            else 0
  {
    var t := Opposite(side);
    Nonnegative(qs[p]);
    if p == b {
      assert Ahead(t, qs.Keys, p) == {};
    } else {
      WithoutLevel(qs, b, Ahead(t, qs.Keys, p));
      assert Ahead(t, qs.Keys, p) - {b} == Ahead(t, (qs - {b}).Keys, p);
      AheadNonnegative(t, qs - {b}, p);
    }
  }

  lemma AheadNonnegative(side: Side, qs: Queues, p: int)
    requires Sound(qs)
    ensures 0 <= VolumeAhead(side, qs, p) && Positive(Sums(qs))
  {
    forall r | r in qs ensures 0 < Sum(qs[r]) { Nonnegative(qs[r]); }
    TotalNonNegative(Sums(qs), Ahead(side, qs.Keys, p));
  }

  // A sweep never brings a price back.
  lemma {:induction false} Untouched(side: Side, kind: OrderType, limit: int, qs: Queues, want: int, p: int)
    requires p !in qs
    ensures p !in Sweep(side, kind, limit, qs, want).left
    decreases |qs|
  {
    if want > 0 && qs != map[] {
      var b := First(Opposite(side), qs.Keys).value;
      if Admits(side, kind, limit, b) && MatchQueue(qs[b], want).0 == [] {
        Untouched(side, kind, limit, qs - {b}, MatchQueue(qs[b], want).1, p);
      }
    }
  }

  // The depth an order sees: everything for a market order, the levels within the limit otherwise.
  ghost function Reach(side: Side, kind: OrderType, limit: int, qs: Queues): int {
    if kind == MARKET then Volume(qs) else Depth(Opposite(side), Sums(qs), limit)
  }

  // The sweep in closed form: it takes the lesser of what is wanted and what is in reach.
  lemma {:induction false} SweepReach(side: Side, kind: OrderType, limit: int, qs: Queues, want: int)
    requires Sound(qs) && 0 <= want
    ensures Sweep(side, kind, limit, qs, want).want == Max0(want - Reach(side, kind, limit, qs))
    decreases |qs|
  {
    ReachStep(side, kind, limit, qs);
    if want == 0 || qs == map[] || !Admits(side, kind, limit, First(Opposite(side), qs.Keys).value) {
      SweepEnds(side, kind, limit, qs, want);
    } else {
      var b := First(Opposite(side), qs.Keys).value;
      var (q, rest) := MatchQueue(qs[b], want);
      MatchAmount(qs[b], want);
      SweepStep(side, kind, limit, qs, want, b, q, rest);
      if q == [] { SweepReach(side, kind, limit, qs - {b}, rest); }
    }
  }

  // What the order gets is what its fills say, and what the resting side loses.
  lemma {:induction false} SweepBalance(side: Side, kind: OrderType, limit: int, qs: Queues, want: int)
    requires Sound(qs) && 0 <= want
    ensures var s := Sweep(side, kind, limit, qs, want);
            FillTotal(s.fills) == want - s.want && Volume(s.left) == Volume(qs) - (want - s.want)
    decreases |qs|
  {
    if want == 0 || qs == map[] || !Admits(side, kind, limit, First(Opposite(side), qs.Keys).value) {
      SweepEnds(side, kind, limit, qs, want);
    } else {
      hide First, MatchQueue, Volume;
      var b := First(Opposite(side), qs.Keys).value;
      var (q, rest) := MatchQueue(qs[b], want);
      MatchAmount(qs[b], want);
      VolumeStep(qs, b, q);
      SweepStep(side, kind, limit, qs, want, b, q, rest);
      if q == [] { SweepBalance(side, kind, limit, qs - {b}, rest); }
      FillTotalConcat([Fill(-1, want - rest, b)], Sweep(side, kind, limit, WithQueue(qs, b, q), rest).fills);
    }
  }

  // What a sweep leaves is still sound, and when something is left wanting, no level left is within the limit.
  lemma {:induction false} SweepLeaves(side: Side, kind: OrderType, limit: int, qs: Queues, want: int)
    requires Sound(qs) && 0 <= want
    ensures var s := Sweep(side, kind, limit, qs, want);
            && Sound(s.left) && s.left.Keys <= qs.Keys
            && (0 < s.want ==> forall p | p in s.left :: !Admits(side, kind, limit, p))
    decreases |qs|
  {
    if want == 0 || qs == map[] || !Admits(side, kind, limit, First(Opposite(side), qs.Keys).value) {
      SweepEnds(side, kind, limit, qs, want);
    } else {
      var b := First(Opposite(side), qs.Keys).value;
      var (q, rest) := MatchQueue(qs[b], want);
      MatchAmount(qs[b], want);
      SweepStep(side, kind, limit, qs, want, b, q, rest);
      if q == [] { SweepLeaves(side, kind, limit, qs - {b}, rest); }
    }
  }

  // Fills come best price first, each within the limit and for a positive quantity.
  ghost predicate InPriority(side: Side, kind: OrderType, limit: int, fills: seq<Fill>) {
    && (forall i | 0 <= i < |fills| ::
          0 < fills[i].quantity && fills[i].orderId == -1 && Admits(side, kind, limit, fills[i].price))
    && (forall i, j | 0 <= i < j < |fills| :: Better(Opposite(side), fills[i].price, fills[j].price))
  }

  lemma {:induction false} FillsInPriority(side: Side, kind: OrderType, limit: int, qs: Queues, want: int)
    requires Sound(qs) && 0 <= want
    ensures var fills := Sweep(side, kind, limit, qs, want).fills;
            InPriority(side, kind, limit, fills) && forall i | 0 <= i < |fills| :: fills[i].price in qs
    decreases |qs|
  {
    if want == 0 || qs == map[] || !Admits(side, kind, limit, First(Opposite(side), qs.Keys).value) {
      SweepEnds(side, kind, limit, qs, want);
    } else {
      var b := First(Opposite(side), qs.Keys).value;
      var (q, rest) := MatchQueue(qs[b], want);
      MatchAmount(qs[b], want);
      Nonnegative(qs[b]);
      SweepStep(side, kind, limit, qs, want, b, q, rest);
      if q == [] { FillsInPriority(side, kind, limit, qs - {b}, rest); }
    }
  }

  lemma ReachStep(side: Side, kind: OrderType, limit: int, qs: Queues)
    requires Sound(qs)
    ensures 0 <= Reach(side, kind, limit, qs) && (qs == map[] ==> Reach(side, kind, limit, qs) == 0)
    ensures qs != map[] ==>
              var b := First(Opposite(side), qs.Keys).value;
              if Admits(side, kind, limit, b) then
                && Reach(side, kind, limit, qs) == Sum(qs[b]) + Reach(side, kind, limit, qs - {b})
                && 0 <= Reach(side, kind, limit, qs - {b})
              else Reach(side, kind, limit, qs) == 0
  {
    var t := Opposite(side);
    var e := if kind == MARKET then qs.Keys else Eligible(t, Sums(qs), limit);
    AheadNonnegative(t, qs, 0);
    TotalNonNegative(Sums(qs), e);
    if qs != map[] {
      var b := First(t, qs.Keys).value;
      if Admits(side, kind, limit, b) {
        WithoutLevel(qs, b, e);
        assert e - {b} == if kind == MARKET then (qs - {b}).Keys else Eligible(t, Sums(qs - {b}), limit);
        AheadNonnegative(t, qs - {b}, 0);
        TotalNonNegative(Sums(qs - {b}), e - {b});
      } else {
        forall p | p in e ensures false {}
        assert e == {};
      }
    }
  }

  // A fill-or-kill order is filled completely or leaves the book as it was.
  lemma FillOrKill(b: Book, side: Side, limit: int, quantity: int)
    requires Sound(b.Of(Opposite(side))) && 0 <= quantity
    ensures var (b', fills) := Submitted(b, side, FOK, limit, quantity);
            if Depth(Opposite(side), Sums(b.Of(Opposite(side))), limit) < quantity then b' == b && fills == []
            else FillTotal(fills) == quantity && b'.Of(side) == b.Of(side)
  {
    SweepReach(side, FOK, limit, b.Of(Opposite(side)), quantity);
    SweepBalance(side, FOK, limit, b.Of(Opposite(side)), quantity);
  }

  // Nothing is lost: what a limit order does not trade rests, and every other kind discards it.
  lemma Conservation(b: Book, side: Side, kind: OrderType, price: int, quantity: int)
    requires Sound(b.bids) && Sound(b.asks) && 0 <= quantity
    ensures var (b', fills) := Submitted(b, side, kind, price, quantity);
            && 0 <= FillTotal(fills) <= quantity
            && Volume(b'.Of(Opposite(side))) == Volume(b.Of(Opposite(side))) - FillTotal(fills)
            && Volume(b'.Of(side)) == Volume(b.Of(side)) + if kind == LIMIT then quantity - FillTotal(fills) else 0
  {
    hide Sweep, Join, Depth, MakeId, Sound, Volume;
    var o := b.Of(Opposite(side));
    var s := Sweep(side, kind, price, o, quantity);
    ReachStep(side, kind, price, o);
    SweepReach(side, kind, price, o, quantity);
    SweepBalance(side, kind, price, o, quantity);
    FillTotalConcat(s.fills, [Fill(MakeId(side, price, b.NextIndex()), 0, price)]);
    VolumeOfJoin(b.Of(side), price, Resting(b.NextIndex(), s.want));
  }

  // Every bid is below every ask.
  ghost predicate Uncrossed(b: Book) {
    forall p, q | p in b.bids && q in b.asks :: p < q
  }

  // A sound book: positive quantities, legal prices, not crossed, and every queue in arrival order.
  ghost predicate Healthy(b: Book) {
    && Sound(b.bids) && Sound(b.asks) && Legal(b.bids.Keys) && Legal(b.asks.Keys) && Uncrossed(b)
    && Fifo(b.bids, b.NextIndex()) && Fifo(b.asks, b.NextIndex()) && IdsInOrder(b.issued)
  }

  ghost predicate Fifo(qs: Queues, next: int) {
    forall p | p in qs :: Ordered(qs[p], next)
  }

  ghost predicate Ordered(q: Queue, next: int) {
    && (forall i | 0 <= i < |q| :: q[i].index < next)
    && (forall i, j | 0 <= i < j < |q| :: q[i].index < q[j].index)
  }

  lemma {:induction false} MatchOrdered(q: Queue, want: int, next: int)
    requires Ordered(q, next)
    ensures Ordered(MatchQueue(q, want).0, next)
  {
    if want > 0 && q != [] {
      assert forall i | 0 <= i < |q[1..]| :: q[1..][i] == q[i + 1];
      if want >= q[0].quantity { MatchOrdered(q[1..], want - q[0].quantity, next); }
    }
  }

  lemma {:induction false} SweepFifo(side: Side, kind: OrderType, limit: int, qs: Queues, want: int, next: int)
    requires Fifo(qs, next)
    ensures Fifo(Sweep(side, kind, limit, qs, want).left, next)
    decreases |qs|
  {
    if want > 0 && qs != map[] {
      var b := First(Opposite(side), qs.Keys).value;
      if Admits(side, kind, limit, b) {
        MatchOrdered(qs[b], want, next);
        if MatchQueue(qs[b], want).0 == [] { SweepFifo(side, kind, limit, qs - {b}, MatchQueue(qs[b], want).1, next); }
      }
    }
  }

  lemma SubmitKeepsHealth(b: Book, side: Side, kind: OrderType, price: int, quantity: int)
    requires Healthy(b) && 0 <= quantity && (kind == LIMIT ==> 0 < price < PRICE_LIMIT && b.NextIndex() < TWO_31)
    ensures Healthy(Submitted(b, side, kind, price, quantity).0)
  {
    hide Sweep, Depth, MakeId, Fifo;
    var o := b.Of(Opposite(side));
    SweepLeaves(side, kind, price, o, quantity);
    SweepFifo(side, kind, price, o, quantity, b.NextIndex());
    var s := Sweep(side, kind, price, o, quantity);
    if s.want > 0 && kind == LIMIT {
      IdRoundTrip(side, price, b.NextIndex());
      FifoGrows(s.left, b.NextIndex());
      JoinKeeps(b.Of(side), price, Resting(b.NextIndex(), s.want));
    }
  }

  lemma FifoGrows(qs: Queues, next: int)
    ensures Fifo(qs, next) ==> Fifo(qs, next + 1)
  {
    if Fifo(qs, next) {
      forall p | p in qs ensures Ordered(qs[p], next + 1) { assert Ordered(qs[p], next); }
    }
  }

  lemma JoinKeeps(qs: Queues, price: int, r: Resting)
    requires Sound(qs) && Fifo(qs, r.index) && 0 < r.quantity
    ensures Sound(Join(qs, price, r)) && Fifo(Join(qs, price, r), r.index + 1)
  {
    FifoGrows(qs, r.index);
    var q := QueueAt(qs, price);
    assert forall i | 0 <= i < |q| :: (q + [r])[i] == q[i];
    assert Ordered(q, r.index);
  }

  lemma ShrunkStaysHealthy(b: Book, side: Side, qs: Queues)
    requires Healthy(b) && Sound(qs) && Fifo(qs, b.NextIndex()) && qs.Keys <= b.Of(side).Keys
    ensures Healthy(b.With(side, qs))
  {
    hide Fifo, Sound, IdsInOrder;
  }

  lemma CancelKeepsHealth(b: Book, id: int)
    requires Healthy(b)
    ensures Healthy(Cancelled(b, id).0)
  {
    hide Fifo, Sound, IdsInOrder, Removed, Uncrossed, Legal, IdSide, IdPrice, IdIndex;
    var side, price, index := IdSide(id), IdPrice(id), IdIndex(id);
    var qs := b.Of(side);
    if Queued(qs, price, index) {
      var i :| 0 <= i < |qs[price]| && qs[price][i].index == index
          && Cancelled(b, id) == (b.With(side, Removed(qs, price, i)), true);
      RemovedKeeps(qs, price, i, b.NextIndex());
      ShrunkStaysHealthy(b, side, Removed(qs, price, i));
    }
  }

  lemma RemovedKeeps(qs: Queues, price: int, i: int, next: int)
    requires Sound(qs) && Fifo(qs, next) && price in qs && 0 <= i < |qs[price]|
    ensures Sound(Removed(qs, price, i)) && Fifo(Removed(qs, price, i), next) && Removed(qs, price, i).Keys <= qs.Keys
  {
    var q := qs[price][..i] + qs[price][i + 1..];
    assert forall j | 0 <= j < |q| :: q[j] == qs[price][if j < i then j else j + 1];
    assert Ordered(qs[price], next);
    forall p | p in Removed(qs, price, i).Keys ensures p in qs.Keys {}
  }

  // Cancelling an order that rested untouched gives back the book as it was before.
  lemma CancelUndoesRest(b: Book, side: Side, price: int, quantity: int)
    requires Healthy(b) && 0 < quantity && 0 < price < PRICE_LIMIT && b.NextIndex() < TWO_31
    requires forall p | p in b.Of(Opposite(side)) :: !Admits(side, LIMIT, price, p)
    ensures var id := MakeId(side, price, b.NextIndex());
            var (rested, fills) := Submitted(b, side, LIMIT, price, quantity);
            fills == [Fill(id, 0, price)] && Cancelled(rested, id) == (b.(issued := b.issued + [id]), true)
  {
    var id, k := MakeId(side, price, b.NextIndex()), b.NextIndex();
    var qs, q := b.Of(side), QueueAt(b.Of(side), price);
    SweepEnds(side, LIMIT, price, b.Of(Opposite(side)), quantity);
    IdRoundTrip(side, price, k);
    var joined: Queues := Join(qs, price, Resting(k, quantity));
    assert Ordered(q, k);
    var grown: Queue := joined[price];
    assert grown == q + [Resting(k, quantity)] && grown[|q|].index == k;
    var rested := Submitted(b, side, LIMIT, price, quantity).0;
    assert rested.Of(side) == joined;
    assert grown[..|q|] + grown[|q| + 1..] == q;
    assert Removed(joined, price, |q|) == qs;
    assert rested.With(side, qs) == b.(issued := b.issued + [id]);
  }

  // What clients send: a new order, or the withdrawal of the n-th order issued.
  datatype Request = Place(side: Side, kind: OrderType, price: int, quantity: int) | Withdraw(n: nat)

  datatype Reply = Fills(fills: seq<Fill>) | Done(ok: bool)

  ghost predicate Acceptable(r: Request) {
    r.Place? ==> 0 <= r.quantity && (r.kind == LIMIT ==> 0 < r.price < PRICE_LIMIT)
  }

  ghost function Answer(b: Book, r: Request): (Book, Reply) {
    match r
    case Place(side, kind, price, quantity) =>
      var (b', fills) := Submitted(b, side, kind, price, quantity);
      (b', Fills(fills))
    case Withdraw(n) =>
      if 0 < n <= |b.issued| then
        var (b', ok) := Cancelled(b, b.issued[n - 1]);
        (b', Done(ok))
      else (b, Done(false))
  }

  // The answers to a sequence of requests.
  ghost function Run(b: Book, requests: seq<Request>): (Book, seq<Reply>) {
    if requests == [] then (b, [])
    else
      var n := |requests| - 1;
      var (b1, replies) := Run(b, requests[..n]);
      var (b2, reply) := Answer(b1, requests[n]);
      (b2, replies + [reply])
  }

  const EMPTY_BOOK := Book(map[], map[], [])

  // Every book that any sequence of requests leads to is healthy; in particular it is never crossed.
  lemma {:induction false} EveryRunIsHealthy(requests: seq<Request>)
    requires |requests| < TWO_31 - 1 && forall i | 0 <= i < |requests| :: Acceptable(requests[i])
    ensures var b := Run(EMPTY_BOOK, requests).0; Healthy(b) && |b.issued| <= |requests|
  {
    if requests != [] {
      var n := |requests| - 1;
      EveryRunIsHealthy(requests[..n]);
      var b := Run(EMPTY_BOOK, requests[..n]).0;
      assert Acceptable(requests[n]);
      match requests[n]
      case Place(side, kind, price, quantity) => SubmitKeepsHealth(b, side, kind, price, quantity);
      case Withdraw(k) => if 0 < k <= |b.issued| { CancelKeepsHealth(b, b.issued[k - 1]); }
    }
  }
}
