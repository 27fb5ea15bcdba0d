/** The book the ladder implements: on each side a map from price to the queue of resting orders in
    arrival order.  Orders trade best price first and, within a price, first come first served.  */
module PriceTimeBook {
  import opened MarketTypes
  import opened OrderIds
  import opened OrderedKeys
  import opened Totals

  datatype Resting = Resting(index: int, quantity: int)

  type Queue = seq<Resting>

  type Queues = map<int, Queue>

  // Both sides, and the ids handed out so far: the n-th one names slab index n.
  datatype Book = Book(bids: Queues, asks: Queues, issued: seq<int>) {
    function NextIndex(): int {
      |issued| + 1
    }

    function Of(side: Side): Queues {
      if side == BUY then bids else asks
    }

    function With(side: Side, qs: Queues): Book {
      if side == BUY then this.(bids := qs) else this.(asks := qs)
    }
  }

  function Sum(q: Queue): int {
    if q == [] then 0 else q[0].quantity + Sum(q[1..])
  }

  ghost predicate PositiveQueue(q: Queue) {
    forall i | 0 <= i < |q| :: 0 < q[i].quantity
  }

  ghost predicate Sound(qs: Queues) {
    forall p | p in qs :: qs[p] != [] && PositiveQueue(qs[p])
  }

  ghost function Sums(qs: Queues): (m: map<int, int>)
    ensures m.Keys == qs.Keys
  {
    map p | p in qs :: Sum(qs[p])
  }

  // One level trading against `want`: the queue left and the quantity still wanted.
  function MatchQueue(q: Queue, want: int): (Queue, int) {
    if want <= 0 || q == [] then (q, want)
    else if want >= q[0].quantity then MatchQueue(q[1..], want - q[0].quantity)
    else ([Resting(q[0].index, q[0].quantity - want)] + q[1..], 0)
  }

  // The limit of an incoming order admits a resting price.
  predicate Admits(side: Side, kind: OrderType, limit: int, p: int) {
    kind == MARKET || !Better(Opposite(side), limit, p)
  }

  datatype Swept = Swept(left: Queues, want: int, fills: seq<Fill>)

  // An incoming order trading through the opposite side, best level first.
  ghost function Sweep(side: Side, kind: OrderType, limit: int, qs: Queues, want: int): Swept
    decreases |qs|
  {
    if want <= 0 || qs == map[] then Swept(qs, want, [])
    else
      var p := First(Opposite(side), qs.Keys).value;
      if !Admits(side, kind, limit, p) then Swept(qs, want, [])
      else
        var (q, rest) := MatchQueue(qs[p], want);
        var fill := Fill(-1, want - rest, p);
        if q != [] then Swept(qs[p := q], rest, [fill])
        else
          FirstThen(fill, Sweep(side, kind, limit, qs - {p}, rest))
  }

  // A resting order joins the back of its queue.
  function Join(qs: Queues, price: int, r: Resting): Queues {
    qs[price := (if price in qs then qs[price] else []) + [r]]
  }

  // ... under the next id.
  function WithResting(b: Book, side: Side, price: int, quantity: int): Book {
    var n := b.NextIndex();
    b.With(side, Join(b.Of(side), price, Resting(n, quantity))).(issued := b.issued + [MakeId(side, price, n)])
  }

  ghost function Submitted(b: Book, side: Side, kind: OrderType, price: int, quantity: int): (Book, seq<Fill>) {
    var opposite := b.Of(Opposite(side));
    if kind == FOK && Depth(Opposite(side), Sums(opposite), price) < quantity then (b, [])
    else
      var s := Sweep(side, kind, price, opposite, quantity);
      var traded := b.With(Opposite(side), s.left);
      if s.want > 0 && kind == LIMIT then
        (WithResting(traded, side, price, s.want), s.fills + [Fill(MakeId(side, price, b.NextIndex()), 0, price)])
      else (traded, s.fills)
  }

  // The position of an order in its queue.
  ghost predicate Queued(qs: Queues, price: int, index: int) {
    price in qs && exists i | 0 <= i < |qs[price]| :: qs[price][i].index == index
  }

  // Removing the entry at position i; an emptied queue goes.
  function Removed(qs: Queues, price: int, i: int): Queues
    requires price in qs && 0 <= i < |qs[price]|
  {
    var q := qs[price][..i] + qs[price][i + 1..];
    if q == [] then qs - {price} else qs[price := q]
  }

  ghost function Cancelled(b: Book, id: int): (Book, bool) {
    var side, price, index := IdSide(id), IdPrice(id), IdIndex(id);
    var qs := b.Of(side);
    if Queued(qs, price, index) then
      var i :| 0 <= i < |qs[price]| && qs[price][i].index == index;
      (b.With(side, Removed(qs, price, i)), true)
    else (b, false)
  }

  // The queues after the one at a price became q.
  function WithQueue(qs: Queues, price: int, q: Queue): Queues {
    if q == [] then qs - {price} else qs[price := q]
  }

  function QueueAt(qs: Queues, price: int): Queue {
    if price in qs then qs[price] else []
  }

  function FillTotal(fills: seq<Fill>): int {
    if fills == [] then 0 else fills[0].quantity + FillTotal(fills[1..])
  }

  lemma {:induction false} FillTotalConcat(a: seq<Fill>, b: seq<Fill>)
    ensures FillTotal(a + b) == FillTotal(a) + FillTotal(b)
  {
    if a == [] {
      assert a + b == b;
    } else {
      assert (a + b)[1..] == a[1..] + b;
      FillTotalConcat(a[1..], b);
    }
  }

  // Records of trades: a quantity each, and no order id.
  ghost predicate Traded(fills: seq<Fill>) {
    forall i | 0 <= i < |fills| :: 0 < fills[i].quantity && fills[i].orderId == -1
  }

  // What a submitted order reports: its trades, then, if the rest of it rests, the id it rests under.
  ghost predicate Reported(kind: OrderType, price: int, quantity: int, fills: seq<Fill>) {
    if kind == LIMIT && FillTotal(fills) < quantity then
      && fills != [] && Traded(fills[..|fills| - 1])
      && fills[|fills| - 1] == Fill(fills[|fills| - 1].orderId, 0, price)
    else Traded(fills)
  }

  // Everything that rests on one side.
  ghost function Volume(qs: Queues): int {
    Total(Sums(qs), qs.Keys)
  }

  // A level that survives has used up the incoming quantity.
  lemma {:induction false} MatchLeft(q: Queue, want: int)
    requires PositiveQueue(q) && 0 <= want
    ensures var (q', rest) := MatchQueue(q, want);
            PositiveQueue(q') && 0 <= rest <= want && (q' != [] ==> rest == 0) && Sum(q) - Sum(q') == want - rest
  {
    if q != [] && want > 0 {
      assert forall i | 0 <= i < |q[1..]| :: q[1..][i] == q[i + 1];
      if want >= q[0].quantity {
        MatchLeft(q[1..], want - q[0].quantity);
      } else {
        assert ([Resting(q[0].index, q[0].quantity - want)] + q[1..])[1..] == q[1..];
      }
    }
  }

  function FirstThen(fill: Fill, s: Swept): Swept {
    s.(fills := [fill] + s.fills)
  }

  // What one turn of the sweep does: it trades `fill` and leaves qs', or it ends.
  ghost predicate SweepTurn(side: Side, kind: OrderType, limit: int, qs: Queues, want: int, fill: Option<Fill>,
                            qs': Queues)
  {
    Sweep(side, kind, limit, qs, want) ==
    match fill
    case None => Swept(qs', want, [])
    case Some(f) => FirstThen(f, Sweep(side, kind, limit, qs', want - f.quantity))
  }

  // ... and what it costs the resting side: the traded volume, and a level unless the order is filled.
  ghost predicate TurnEffect(qs: Queues, want: int, fill: Option<Fill>, qs': Queues) {
    match fill
    case None => qs' == qs
    case Some(f) =>
      && 0 < f.quantity <= want && f.orderId == -1 && Volume(qs') == Volume(qs) - f.quantity
      && |qs'| <= |qs| && (f.quantity == want || |qs'| < |qs|)
  }

  lemma TradeEffect(qs: Queues, p: int, q: Queue, want: int, quantity: int)
    requires p in qs && 0 < quantity <= want && Sum(q) == Sum(qs[p]) - quantity && (q != [] ==> quantity == want)
    ensures TurnEffect(qs, want, Some(Fill(-1, quantity, p)), WithQueue(qs, p, q))
  {
    VolumeStep(qs, p, q);
  }

  lemma TurnShrinks(qs: Queues, want: int, fill: Option<Fill>, qs': Queues)
    requires TurnEffect(qs, want, fill, qs')
    ensures match fill
            case None => qs' == qs
            case Some(f) => 0 < f.quantity <= want && |qs'| <= |qs| && (f.quantity == want || |qs'| < |qs|)
  {}

  lemma NoTrade(qs: Queues, want: int)
    ensures TurnEffect(qs, want, None, qs)
  {}

  // Trading at the best admissible level is the first step of the sweep.
  lemma SweepStep(side: Side, kind: OrderType, limit: int, qs: Queues, want: int, p: int, q: Queue, rest: int)
    requires 0 < want && p in qs && First(Opposite(side), qs.Keys) == Some(p) && Admits(side, kind, limit, p)
    requires PositiveQueue(qs[p]) && MatchQueue(qs[p], want) == (q, rest)
    ensures SweepTurn(side, kind, limit, qs, want, Some(Fill(-1, want - rest, p)), WithQueue(qs, p, q))
  {
    MatchLeft(qs[p], want);
  }

  lemma SweepEnds(side: Side, kind: OrderType, limit: int, qs: Queues, want: int)
    requires want <= 0 || qs == map[] || !Admits(side, kind, limit, First(Opposite(side), qs.Keys).value)
    ensures SweepTurn(side, kind, limit, qs, want, None, qs)
  {}

  // Changing one queue changes the volume by what the queue lost.
  lemma VolumeStep(qs: Queues, p: int, q: Queue)
    ensures Volume(WithQueue(qs, p, q)) == Volume(qs) - Sum(QueueAt(qs, p)) + Sum(q)
  {
    var qs' := WithQueue(qs, p, q);
    var rest := qs.Keys - {p};
    TotalAgrees(Sums(qs), Sums(qs'), rest);
    if p in qs {
      TotalAdd(Sums(qs), rest, p);
      assert rest + {p} == qs.Keys;
    } else {
      assert rest == qs.Keys;
    }
    if p in qs' {
      TotalAdd(Sums(qs'), rest, p);
      assert rest + {p} == qs'.Keys;
    } else {
      assert rest == qs'.Keys;
    }
  }

  // A new order adds its quantity to the volume of its side.
  lemma VolumeOfJoin(qs: Queues, price: int, r: Resting)
    ensures Volume(Join(qs, price, r)) == Volume(qs) + r.quantity
  {
    var q := QueueAt(qs, price);
    SumOfAppended(q, r);
    assert Join(qs, price, r) == WithQueue(qs, price, q + [r]);
    VolumeStep(qs, price, q + [r]);
  }

  lemma {:induction false} SumOfAppended(q: Queue, r: Resting)
    ensures Sum(q + [r]) == Sum(q) + r.quantity
  {
    if q == [] {
      assert q + [r] == [r];
    } else {
      assert (q + [r])[1..] == q[1..] + [r];
      SumOfAppended(q[1..], r);
    }
  }
}
