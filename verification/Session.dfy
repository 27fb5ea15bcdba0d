/** A client session: what the book answers to every sequence of requests, and exactly when that is what the price-time
    book answers.  */
module Sessions {
  import opened BookLaws
  import opened Deltas
  import opened LadderSweeps
  import opened LimitOrderBooks
  import opened MarketTypes
  import opened OrderIds
  import opened OrderedKeys
  import opened PriceTimeBook
  import opened Scans
  import opened Sightings

  // ---- What the class answers, on every book ----

  const FRESH := LadderBook(EMPTY_BOOK, Window(0, NO_BID), Window(0, NO_ASK))

  ghost function LadderAnswer(lb: LadderBook, r: Request): (LadderBook, Reply) {
    match r
    case Place(side, kind, price, quantity) =>
      var (lb', fills) := LadderOrder(lb, side, kind, price, quantity);
      (lb', Fills(fills))
    case Withdraw(n) =>
      if 0 < n <= |lb.book.issued| then
        var (lb', ok) := LadderCancel(lb, lb.book.issued[n - 1]);
        (lb', Done(ok))
      else (lb, Done(false))
  }

  ghost function LadderRun(requests: seq<Request>): (LadderBook, seq<Reply>) {
    if requests == [] then (FRESH, [])
    else
      var n := |requests| - 1;
      var (lb, replies) := LadderRun(requests[..n]);
      var (lb', reply) := LadderAnswer(lb, requests[n]);
      (lb', replies + [reply])
  }

  // ---- ... and when that is what the price-time book answers ----

  ghost predicate RequestInSight(lb: LadderBook, r: Request) {
    r.Place? ==> OrderInSight(lb, r.side, r.kind, r.price, r.quantity)
  }

  // Every request of the session is in sight of the book it meets.
  ghost predicate AllInSight(requests: seq<Request>) {
    forall i | 0 <= i < |requests| :: RequestInSight(LadderRun(requests[..i]).0, requests[i])
  }

  ghost predicate SoundBook(b: Book) {
    Sound(b.bids) && Sound(b.asks)
  }

  lemma {:induction false} SweepStaysSound(side: Side, kind: OrderType, limit: int, w: Window, qs: Queues, want: int)
    requires Sound(qs) && 0 <= want
    ensures Sound(LadderSweep(side, kind, limit, w, qs, want).left)
    decreases |qs|
  {
    if 0 < want && w.best in qs && Admits(side, kind, limit, w.best) {
      hide AfterBest;
      var (q, rest) := MatchQueue(qs[w.best], want);
      MatchLeft(qs[w.best], want);
      if q == [] {
        var left := qs - {w.best};
        SweepStaysSound(side, kind, limit, AfterBest(Opposite(side), w, left.Keys), left, rest);
      }
    }
  }

  lemma AnswerStaysSound(lb: LadderBook, r: Request)
    requires SoundBook(lb.book) && Acceptable(r)
    ensures SoundBook(LadderAnswer(lb, r).0.book)
  {
    match r
    case Place(side, kind, price, quantity) =>
      hide LadderSweep, LadderWindow, Passes;
      var t := Opposite(side);
      SweepStaysSound(side, kind, price, lb.WindowOf(t), lb.book.Of(t), quantity);
      var (matched, want, fills) := LadderMatch(lb, side, kind, price, quantity);
      if 0 < want { JoinStaysSound(lb.book.Of(side), price, Resting(lb.book.NextIndex(), want)); }
    case Withdraw(n) =>
      if 0 < n <= |lb.book.issued| { CancelStaysSound(lb.book, lb.book.issued[n - 1]); }
  }

  lemma JoinStaysSound(qs: Queues, price: int, r: Resting)
    requires Sound(qs) && 0 < r.quantity
    ensures Sound(Join(qs, price, r))
  {
    var q := QueueAt(qs, price);
    assert forall i | 0 <= i < |q| :: (q + [r])[i] == q[i];
  }

  lemma CancelStaysSound(b: Book, id: int)
    requires SoundBook(b)
    ensures SoundBook(Cancelled(b, id).0)
  {
    var qs, price := b.Of(IdSide(id)), IdPrice(id);
    if Cancelled(b, id).1 {
      var i :| 0 <= i < |qs[price]| && Cancelled(b, id).0 == b.With(IdSide(id), Removed(qs, price, i));
      var q := qs[price][..i] + qs[price][i + 1..];
      assert forall j | 0 <= j < |q| :: q[j] == qs[price][if j < i then j else j + 1];
    }
  }

  lemma {:induction false} RunStaysSound(requests: seq<Request>)
    requires forall i | 0 <= i < |requests| :: Acceptable(requests[i])
    ensures SoundBook(LadderRun(requests).0.book)
  {
    if requests != [] {
      var n := |requests| - 1;
      RunStaysSound(requests[..n]);
      AnswerStaysSound(LadderRun(requests[..n]).0, requests[n]);
    }
  }

  // A request in sight is answered as the price-time book answers it; one that is not gets another reply.
  lemma AnswerExactly(lb: LadderBook, r: Request)
    requires SoundBook(lb.book) && Acceptable(r)
    ensures var (lb', reply) := LadderAnswer(lb, r);
            var (b', reply') := Answer(lb.book, r);
            if RequestInSight(lb, r) then (lb'.book, reply) == (b', reply') else reply != reply'
  {
    hide LadderOrder, Submitted, OrderInSight, Cancelled;
    if r.Place? { OrderExactly(lb, r.side, r.kind, r.price, r.quantity); }
  }

  // A session is answered as the price-time book answers it exactly if all its requests are in sight; otherwise
  // already its replies differ.
  lemma {:induction false} RunExactly(requests: seq<Request>)
    requires forall i | 0 <= i < |requests| :: Acceptable(requests[i])
    ensures var (lb, replies) := LadderRun(requests);
            if AllInSight(requests) then (lb.book, replies) == Run(EMPTY_BOOK, requests)
            else replies != Run(EMPTY_BOOK, requests).1
  {
    if requests != [] {
      hide LadderAnswer, Answer, RequestInSight, Acceptable;
      var n := |requests| - 1;
      var before := requests[..n];
      RunExactly(before);
      RunStaysSound(before);
      AnswerExactly(LadderRun(before).0, requests[n]);
      InSightSoFar(requests);
      LastDiffers(LadderRun(before).1, LadderAnswer(LadderRun(before).0, requests[n]).1, Run(EMPTY_BOOK, before).1,
                  Answer(Run(EMPTY_BOOK, before).0, requests[n]).1);
    }
  }

  lemma InSightSoFar(requests: seq<Request>)
    requires requests != []
    ensures var n := |requests| - 1;
            AllInSight(requests) <==>
            AllInSight(requests[..n]) && RequestInSight(LadderRun(requests[..n]).0, requests[n])
  {
    hide LadderRun, RequestInSight;
    var n := |requests| - 1;
    forall i | 0 <= i < n
      ensures requests[..n][..i] == requests[..i] && requests[..n][i] == requests[i]
    {
    }
    if AllInSight(requests) {
      forall i | 0 <= i < n ensures RequestInSight(LadderRun(requests[..n][..i]).0, requests[..n][i]) {
        assert RequestInSight(LadderRun(requests[..i]).0, requests[i]);
      }
    }
    if AllInSight(requests[..n]) {
      forall i | 0 <= i < n ensures RequestInSight(LadderRun(requests[..i]).0, requests[i]) {
        assert RequestInSight(LadderRun(requests[..n][..i]).0, requests[..n][i]);
      }
    }
  }

  lemma LastDiffers(a: seq<Reply>, x: Reply, b: seq<Reply>, y: Reply)
    ensures a + [x] == b + [y] <==> a == b && x == y
  {
    if a + [x] == b + [y] {
      assert (a + [x])[..|a|] == a && (b + [y])[..|b|] == b && (a + [x])[|a|] == x && (b + [y])[|b|] == y;
    }
  }

  // Serves one request; `ids` are the ids issued so far.
  method ServeOne(b: LimitOrderBook, r: Request, ids: seq<int>) returns (reply: Reply, ids': seq<int>)
    requires b.Valid() && ids == b.book.issued && Acceptable(r) && b.nextIndex < TWO_31
    modifies b, b.bids, b.bids.ladder, b.bids.mask, b.asks, b.asks.ladder, b.asks.mask
    ensures b.Valid() && ids' == b.book.issued && |ids'| <= |ids| + 1 && old(b.history) <= b.history
    ensures (b.Ladder(), reply) == LadderAnswer(old(b.Ladder()), r)
    ensures PlainBook(old(b.Ladder())) ==> b.inStep == old(b.inStep)
  {
    hide LimitOrderBook.Quoting, LimitOrderBook.Linked, LadderOrder, Cancelled, PlainSide, OrderInSight, OrderSighted;
    hide Submitted, OrderReach, Passes, ExactSide, Publishes;
    ids' := ids;
    ghost var lb := b.Ladder();
    match r
    case Place(side, kind, price, quantity) =>
      var fills := b.Submit(side, kind, price, quantity);
      if kind == LIMIT && FillTotal(fills) < quantity {
        ids' := ids + [fills[|fills| - 1].orderId];
      }
      reply := Fills(fills);
    case Withdraw(n) =>
      var ok := false;
      if 0 < n <= |ids| {
        ok := b.Cancel(ids[n - 1]);
        if PlainBook(lb) { CancelKeepsPlain(lb, ids[n - 1]); }
      }
      reply := Done(ok);
  }

  // Serves the requests in order on a fresh book; withdrawals name orders by the order in which they were issued.
  // The replies are always those of the ladder's own rules, and those of the price-time book exactly if all requests
  // are in sight, as they are when that book's levels stay separated.
  method Serve(requests: seq<Request>) returns (b: LimitOrderBook, replies: seq<Reply>)
    requires |requests| < TWO_31 - 1 && forall i | 0 <= i < |requests| :: Acceptable(requests[i])
    ensures fresh(b) && b.Valid() && (b.Ladder(), replies) == LadderRun(requests)
    ensures (b.book, replies) == Run(EMPTY_BOOK, requests) <==> AllInSight(requests)
    ensures AllInSight(requests) ==> Healthy(b.book)
    ensures StaysSeparated(requests) ==> AllInSight(requests) && PlainBook(b.Ladder()) && b.inStep
  {
    hide LimitOrderBook.Quoting, LadderAnswer, StaysSeparated, Acceptable, PlainBook, Run, AllInSight, LadderRun;
    b := new LimitOrderBook(4096);
    replies := [];
    var ids: seq<int> := [];
    RunStarts();
    for i := 0 to |requests|
      invariant fresh(b) && fresh(b.bids) && fresh(b.bids.ladder) && fresh(b.bids.mask)
      invariant fresh(b.asks) && fresh(b.asks.ladder) && fresh(b.asks.mask)
      invariant b.Valid() && ids == b.book.issued && |ids| <= i
      invariant (b.Ladder(), replies) == LadderRun(requests[..i])
      invariant StaysSeparated(requests[..i]) ==> b.inStep
    {
      RunGoesOn(requests, i);
      PrefixStays(requests, i);
      if StaysSeparated(requests[..i]) { SeparatedRunIsPlain(requests[..i]); }
      var reply;
      reply, ids := ServeOne(b, requests[i], ids);
      replies := replies + [reply];
    }
    assert requests[..|requests|] == requests;
    RunExactly(requests);
    EveryRunIsHealthy(requests);
    if StaysSeparated(requests) { SeparatedRunIsPlain(requests); }
  }

  lemma RunStarts()
    ensures LadderRun([]) == (FRESH, [])
  {}

  lemma RunGoesOn(requests: seq<Request>, i: nat)
    requires i < |requests|
    ensures LadderRun(requests[..i + 1]) ==
            var (lb, replies) := LadderRun(requests[..i]);
            var (lb', reply) := LadderAnswer(lb, requests[i]);
            (lb', replies + [reply])
  {
    hide LadderAnswer;
    assert requests[..i + 1][..i] == requests[..i];
  }

  // ---- Separated levels are enough ----

  ghost predicate SeparatedBook(b: Book) {
    Separated(b.bids.Keys) && Separated(b.asks.Keys)
  }

  ghost predicate PlainBook(lb: LadderBook) {
    PlainSide(lb, BUY) && PlainSide(lb, SELL)
  }

  // A submission to a plain book is in sight and leaves it plain, as long as its levels stay separated.
  lemma SubmitKeepsPlain(lb: LadderBook, side: Side, kind: OrderType, price: int, quantity: int)
    requires PlainBook(lb) && SoundBook(lb.book) && 0 <= quantity && (kind == LIMIT ==> 0 < price < PRICE_LIMIT)
    ensures OrderInSight(lb, side, kind, price, quantity)
    ensures var lb' := LadderOrder(lb, side, kind, price, quantity).0; SeparatedBook(lb'.book) ==> PlainBook(lb')
  {
    hide LadderOrder, Separated, PlainSide, OrderInSight;
    PlainInSight(lb, side, kind, price, quantity);
    PlainSubmit(lb, side, kind, price, quantity);
    PlainOwnSide(lb, side, kind, price, quantity);
  }

  // A cancellation leaves it plain, and is never silent.
  lemma CancelKeepsPlain(lb: LadderBook, id: int)
    requires PlainBook(lb)
    ensures var (lb', ok) := LadderCancel(lb, id);
            && PlainBook(lb')
            && (ok ==> !Silent(IdSide(id), lb.WindowOf(IdSide(id)), IdPrice(id),
                               Sum(QueueAt(lb'.book.Of(IdSide(id)), IdPrice(id)))))
  {
    PlainCancel(lb, id, BUY);
    PlainCancel(lb, id, SELL);
    if Cancelled(lb.book, id).1 {
      assert IdPrice(id) in lb.book.Of(IdSide(id)).Keys;
    }
  }

  // Every book the price-time book goes through while it answers the requests is separated.
  ghost predicate StaysSeparated(requests: seq<Request>) {
    forall i | 0 <= i <= |requests| :: SeparatedBook(Run(EMPTY_BOOK, requests[..i]).0)
  }

  lemma PrefixStays(requests: seq<Request>, i: nat)
    requires i < |requests|
    ensures StaysSeparated(requests[..i + 1]) ==>
              StaysSeparated(requests[..i]) && SeparatedBook(Run(EMPTY_BOOK, requests[..i + 1]).0)
  {
    var more := requests[..i + 1];
    assert more[..i] == requests[..i] && more[..i + 1] == more;
    if StaysSeparated(more) {
      forall j | 0 <= j <= i ensures SeparatedBook(Run(EMPTY_BOOK, requests[..i][..j]).0) {
        assert requests[..i][..j] == more[..j];
      }
    }
  }

  // Then every request is in sight, and the book is plain throughout.
  lemma {:induction false} SeparatedRunIsPlain(requests: seq<Request>)
    requires StaysSeparated(requests) && forall i | 0 <= i < |requests| :: Acceptable(requests[i])
    ensures AllInSight(requests) && PlainBook(LadderRun(requests).0)
  {
    if requests == [] {
      FreshIsPlain();
    } else {
      hide StaysSeparated, LadderCancel, LadderOrder, PlainBook, SeparatedBook, AllInSight, OrderInSight;
      var n := |requests| - 1;
      var before := requests[..n];
      assert requests[..n + 1] == requests;
      PrefixStays(requests, n);
      SeparatedRunIsPlain(before);
      RunStaysSound(before);
      var lb := LadderRun(before).0;
      match requests[n] {
        case Place(side, kind, price, quantity) => SubmitKeepsPlain(lb, side, kind, price, quantity);
        case Withdraw(k) => if 0 < k <= |lb.book.issued| { CancelKeepsPlain(lb, lb.book.issued[k - 1]); }
      }
      InSightSoFar(requests);
      RunExactly(requests);
    }
  }

  lemma FreshIsPlain()
    ensures PlainBook(FRESH)
  {
    var nothing: Queues := map[];
    assert nothing.Keys == {};
  }

  // ---- A condition on the requests alone ----

  // The limit prices of one side.
  ghost function LimitPrices(requests: seq<Request>, side: Side): set<int> {
    set i | 0 <= i < |requests| && requests[i].Place? && requests[i].side == side && requests[i].kind == LIMIT ::
      requests[i].price
  }

  lemma {:induction false} SweepShrinks(side: Side, kind: OrderType, limit: int, qs: Queues, want: int)
    ensures Sweep(side, kind, limit, qs, want).left.Keys <= qs.Keys
    decreases |qs|
  {
    if want > 0 && qs != map[] {
      var p := First(Opposite(side), qs.Keys).value;
      if Admits(side, kind, limit, p) {
        var (q, rest) := MatchQueue(qs[p], want);
        if q == [] {
          SweepShrinks(side, kind, limit, qs - {p}, rest);
          assert (qs - {p}).Keys <= qs.Keys;
        } else {
          assert qs[p := q].Keys == qs.Keys;
        }
      }
    }
  }

  lemma AnswerLevels(b: Book, r: Request, side: Side)
    ensures forall p | p in Answer(b, r).0.Of(side).Keys ::
              p in b.Of(side).Keys || (r.Place? && r.side == side && r.kind == LIMIT && p == r.price)
  {
    match r
    case Place(s, kind, price, quantity) => SweepShrinks(s, kind, price, b.Of(Opposite(s)), quantity);
    case Withdraw(n) =>
  }

  // Levels stand only at limit prices that were asked for.
  lemma {:induction false} LevelsAreLimits(requests: seq<Request>, side: Side)
    ensures Run(EMPTY_BOOK, requests).0.Of(side).Keys <= LimitPrices(requests, side)
  {
    if requests != [] {
      var n := |requests| - 1;
      LevelsAreLimits(requests[..n], side);
      AnswerLevels(Run(EMPTY_BOOK, requests[..n]).0, requests[n], side);
      forall p | p in Run(EMPTY_BOOK, requests).0.Of(side).Keys ensures p in LimitPrices(requests, side) {
        if p in LimitPrices(requests[..n], side) {
          var i :| 0 <= i < n && requests[..n][i].Place? && requests[..n][i].side == side
                   && requests[..n][i].kind == LIMIT && requests[..n][i].price == p;
          assert requests[i].price == p;
        } else {
          assert requests[n].price == p;
        }
      }
    }
  }

  // Clients whose limit prices on a side are never 193 to 255 ticks apart are served as the price-time book says.
  lemma SeparatedLimitsStay(requests: seq<Request>)
    requires Separated(LimitPrices(requests, BUY)) && Separated(LimitPrices(requests, SELL))
    ensures StaysSeparated(requests)
  {
    forall i | 0 <= i <= |requests| ensures SeparatedBook(Run(EMPTY_BOOK, requests[..i]).0) {
      LevelsAreLimits(requests[..i], BUY);
      LevelsAreLimits(requests[..i], SELL);
      FewerLimits(requests, i, BUY);
      FewerLimits(requests, i, SELL);
    }
  }

  lemma FewerLimits(requests: seq<Request>, i: nat, side: Side)
    requires i <= |requests|
    ensures LimitPrices(requests[..i], side) <= LimitPrices(requests, side)
  {
    forall p | p in LimitPrices(requests[..i], side) ensures p in LimitPrices(requests, side) {
      var j :| 0 <= j < i && requests[..i][j].Place? && requests[..i][j].side == side
               && requests[..i][j].kind == LIMIT && requests[..i][j].price == p;
      assert requests[j].price == p;
    }
  }
}
