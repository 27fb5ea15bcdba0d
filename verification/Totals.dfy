/** Sums of the quantities standing at a set of prices. */
module Totals {
  import opened MarketTypes
  import opened OrderedKeys

  ghost predicate Positive(m: map<int, int>) {
    forall p | p in m :: 0 < m[p]
  }

  // The quantity on a set of levels.
  ghost function Total(m: map<int, int>, prices: set<int>): int
    requires prices <= m.Keys
  {
    if prices == {} then 0 else
      var p := Any(prices);
      m[p] + Total(m, prices - {p})
  }

  lemma {:induction false} TotalAdd(m: map<int, int>, prices: set<int>, p: int)
    requires prices <= m.Keys && p in m && p !in prices
    ensures Total(m, prices + {p}) == Total(m, prices) + m[p]
    decreases |prices|
  {
    var all := prices + {p};
    var q := Any(all);
    if q != p {
      TotalAdd(m, prices - {q}, p);
      TotalAdd(m, prices - {q}, q);
      assert all - {q} == prices - {q} + {p} && prices - {q} + {q} == prices;
    } else {
      assert all - {p} == prices;
    }
  }

  lemma {:induction false} TotalUnion(m: map<int, int>, a: set<int>, b: set<int>)
    requires a <= m.Keys && b <= m.Keys && a !! b
    ensures Total(m, a + b) == Total(m, a) + Total(m, b)
    decreases |b|
  {
    if b == {} {
      assert a + b == a;
    } else {
      var p := Any(b);
      TotalUnion(m, a, b - {p});
      TotalAdd(m, a + (b - {p}), p);
      assert a + (b - {p}) + {p} == a + b;
    }
  }

  lemma {:induction false} TotalOfSubset(m: map<int, int>, part: set<int>, prices: set<int>)
    requires part <= prices <= m.Keys && Positive(m)
    ensures 0 <= Total(m, part) <= Total(m, prices)
    ensures part != prices ==> Total(m, part) < Total(m, prices)
    decreases |prices - part|
  {
    TotalNonNegative(m, part);
    if prices - part == {} {
      NothingLeft(prices, part);
      assert part == prices;
    } else {
      var p := Any(prices - part);
      TotalAdd(m, part, p);
      TotalOfSubset(m, part + {p}, prices);
    }
  }

  lemma {:induction false} TotalNonNegative(m: map<int, int>, prices: set<int>)
    requires prices <= m.Keys && Positive(m)
    ensures 0 <= Total(m, prices)
  {
    if prices != {} { TotalNonNegative(m, prices - {Any(prices)}); }
  }

  // The levels an order limited to `worst` may trade with.
  ghost function Eligible(side: Side, m: map<int, int>, worst: int): set<int> {
    set p | p in m.Keys && !Better(side, worst, p)
  }

  ghost function Depth(side: Side, m: map<int, int>, worst: int): int {
    Total(m, Eligible(side, m, worst))
  }

  lemma {:induction false} TotalAgrees(m: map<int, int>, n: map<int, int>, prices: set<int>)
    requires prices <= m.Keys && prices <= n.Keys && forall p | p in prices :: m[p] == n[p]
    ensures Total(m, prices) == Total(n, prices)
  {
    if prices != {} { TotalAgrees(m, n, prices - {Any(prices)}); }
  }
}
