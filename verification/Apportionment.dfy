/** Splitting lots in proportion to displayed size, by largest remainders.

    Shares are exact: venue i is due `n * d[i] / t` lots, with t the total displayed size, so its whole
    lots are that quotient and its fractional part the remainder over t.  */
module Apportionment {
  import opened Arithmetic
  import opened RoutingCosts
  import opened RoutingSplit

  ghost predicate Displays(d: seq<int>) {
    forall i | 0 <= i < |d| :: 0 <= d[i]
  }

  function Whole(n: nat, d: int, t: int): int
    requires 0 < t
  {
    n * d / t
  }

  function Fraction(n: nat, d: int, t: int): int
    requires 0 < t
  {
    n * d % t
  }

  // Venue i comes before venue j for a leftover lot: larger fraction first, then larger display.
  predicate Before(n: nat, d: seq<int>, t: int, i: nat, j: nat)
    requires i < |d| && j < |d| && 0 < t
  {
    || Fraction(n, d[i], t) > Fraction(n, d[j], t)
    || (Fraction(n, d[i], t) == Fraction(n, d[j], t) && d[i] >= d[j])
  }

  // A largest-remainder apportionment of n lots: whole lots everywhere, and one more for some venues,
  // none of which comes after a venue that got none.
  ghost predicate LargestRemainder(n: nat, d: seq<int>, lots: seq<int>) {
    var t := Total(d);
    && 0 < t && |lots| == |d| && Total(lots) == n
    && (forall i | 0 <= i < |d| :: Whole(n, d[i], t) <= lots[i] <= Whole(n, d[i], t) + if d[i] == 0 then 0 else 1)
    && (forall i, j | 0 <= i < |d| && 0 <= j < |d| && d[j] > 0
        && lots[i] > Whole(n, d[i], t) && lots[j] == Whole(n, d[j], t) :: Before(n, d, t, i, j))
  }

  // An extra lot goes by remainder first: of two venues that display something, the one with the smaller remainder
  // never gets one without the other.
  lemma ExtraByRemainder(n: nat, d: seq<int>, lots: seq<int>, i: nat, j: nat)
    requires LargestRemainder(n, d, lots) && i < |d| && j < |d| && 0 < d[j]
    ensures n * d[i] % Total(d) < n * d[j] % Total(d) && lots[i] == n * d[i] / Total(d) + 1 ==>
              lots[j] == n * d[j] / Total(d) + 1
  {
    hide Total;
  }

  // ... and among equal remainders by displayed size: the one that displays less never gets one without the other.
  lemma ExtraBySize(n: nat, d: seq<int>, lots: seq<int>, i: nat, j: nat)
    requires LargestRemainder(n, d, lots) && i < |d| && j < |d| && 0 < d[i] < d[j]
    ensures n * d[i] % Total(d) == n * d[j] % Total(d) && lots[i] == n * d[i] / Total(d) + 1 ==>
              lots[j] == n * d[j] / Total(d) + 1
  {
    hide Total;
  }

  // Two lots over displays of 300 and 100 leave equal remainders, and both lots go to the first venue.
  lemma TwoLotsToTheDeeper(lots: seq<int>)
    requires LargestRemainder(2, [300, 100], lots)
    ensures lots == [2, 0]
  {
    assert [300, 100][..1] == [300] && [300][..0] == [] && Total([300]) == 300;
    assert Total([300, 100]) == 400;
    ExtraBySize(2, [300, 100], lots, 1, 0);
    assert lots[..1] == [lots[0]] && lots[..1][..0] == [] && Total(lots[..1]) == lots[0];
    assert Total(lots) == lots[0] + lots[1];
  }

  function Scaled(d: seq<int>, c: int): seq<int> {
    seq(|d|, i requires 0 <= i < |d| => c * d[i])
  }

  lemma {:induction false} TotalScaled(d: seq<int>, c: int)
    ensures Total(Scaled(d, c)) == c * Total(d)
  {
    if d != [] {
      var k := |d| - 1;
      TotalScaled(d[..k], c);
      assert Scaled(d, c)[..k] == Scaled(d[..k], c);
    }
  }

  // Sums add up entry by entry.
  lemma {:induction false} TotalSum(a: seq<int>, b: seq<int>, c: seq<int>)
    requires |a| == |b| == |c| && forall i | 0 <= i < |a| :: c[i] == a[i] + b[i]
    ensures Total(c) == Total(a) + Total(b)
  {
    if a != [] {
      var k := |a| - 1;
      TotalSum(a[..k], b[..k], c[..k]);
    }
  }

  lemma {:induction false} TotalMonotone(a: seq<int>, b: seq<int>)
    requires |a| == |b| && forall i | 0 <= i < |a| :: a[i] <= b[i]
    ensures Total(a) <= Total(b)
  {
    if a != [] {
      var k := |a| - 1;
      TotalMonotone(a[..k], b[..k]);
    }
  }

  function Wholes(n: nat, d: seq<int>, t: int): seq<int>
    requires 0 < t
  {
    seq(|d|, i requires 0 <= i < |d| => Whole(n, d[i], t))
  }

  function Fractions(n: nat, d: seq<int>, t: int): seq<int>
    requires 0 < t
  {
    seq(|d|, i requires 0 <= i < |d| => Fraction(n, d[i], t))
  }

  lemma ShareSplits(n: nat, d: int, t: int)
    requires 0 < t
    ensures n * d == t * Whole(n, d, t) + Fraction(n, d, t) && 0 <= Fraction(n, d, t) < t
    ensures d == 0 ==> Whole(n, d, t) == 0 == Fraction(n, d, t)
  {}

  // The fractional parts are what the whole lots leave over, in units of 1/t.
  lemma FractionsAreLeftover(n: nat, d: seq<int>)
    requires Displays(d) && 0 < Total(d)
    ensures var t := Total(d); Total(Fractions(n, d, t)) == t * (n - Total(Wholes(n, d, t)))
  {
    var t := Total(d);
    TotalScaled(d, n);
    TotalScaled(Wholes(n, d, t), t);
    forall i | 0 <= i < |d| ensures n * d[i] == t * Whole(n, d[i], t) + Fraction(n, d[i], t) {
      ShareSplits(n, d[i], t);
    }
    TotalSum(Scaled(Wholes(n, d, t), t), Fractions(n, d, t), Scaled(d, n));
    assert n * t == t * n;
  }

  // One for every venue that displays size.
  function Marks(d: seq<int>): seq<int> {
    seq(|d|, i requires 0 <= i < |d| => if d[i] > 0 then 1 else 0)
  }

  lemma {:induction false} MarksPositive(d: seq<int>)
    requires Displays(d) && 0 < Total(d)
    ensures 0 < Total(Marks(d))
  {
    var k := |d| - 1;
    assert Marks(d)[..k] == Marks(d[..k]);
    MarksNonNegative(d[..k]);
    if d[k] == 0 { MarksPositive(d[..k]); }
  }

  lemma {:induction false} MarksNonNegative(d: seq<int>)
    ensures 0 <= Total(Marks(d))
  {
    if d != [] {
      var k := |d| - 1;
      assert Marks(d)[..k] == Marks(d[..k]);
      MarksNonNegative(d[..k]);
    }
  }

  // There are fewer leftover lots than venues with displayed size, so dealing them out never wraps round.
  lemma LeftoverFits(n: nat, d: seq<int>)
    requires Displays(d) && 0 < Total(d)
    ensures 0 <= n - Total(Wholes(n, d, Total(d))) < Total(Marks(d))
  {
    var t, m := Total(d), Total(Marks(d));
    var left := n - Total(Wholes(n, d, t));
    FractionsAreLeftover(n, d);
    MarksPositive(d);
    TotalScaled(Marks(d), t - 1);
    var f, bound := Fractions(n, d, t), Scaled(Marks(d), t - 1);
    forall i | 0 <= i < |d| ensures f[i] <= bound[i] { ShareSplits(n, d[i], t); }
    TotalMonotone(f, bound);
    FractionsNonNegative(n, d, t);
    LeftoverArithmetic(t, left, m);
  }

  lemma LeftoverArithmetic(t: int, left: int, m: int)
    requires 0 < t && 0 < m && 0 <= t * left <= (t - 1) * m
    ensures 0 <= left < m
  {
    if left < 0 { MultipleIsLarge(t, -left); }
    if m <= left { ProductOfNats(t, left - m); }
  }

  lemma FractionsNonNegative(n: nat, d: seq<int>, t: int)
    requires 0 < t
    ensures 0 <= Total(Fractions(n, d, t))
  {
    TotalMonotone(Scaled(d, 0), Fractions(n, d, t));
    TotalScaled(d, 0);
  }

  // The extra lots, venue by venue.
  function Extras(n: nat, d: seq<int>, lots: seq<int>, t: int): seq<int>
    requires |lots| == |d| && 0 < t
  {
    seq(|d|, i requires 0 <= i < |d| => lots[i] - Whole(n, d[i], t))
  }

  lemma ExtrasAreLeftover(n: nat, d: seq<int>, lots: seq<int>)
    requires Displays(d) && LargestRemainder(n, d, lots)
    ensures var t := Total(d); Total(Extras(n, d, lots, t)) == n - Total(Wholes(n, d, t))
  {
    var t := Total(d);
    TotalSum(Wholes(n, d, t), Extras(n, d, lots, t), lots);
  }

  lemma {:induction false} EntryBound(a: seq<int>, i: nat)
    requires i < |a| && forall j | 0 <= j < |a| :: 0 <= a[j]
    ensures a[i] <= Total(a)
  {
    var k := |a| - 1;
    if i < k {
      EntryBound(a[..k], i);
    } else if k > 0 {
      EntryBound(a[..k], 0);
    }
  }

  // The venues with an extra lot have the larger fractions, and together the fractions make up the extra lots.
  ghost predicate Ranked(t: int, f: seq<int>, x: seq<int>) {
    && 0 < t && |f| == |x| && Total(f) == t * Total(x)
    && (forall i | 0 <= i < |f| :: 0 <= f[i] < t && 0 <= x[i] <= 1)
    && (forall i, j | 0 <= i < |f| && 0 <= j < |f| && x[i] == 1 && x[j] == 0 :: f[j] <= f[i])
  }

  // Of two venues, the one with an extra lot has the larger fraction.
  lemma ExtraHasLarger(n: nat, d: seq<int>, lots: seq<int>, i: nat, j: nat)
    requires Displays(d) && LargestRemainder(n, d, lots) && i < |d| && j < |d|
    requires lots[i] > Whole(n, d[i], Total(d)) && lots[j] == Whole(n, d[j], Total(d))
    ensures Fraction(n, d[j], Total(d)) <= Fraction(n, d[i], Total(d))
  {
    var t := Total(d);
    if d[j] > 0 {
      assert Before(n, d, t, i, j);
    } else {
      ShareSplits(n, d[j], t);
      ShareSplits(n, d[i], t);
    }
  }

  lemma RemaindersRank(n: nat, d: seq<int>, lots: seq<int>)
    requires Displays(d) && LargestRemainder(n, d, lots)
    ensures var t := Total(d); Ranked(t, Fractions(n, d, t), Extras(n, d, lots, t))
  {
    hide Whole, Fraction, Total;
    var t := Total(d);
    var f, x := Fractions(n, d, t), Extras(n, d, lots, t);
    FractionsAreLeftover(n, d);
    ExtrasAreLeftover(n, d, lots);
    forall i | 0 <= i < |f| ensures 0 <= f[i] < t && 0 <= x[i] <= 1 { ShareSplits(n, d[i], t); }
    forall i, j | 0 <= i < |f| && 0 <= j < |f| && x[i] == 1 && x[j] == 0
      ensures f[j] <= f[i]
    {
      ExtraHasLarger(n, d, lots, i, j);
    }
  }

  lemma ExtraNeedsFraction(t: int, f: seq<int>, x: seq<int>, i: nat)
    requires Ranked(t, f, x) && i < |x| && x[i] == 1
    ensures 0 < f[i]
  {
    if f[i] == 0 {
      TotalMonotone(f, Scaled(x, t - 1));
      TotalScaled(x, t - 1);
      EntryBound(x, i);
      var left := Total(x);
      ProductOfNats(t, left);
    }
  }

  // Each venue gets the floor or the ceiling of its exact share: the extra lot goes only where there is a fraction.
  lemma FloorOrCeiling(n: nat, d: seq<int>, lots: seq<int>, i: nat)
    requires Displays(d) && LargestRemainder(n, d, lots) && i < |d|
    ensures lots[i] == Whole(n, d[i], Total(d)) ||
            (lots[i] == Whole(n, d[i], Total(d)) + 1 && 0 < Fraction(n, d[i], Total(d)))
  {
    var t := Total(d);
    RemaindersRank(n, d, lots);
    var x, f := Extras(n, d, lots, t), Fractions(n, d, t);
    if x[i] == 1 { ExtraNeedsFraction(t, f, x, i); }
  }

  lemma WholeMonotone(n: nat, x: int, y: int, t: int)
    requires 0 < t && 0 <= y <= x
    ensures Whole(n, y, t) <= Whole(n, x, t)
    ensures Whole(n, y, t) == Whole(n, x, t) ==> Fraction(n, y, t) <= Fraction(n, x, t)
  {
    ProductOfNats(n, x - y);
    assert n * x == n * y + n * (x - y);
    var q, q' := Whole(n, y, t), Whole(n, x, t);
    assert t * (q - q') <= Fraction(n, x, t) - Fraction(n, y, t);
    if q > q' { MultipleIsLarge(t, q - q'); }
  }

  // A venue that displays more never gets fewer lots.
  lemma DeeperGetsNoLess(n: nat, d: seq<int>, lots: seq<int>, i: nat, j: nat)
    requires Displays(d) && LargestRemainder(n, d, lots) && i < |d| && j < |d| && d[j] < d[i]
    ensures lots[j] <= lots[i]
  {
    var t := Total(d);
    WholeMonotone(n, d[i], d[j], t);
    assert lots[j] > Whole(n, d[j], t) && lots[i] == Whole(n, d[i], t) ==> Before(n, d, t, j, i);
  }

  function Abs(x: int): int {
    if x < 0 then -x else x
  }

  // How far an allocation is from the exact shares, in units of 1/t.
  function Deviations(n: nat, d: seq<int>, b: seq<int>): seq<int>
    requires |b| == |d|
  {
    seq(|d|, i requires 0 <= i < |d| => Abs(Total(d) * b[i] - n * d[i]))
  }

  // The fraction that separates the venues with an extra lot from the others.
  ghost predicate Threshold(t: int, f: seq<int>, x: seq<int>, theta: int)
    requires |f| == |x|
  {
    0 <= theta <= t && forall i | 0 <= i < |f| :: if x[i] == 1 then theta <= f[i] else f[i] <= theta
  }

  lemma ThresholdExists(t: int, f: seq<int>, x: seq<int>) returns (theta: int)
    requires Ranked(t, f, x)
    ensures Threshold(t, f, x, theta)
  {
    theta := t;
    for k := 0 to |f|
      invariant 0 <= theta <= t
      invariant forall i | 0 <= i < k && x[i] == 1 :: theta <= f[i]
      invariant theta == t || exists i | 0 <= i < k :: x[i] == 1 && theta == f[i]
    {
      if x[k] == 1 && f[k] < theta {
        theta := f[k];
      }
    }
  }

  // The distance of e lots from a remainder r, te and he standing for t * e and theta * e.
  lemma DistanceStep(t: int, theta: int, r: int, x: int, e: int, te: int, he: int)
    requires 0 < t && 0 <= theta <= t && 0 <= r < t && 0 <= x <= 1
    requires if x == 1 then theta <= r else r <= theta
    requires if e <= 0 then te <= 0 && te <= he else t <= te && theta <= he
    ensures Abs((if x == 1 then t else 0) - r) - (if x == 1 then t - 2 * theta else 0) <= Abs(te - r) - (te - 2 * he)
  {}

  lemma ProductBounds(t: int, theta: int, e: int)
    requires 0 < t && 0 <= theta <= t
    ensures if e <= 0 then t * e <= 0 && t * e <= theta * e else t <= t * e && theta <= theta * e
  {
    if e <= 0 {
      ProductOfNats(t, -e);
      ProductOfNats(t - theta, -e);
      assert t * -e == -(t * e) && (t - theta) * -e == theta * e - t * e;
    } else {
      ProductOfNats(t, e - 1);
      ProductOfNats(theta, e - 1);
      assert t * (e - 1) == t * e - t && theta * (e - 1) == theta * e - theta;
    }
  }

  lemma Distribute(a: int, b: int, c: int)
    ensures a * (b + c) == a * b + a * c
  {}

  lemma DistributeLeft(t: int, theta: int, b: int)
    ensures (t - 2 * theta) * b == t * b - 2 * (theta * b)
  {}

  // Moving one venue's lots away from its apportioned number costs at least t - 2 * theta a lot.
  lemma DeviationStep(t: int, theta: int, w: int, r: int, x: int, b: int)
    requires 0 < t && 0 <= theta <= t && 0 <= r < t && 0 <= x <= 1
    requires if x == 1 then theta <= r else r <= theta
    ensures Abs(t * (w + x) - (t * w + r)) - (t - 2 * theta) * (w + x) <= Abs(t * b - (t * w + r)) - (t - 2 * theta) * b
  {
    var e := b - w;
    ProductBounds(t, theta, e);
    DistanceStep(t, theta, r, x, e, t * e, theta * e);
    Distribute(t, w, x);
    Distribute(t, w, e);
    Distribute(t - 2 * theta, w, x);
    Distribute(t - 2 * theta, w, e);
    DistributeLeft(t, theta, e);
    Times01(t, x);
    Times01(t - 2 * theta, x);
  }

  lemma Times01(a: int, x: int)
    requires 0 <= x <= 1
    ensures a * x == if x == 1 then a else 0
  {}

  // How far b is from the exact shares t * w + f, in units of 1/t.
  function Distances(t: int, w: seq<int>, f: seq<int>, b: seq<int>): seq<int>
    requires |w| == |f| == |b|
  {
    seq(|b|, i requires 0 <= i < |b| => Abs(t * b[i] - (t * w[i] + f[i])))
  }

  function Sums(a: seq<int>, b: seq<int>): seq<int>
    requires |a| == |b|
  {
    seq(|a|, i requires 0 <= i < |a| => a[i] + b[i])
  }

  lemma LeastDistance(t: int, w: seq<int>, f: seq<int>, x: seq<int>, b: seq<int>)
    requires Ranked(t, f, x) && |w| == |f| == |b| && Total(b) == Total(Sums(w, x))
    ensures Total(Distances(t, w, f, Sums(w, x))) <= Total(Distances(t, w, f, b))
  {
    var theta := ThresholdExists(t, f, x);
    var c, a := t - 2 * theta, Sums(w, x);
    var p := Less(Distances(t, w, f, a), Scaled(a, c));
    var q := Less(Distances(t, w, f, b), Scaled(b, c));
    forall i | 0 <= i < |w| ensures p[i] <= q[i] {
      DeviationStep(t, theta, w[i], f[i], x[i], b[i]);
    }
    TotalMonotone(p, q);
    TotalSum(p, Scaled(a, c), Distances(t, w, f, a));
    TotalSum(q, Scaled(b, c), Distances(t, w, f, b));
    TotalScaled(a, c);
    TotalScaled(b, c);
  }

  function Less(a: seq<int>, b: seq<int>): seq<int>
    requires |a| == |b|
  {
    seq(|a|, i requires 0 <= i < |a| => a[i] - b[i])
  }

  // No whole-lot allocation of the same n lots is closer to the exact shares.
  lemma LeastDeviation(n: nat, d: seq<int>, lots: seq<int>, b: seq<int>)
    requires Displays(d) && LargestRemainder(n, d, lots) && |b| == |d| && Total(b) == n
    ensures Total(Deviations(n, d, lots)) <= Total(Deviations(n, d, b))
  {
    var t := Total(d);
    var w, f, x := Wholes(n, d, t), Fractions(n, d, t), Extras(n, d, lots, t);
    RemaindersRank(n, d, lots);
    assert Sums(w, x) == lots;
    LeastDistance(t, w, f, x, b);
    SameDistances(n, d, lots);
    SameDistances(n, d, b);
  }

  lemma SameDistances(n: nat, d: seq<int>, b: seq<int>)
    requires |b| == |d| && 0 < Total(d)
    ensures var t := Total(d); Deviations(n, d, b) == Distances(t, Wholes(n, d, t), Fractions(n, d, t), b)
  {
    var t := Total(d);
    var p, q := Deviations(n, d, b), Distances(t, Wholes(n, d, t), Fractions(n, d, t), b);
    forall i | 0 <= i < |d| ensures p[i] == q[i] { ShareSplits(n, d[i], t); }
    assert p == q;
  }
}
