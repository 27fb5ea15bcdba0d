/** The expected cost of sending a quantity to a lit or a dark venue.

    Costs are exact reals.  `top` stands for the largest double, which prices a venue without visible
    liquidity; it takes part in arithmetic like any other number.  The exponential is a parameter.  */
module RoutingCosts {
  import opened Arithmetic
  import opened RoutingTable

  datatype VenueKind = LIT | DARK

  // One venue as the router sees it, `visible` being its displayed size within the parent's limit.
  datatype VenueState = VenueState(kind: VenueKind, halfSpread: real, feePerShare: real, latencyUs: int, impact: real,
                                   historicalFillRatio: real, visible: int, bestBid: int, bestAsk: int)

  datatype RouterConfig = RouterConfig(lotSize: int, latencyCostFactor: int, darkPoolDecayRate: real)

  function Visible(v: VenueState): int {
    if v.kind == DARK then 0 else v.visible
  }

  function PerShare(rate: real, quantity: int): real {
    rate * (quantity as real)
  }

  // The impact grows with the square of the quantity, relative to what is displayed.
  function ImpactCost(impact: real, quantity: int, visible: int): real
    requires visible != 0
  {
    impact * ((quantity * quantity) as real) / (visible as real)
  }

  function LitCost(cfg: RouterConfig, v: VenueState, quantity: int, visibleLiquidity: int, top: real): real {
    if quantity == 0 then 0.0
    else if visibleLiquidity == 0 then top
    else
      var spreadCost := PerShare(v.halfSpread, quantity);
      var impactCost := ImpactCost(v.impact, quantity, visibleLiquidity);
      var feeCost := PerShare(v.feePerShare, quantity);
      var latencyCost := (v.latencyUs * cfg.latencyCostFactor) as real;
      spreadCost + impactCost + feeCost + latencyCost
  }

  function Exponent(cfg: RouterConfig, quantity: int): real {
    -cfg.darkPoolDecayRate * (quantity as real)
  }

  function FillRatio(cfg: RouterConfig, exp: real -> real, v: VenueState, quantity: int): real {
    v.historicalFillRatio * exp(Exponent(cfg, quantity))
  }

  // What a miss costs: the quantity's lots on the lit venues, plus the delay.
  function MissPenalty(cfg: RouterConfig, quantity: int, litRow: Row): real
    requires 1 <= cfg.lotSize && quantity / cfg.lotSize < |litRow|
  {
    if quantity <= 0 then 0.0
    else
      Quotient(quantity, cfg.lotSize);
      litRow[quantity / cfg.lotSize] + ((cfg.latencyCostFactor * quantity) as real)
  }

  function DarkCost(cfg: RouterConfig, exp: real -> real, v: VenueState, quantity: int, litRow: Row): real
    requires 1 <= cfg.lotSize && quantity / cfg.lotSize < |litRow|
  {
    if quantity == 0 then 0.0
    else
      var pFill := FillRatio(cfg, exp, v, quantity);
      var costIfFilled := v.feePerShare * (quantity as real) + ((v.latencyUs * cfg.latencyCostFactor) as real);
      pFill * costIfFilled + (1.0 - pFill) * MissPenalty(cfg, quantity, litRow)
  }

  lemma Quotient(q: int, lot: int)
    requires 0 <= q && 1 <= lot
    ensures 0 <= q / lot
  {}

  // The assumptions on configuration and quotes: nothing is paid to the router, fill ratios are
  // probabilities, and the exponential of a non-positive number lies in (0, 1].
  ghost predicate SaneVenue(v: VenueState) {
    && 0.0 <= v.halfSpread && 0.0 <= v.feePerShare && 0 <= v.latencyUs && 0.0 <= v.impact
    && 0.0 <= v.historicalFillRatio <= 1.0 && 0 <= v.visible
  }

  ghost predicate SaneConfig(cfg: RouterConfig, exp: real -> real) {
    && 1 <= cfg.lotSize && 0 <= cfg.latencyCostFactor && 0.0 <= cfg.darkPoolDecayRate
    && forall x: real | x <= 0.0 :: 0.0 <= exp(x) <= 1.0
  }

  lemma ProductNonNegative(x: real, y: real)
    requires 0.0 <= x && 0.0 <= y
    ensures 0.0 <= x * y
  {}

  lemma QuotientNonNegative(x: real, y: real)
    requires 0.0 <= x && 0.0 < y
    ensures 0.0 <= x / y
  {}

  lemma LitCostNonNegative(cfg: RouterConfig, exp: real -> real, v: VenueState, quantity: int, visible: int, top: real)
    requires SaneConfig(cfg, exp) && SaneVenue(v) && 0 <= quantity && 0 <= visible && 0.0 < top
    ensures 0.0 <= LitCost(cfg, v, quantity, visible, top)
  {
    if quantity != 0 && visible != 0 {
      var q := quantity as real;
      ProductNonNegative(v.halfSpread, q);
      ProductOfNats(quantity, quantity);
      ProductNonNegative(v.impact, (quantity * quantity) as real);
      QuotientNonNegative(v.impact * ((quantity * quantity) as real), visible as real);
      ProductNonNegative(v.feePerShare, q);
      ProductOfNats(v.latencyUs, cfg.latencyCostFactor);
    }
  }

  lemma ProductGrows(x: real, y: real, z: real)
    requires 0.0 <= x && y <= z
    ensures x * y <= x * z
  {
    ProductNonNegative(x, z - y);
    assert x * (z - y) == x * z - x * y;
  }

  lemma QuotientGrows(x: real, y: real, z: real)
    requires x <= y && 0.0 < z
    ensures x / z <= y / z
  {
    QuotientNonNegative(y - x, z);
    assert (y - x) / z == y / z - x / z;
  }

  lemma SquareGrows(a: int, b: int)
    requires 0 <= a <= b
    ensures a * a <= b * b
  {
    ProductOfNats(b - a, a + b);
    assert (b - a) * (a + b) == b * b - a * a;
  }

  lemma PerShareGrows(rate: real, less: int, more: int)
    requires 0.0 <= rate && less <= more
    ensures PerShare(rate, less) <= PerShare(rate, more)
  {
    ProductGrows(rate, less as real, more as real);
  }

  lemma ImpactGrows(impact: real, less: int, more: int, visible: int)
    requires 0.0 <= impact && 0 <= less <= more && 0 < visible
    ensures ImpactCost(impact, less, visible) <= ImpactCost(impact, more, visible)
  {
    SquareGrows(less, more);
    ProductGrows(impact, (less * less) as real, (more * more) as real);
    QuotientGrows(impact * ((less * less) as real), impact * ((more * more) as real), visible as real);
  }

  // On a sane lit venue more costs no less.
  lemma LitCostGrows(cfg: RouterConfig, exp: real -> real, v: VenueState, less: int, more: int, visible: int, top: real)
    requires SaneConfig(cfg, exp) && SaneVenue(v) && 0 <= less <= more && 0 <= visible && 0.0 < top
    ensures LitCost(cfg, v, less, visible, top) <= LitCost(cfg, v, more, visible, top)
  {
    hide PerShare, ImpactCost;
    if less == 0 {
      LitCostNonNegative(cfg, exp, v, more, visible, top);
    } else if visible != 0 {
      PerShareGrows(v.halfSpread, less, more);
      ImpactGrows(v.impact, less, more, visible);
      PerShareGrows(v.feePerShare, less, more);
    }
  }

  lemma FillRatioIsProbability(cfg: RouterConfig, exp: real -> real, v: VenueState, quantity: int)
    requires SaneConfig(cfg, exp) && SaneVenue(v) && 0 <= quantity
    ensures 0.0 <= FillRatio(cfg, exp, v, quantity) <= v.historicalFillRatio
  {
    ExponentNonPositive(cfg.darkPoolDecayRate, quantity as real);
    var e := exp(Exponent(cfg, quantity));
    assert 0.0 <= e <= 1.0;
    Shrinks(v.historicalFillRatio, e);
  }

  lemma ExponentNonPositive(x: real, y: real)
    requires 0.0 <= x && 0.0 <= y
    ensures -x * y <= 0.0
  {
    ProductNonNegative(x, y);
    assert -x * y == -(x * y);
  }

  lemma Shrinks(x: real, y: real)
    requires 0.0 <= x && 0.0 <= y <= 1.0
    ensures 0.0 <= x * y <= x
  {
    ProductNonNegative(x, y);
    ProductNonNegative(x, 1.0 - y);
    assert x * (1.0 - y) == x - x * y;
  }

  lemma MeanNonNegative(p: real, x: real, y: real)
    requires 0.0 <= p <= 1.0 && 0.0 <= x && 0.0 <= y
    ensures 0.0 <= p * x + (1.0 - p) * y
  {
    ProductNonNegative(p, x);
    ProductNonNegative(1.0 - p, y);
  }

  // The dark cost is a mean of two non-negative costs.
  lemma DarkCostNonNegative(cfg: RouterConfig, exp: real -> real, v: VenueState, quantity: int, litRow: Row)
    requires SaneConfig(cfg, exp) && SaneVenue(v) && 0 <= quantity && quantity / cfg.lotSize < |litRow|
    requires forall n | 0 <= n < |litRow| :: 0.0 <= litRow[n]
    ensures 0.0 <= DarkCost(cfg, exp, v, quantity, litRow)
  {
    FillRatioIsProbability(cfg, exp, v, quantity);
    Quotient(quantity, cfg.lotSize);
    ProductNonNegative(v.feePerShare, quantity as real);
    ProductOfNats(v.latencyUs, cfg.latencyCostFactor);
    ProductOfNats(cfg.latencyCostFactor, quantity);
    MeanNonNegative(FillRatio(cfg, exp, v, quantity),
                    v.feePerShare * (quantity as real) + ((v.latencyUs * cfg.latencyCostFactor) as real),
                    MissPenalty(cfg, quantity, litRow));
  }
}
