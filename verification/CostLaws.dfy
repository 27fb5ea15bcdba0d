/** How the expected cost of a venue depends on each of its figures, one at a time: together with what the edges and a
    venue without rates cost, these differences fix every price the router puts on a venue.  */
module CostLaws {
  import opened RoutingCosts
  import opened RoutingTable

  // Nothing costs nothing, and a venue that displays nothing costs the top.
  lemma LitEdges(cfg: RouterConfig, v: VenueState, quantity: int, visible: int, top: real)
    ensures LitCost(cfg, v, 0, visible, top) == 0.0
    ensures quantity != 0 ==> LitCost(cfg, v, quantity, 0, top) == top
  {}

  lemma FreeLitVenue(cfg: RouterConfig, v: VenueState, quantity: int, visible: int, top: real)
    requires v.halfSpread == v.feePerShare == v.impact == 0.0 && v.latencyUs == 0 && visible != 0
    ensures LitCost(cfg, v, quantity, visible, top) == 0.0
  {
    NoImpact(quantity, visible);
  }

  lemma NoImpact(quantity: int, visible: int)
    requires visible != 0
    ensures ImpactCost(0.0, quantity, visible) == 0.0
  {
    var square := (quantity * quantity) as real;
    assert 0.0 * square == 0.0;
  }

  // A fee is paid on every share ...
  lemma FeePerShare(cfg: RouterConfig, v: VenueState, fee: real, quantity: int, visible: int, top: real)
    requires quantity != 0 && visible != 0
    ensures LitCost(cfg, v.(feePerShare := fee), quantity, visible, top) - LitCost(cfg, v, quantity, visible, top) ==
            (fee - v.feePerShare) * (quantity as real)
  {
    hide ImpactCost;
    Difference(fee, v.feePerShare, quantity as real);
  }

  // ... and so is half the spread.
  lemma HalfSpreadPerShare(cfg: RouterConfig, v: VenueState, halfSpread: real, quantity: int, visible: int, top: real)
    requires quantity != 0 && visible != 0
    ensures LitCost(cfg, v.(halfSpread := halfSpread), quantity, visible, top) - LitCost(cfg, v, quantity, visible, top)
            == (halfSpread - v.halfSpread) * (quantity as real)
  {
    hide ImpactCost;
    Difference(halfSpread, v.halfSpread, quantity as real);
  }

  // The impact grows with the square of the quantity over the displayed size.
  lemma ImpactPerSquare(cfg: RouterConfig, v: VenueState, impact: real, quantity: int, visible: int, top: real)
    requires quantity != 0 && visible != 0
    ensures LitCost(cfg, v.(impact := impact), quantity, visible, top) - LitCost(cfg, v, quantity, visible, top) ==
            (impact - v.impact) * ((quantity * quantity) as real) / (visible as real)
  {
    hide PerShare;
    var square, shown := (quantity * quantity) as real, visible as real;
    Difference(impact, v.impact, square);
    QuotientDifference(impact * square, v.impact * square, shown);
  }

  // The latency is paid once, whatever the quantity.
  lemma LatencyOnce(cfg: RouterConfig, v: VenueState, latencyUs: int, quantity: int, visible: int, top: real)
    requires quantity != 0 && visible != 0
    ensures LitCost(cfg, v.(latencyUs := latencyUs), quantity, visible, top) - LitCost(cfg, v, quantity, visible, top)
            == ((latencyUs - v.latencyUs) * cfg.latencyCostFactor) as real
  {
    hide PerShare, ImpactCost;
    assert (latencyUs - v.latencyUs) * cfg.latencyCostFactor ==
           latencyUs * cfg.latencyCostFactor - v.latencyUs * cfg.latencyCostFactor;
  }

  lemma Difference(x: real, y: real, z: real)
    ensures (x - y) * z == x * z - y * z
  {}

  lemma QuotientDifference(x: real, y: real, z: real)
    requires z != 0.0
    ensures (x - y) / z == x / z - y / z
  {}

  // ---- Dark venues ----

  // What an order costs if it is filled, and what it costs if it is missed: the same lots on the lit venues and a
  // delay for every share.
  function IfFilled(cfg: RouterConfig, v: VenueState, quantity: int): real {
    v.feePerShare * (quantity as real) + ((v.latencyUs * cfg.latencyCostFactor) as real)
  }

  function IfMissed(cfg: RouterConfig, quantity: int, litRow: Row): real
    requires 0 < quantity && 1 <= cfg.lotSize && 0 <= quantity / cfg.lotSize < |litRow|
  {
    litRow[quantity / cfg.lotSize] + ((cfg.latencyCostFactor * quantity) as real)
  }

  // A venue that never fills costs what a miss costs.
  lemma NeverFilled(cfg: RouterConfig, exp: real -> real, v: VenueState, quantity: int, litRow: Row)
    requires 0 < quantity && 1 <= cfg.lotSize && 0 <= quantity / cfg.lotSize < |litRow| && v.historicalFillRatio == 0.0
    ensures DarkCost(cfg, exp, v, quantity, litRow) == IfMissed(cfg, quantity, litRow)
  {
    assert 0.0 * exp(Exponent(cfg, quantity)) == 0.0;
  }

  // The chance of a fill trades one against the other, linearly.
  lemma ChanceOfFill(cfg: RouterConfig, exp: real -> real, v: VenueState, ratio: real, quantity: int, litRow: Row)
    requires 0 < quantity && 1 <= cfg.lotSize && 0 <= quantity / cfg.lotSize < |litRow|
    ensures DarkCost(cfg, exp, v.(historicalFillRatio := ratio), quantity, litRow)
            - DarkCost(cfg, exp, v, quantity, litRow) ==
            (ratio - v.historicalFillRatio) * exp(Exponent(cfg, quantity))
            * (IfFilled(cfg, v, quantity) - IfMissed(cfg, quantity, litRow))
  {
    var e, filled, missed := exp(Exponent(cfg, quantity)), IfFilled(cfg, v, quantity), IfMissed(cfg, quantity, litRow);
    Mixed(ratio * e, v.historicalFillRatio * e, filled, missed);
    Difference(ratio, v.historicalFillRatio, e);
  }

  lemma Mixed(p: real, q: real, x: real, y: real)
    ensures p * x + (1.0 - p) * y - (q * x + (1.0 - q) * y) == (p - q) * (x - y)
  {}

  ghost predicate IsExponential(exp: real -> real) {
    forall x: real, y: real :: exp(x + y) == exp(x) * exp(y)
  }

  lemma ExponentsAdd(exp: real -> real, x: real, y: real)
    requires IsExponential(exp)
    ensures exp(x + y) == exp(x) * exp(y)
  {}

  // Every further share scales the chance of a fill by the same decay.
  lemma DecaysPerShare(cfg: RouterConfig, exp: real -> real, v: VenueState, quantity: int)
    requires IsExponential(exp)
    ensures FillRatio(cfg, exp, v, 0) == v.historicalFillRatio * exp(0.0)
    ensures FillRatio(cfg, exp, v, quantity + 1) == FillRatio(cfg, exp, v, quantity) * exp(-cfg.darkPoolDecayRate)
  {
    hide IsExponential, Exponent;
    ExponentPerShare(cfg, quantity);
    var x, y := Exponent(cfg, quantity), -cfg.darkPoolDecayRate;
    ExponentsAdd(exp, x, y);
    Associate(v.historicalFillRatio, exp(x), exp(y));
  }

  lemma ExponentPerShare(cfg: RouterConfig, quantity: int)
    ensures Exponent(cfg, 0) == 0.0 && Exponent(cfg, quantity + 1) == Exponent(cfg, quantity) + -cfg.darkPoolDecayRate
  {
    var d, q := -cfg.darkPoolDecayRate, quantity as real;
    assert d * (q + 1.0) == d * q + d;
  }

  lemma Associate(x: real, y: real, z: real)
    ensures x * (y * z) == x * y * z
  {}
}
