/** The rule-based symmetric risk manager. */
module Risk {
  import opened Collections
  import opened Trading
  import opened DecisionPolicy
  import Broker

  datatype RiskConfig = RiskConfig(
    maxNotional: real, maxPct: real, maxTotalPct: real, maxOpen: nat,
    buyingPowerBuffer: real, slippageBuffer: real, maxDailyLoss: real)

  predicate ValidRisk(c: RiskConfig) {
    c.slippageBuffer >= 0.0
  }

  datatype Quote = Quote(bid: real, ask: real)

  datatype Verdict = Approved(side: Side, qty: real) | Refused(reason: string)

  function GrossPositions(positions: map<string, Broker.Position>): map<string, real> {
    map s | s in positions :: Abs(positions[s].marketValue)
  }

  /** `math.floor(budget / unit)`. */
  function WholeShares(budget: real, unit: real): (n: int)
    requires unit > 0.0
    ensures n as real * unit <= budget
  {
    FloorBounds(budget, unit);
    (budget / unit).Floor
  }

  lemma {:induction false} FloorBounds(a: real, b: real)
    requires b > 0.0
    ensures (a / b).Floor as real * b <= a
  {
    assert (a / b).Floor as real <= a / b;
    assert (a / b) * b == a;
  }

  /** The price a share may cost once slippage is allowed for. */
  function Buffered(c: RiskConfig, price: real): (unit: real)
    requires ValidRisk(c) && price > 0.0
    ensures unit >= price
  {
    assert price * c.slippageBuffer >= 0.0;
    price * (1.0 + c.slippageBuffer)
  }

  function Budget(c: RiskConfig, a: Broker.Account): real {
    MinReal(c.maxNotional, c.maxPct * a.equity)
  }

  function Available(c: RiskConfig, a: Broker.Account): real {
    a.buyingPower * c.buyingPowerBuffer
  }

  function Cost(n: int, unit: real): real {
    n as real * unit
  }

  /** How many whole shares the position budget and the buffered buying power allow. */
  function Shares(c: RiskConfig, a: Broker.Account, price: real): int
    requires ValidRisk(c) && price > 0.0
  {
    var qty := WholeShares(Budget(c, a), price);
    if qty >= 1 && Cost(qty, Buffered(c, price)) > Available(c, a) then WholeShares(Available(c, a), Buffered(c, price))
    else qty
  }

  function ExposureLimit(c: RiskConfig, a: Broker.Account): real {
    c.maxTotalPct * a.equity
  }

  predicate LossLimitHit(c: RiskConfig, a: Broker.Account) {
    a.lastEquity > 0.0 && (a.equity - a.lastEquity) / a.lastEquity < -c.maxDailyLoss
  }

  ghost function AssessEntry(c: RiskConfig, target: Exposure, a: Broker.Account, quote: Quote): Verdict
    requires ValidRisk(c)
  {
    if LossLimitHit(c, a) then Refused("daily loss limit hit")
    else if |a.positions| >= c.maxOpen then Refused("max open positions reached")
    else
      var side := if target == Long then Buy else Sell;
      var price := if side == Buy then quote.ask else quote.bid;
      if price <= 0.0 then Refused("no valid price") else
        var qty := Shares(c, a, price);
        if qty < 1 then Refused("price exceeds position budget or buying power")
        else if Sum(GrossPositions(a.positions)) + qty as real * price > ExposureLimit(c, a) then
          Refused("gross exposure limit reached")
        else Approved(side, qty as real)
  }

  /** Close-first: any change away from an open position closes it, bypassing every entry limit. */
  ghost function Assess(c: RiskConfig, symbol: string, target: Exposure, a: Broker.Account, quote: Quote): Verdict
    requires ValidRisk(c)
  {
    var current := if symbol in a.positions then ExposureOf(a.positions[symbol].qty) else Flat;
    if target == Unchanged then Refused("unchanged target")
    else if target == current then Refused("already there (no pyramiding)")
    else if symbol in a.positions then
      if Abs(a.positions[symbol].qty) <= 0.0 then Refused("position has zero quantity")
      else Approved(if a.positions[symbol].qty > 0.0 then Sell else Buy, Abs(a.positions[symbol].qty))
    else if target == Flat then Refused("already flat")
    else AssessEntry(c, target, a, quote)
  }

  /**
   * A quantity worth no more than the notional cap and the equity share of one position, and, with
   * slippage allowed for, no more than the buffered buying power.
   */
  predicate Affords(c: RiskConfig, a: Broker.Account, price: real, n: int) {
    && n as real * price <= c.maxNotional && n as real * price <= c.maxPct * a.equity
    && n as real * (price * (1.0 + c.slippageBuffer)) <= a.buyingPower * c.buyingPowerBuffer
  }

  lemma {:induction false} AffordsIs(c: RiskConfig, a: Broker.Account, price: real, n: int)
    requires ValidRisk(c) && price > 0.0
    ensures Affords(c, a, price, n) <==> Cost(n, price) <= Budget(c, a) && Cost(n, Buffered(c, price)) <= Available(c, a)
  {}

  lemma {:induction false} FloorIsLargest(budget: real, unit: real, n: int)
    requires unit > 0.0
    ensures n <= WholeShares(budget, unit) <==> Cost(n, unit) <= budget
  {
    var most := WholeShares(budget, unit);
    assert (budget / unit) * unit == budget;
    if n <= most {
      assert (most - n) as real * unit >= 0.0;
    } else {
      assert n as real > budget / unit;
      assert (n as real - budget / unit) * unit > 0.0;
    }
  }

  lemma {:induction false} FewerCostLess(few: int, many: int, unit: real)
    requires unit > 0.0 && few <= many
    ensures Cost(few, unit) <= Cost(many, unit)
  {
    assert (many - few) as real * unit >= 0.0;
  }

  /** The quantity is the largest affordable one: at least one share is affordable exactly up to it. */
  lemma {:induction false} SharesAreLargest(c: RiskConfig, a: Broker.Account, price: real, n: int)
    requires ValidRisk(c) && price > 0.0 && n >= 1
    ensures Affords(c, a, price, n) <==> n <= Shares(c, a, price)
  {
    AffordsIs(c, a, price, n);
    hide Budget, Available, WholeShares, Buffered, Cost, Affords;
    var unit := Buffered(c, price);
    var first := WholeShares(Budget(c, a), price);
    FloorIsLargest(Budget(c, a), price, n);
    FloorIsLargest(Available(c, a), unit, n);
    FloorIsLargest(Available(c, a), unit, first);
    if n <= first {
      FewerCostLess(n, first, unit);
    }
  }

  /** `n` shares are affordable, and no more. */
  ghost predicate Largest(c: RiskConfig, a: Broker.Account, price: real, n: int) {
    n >= 1 && Affords(c, a, price, n) && forall m :: m >= 1 && Affords(c, a, price, m) ==> m <= n
  }

  lemma {:induction false} LargestIsShares(c: RiskConfig, a: Broker.Account, price: real, n: int)
    requires ValidRisk(c) && price > 0.0
    ensures Largest(c, a, price, n) <==> n >= 1 && n == Shares(c, a, price)
  {
    hide Shares, Affords;
    var most := Shares(c, a, price);
    forall m | m >= 1 ensures Affords(c, a, price, m) <==> m <= most {
      SharesAreLargest(c, a, price, m);
    }
    if most >= 1 {
      assert Affords(c, a, price, most);
    }
  }

  /** What a request may be answered with, said without saying how it is found. */
  ghost predicate Permitted(
    c: RiskConfig, symbol: string, target: Exposure, a: Broker.Account, quote: Quote, side: Side, qty: real)
  {
    if symbol in a.positions then
      // Away from a position: close it exactly, whatever the limits.
      && target != Unchanged && target != ExposureOf(a.positions[symbol].qty)
      && qty > 0.0 && a.positions[symbol].qty + Signed(side, qty) == 0.0
    else
      // From flat: within every limit, the largest affordable whole quantity or nothing.
      var price := if side == Buy then quote.ask else quote.bid;
      && target == (if side == Buy then Long else Short)
      && (a.lastEquity > 0.0 ==> a.equity - a.lastEquity >= -c.maxDailyLoss * a.lastEquity)
      && |a.positions| < c.maxOpen && price > 0.0
      && qty == qty.Floor as real && Largest(c, a, price, qty.Floor)
      && Sum(Exposures(a.positions)) + qty * price <= c.maxTotalPct * a.equity
  }

  /** What each position is worth, a short one as much as a long one. */
  ghost function Exposures(positions: map<string, Broker.Position>): map<string, real> {
    map s | s in positions :: if positions[s].marketValue < 0.0 then -positions[s].marketValue else positions[s].marketValue
  }

  lemma {:induction false} LimitsAre(c: RiskConfig, a: Broker.Account)
    ensures LossLimitHit(c, a) <==> a.lastEquity > 0.0 && a.equity - a.lastEquity < -c.maxDailyLoss * a.lastEquity
    ensures ExposureLimit(c, a) == c.maxTotalPct * a.equity
    ensures GrossPositions(a.positions) == Exposures(a.positions)
  {
    if a.lastEquity > 0.0 {
      RatioBelow(a.equity - a.lastEquity, a.lastEquity, -c.maxDailyLoss);
    }
  }

  lemma {:induction false} RatioBelow(change: real, base: real, limit: real)
    requires base > 0.0
    ensures change / base < limit <==> change < limit * base
  {
    var ratio := change / base;
    assert ratio * base == change;
    if ratio < limit {
      assert (limit - ratio) * base > 0.0;
    } else {
      assert (ratio - limit) * base >= 0.0;
    }
  }

  /** The decision is exact: an order is approved if and only if it is the permitted one. */
  lemma {:induction false} ApprovedIsPermitted(
    c: RiskConfig, symbol: string, target: Exposure, a: Broker.Account, quote: Quote, side: Side, qty: real)
    requires ValidRisk(c)
    ensures Assess(c, symbol, target, a, quote) == Approved(side, qty) <==> Permitted(c, symbol, target, a, quote, side, qty)
  {
    LimitsAre(c, a);
    hide LossLimitHit, Shares, Sum, GrossPositions, Exposures, ExposureLimit, Largest;
    if symbol !in a.positions {
      var price := if side == Buy then quote.ask else quote.bid;
      if price > 0.0 { LargestIsShares(c, a, price, qty.Floor); }
    }
  }

  /** `assess`: approves the permitted order, and refuses only when none is permitted. */
  method AssessRisk(c: RiskConfig, symbol: string, target: Exposure, a: Broker.Account, quote: Quote)
    returns (v: Verdict)
    requires ValidRisk(c)
    ensures v == Assess(c, symbol, target, a, quote)
    ensures v.Approved? ==> Permitted(c, symbol, target, a, quote, v.side, v.qty)
    ensures v.Refused? ==> forall side, qty :: !Permitted(c, symbol, target, a, quote, side, qty)
  {
    v := Weigh(c, symbol, target, a, quote);
    forall side, qty ensures v == Approved(side, qty) <==> Permitted(c, symbol, target, a, quote, side, qty) {
      ApprovedIsPermitted(c, symbol, target, a, quote, side, qty);
    }
  }

  /** The branches of `assess` and `_assess_entry`. */
  method Weigh(c: RiskConfig, symbol: string, target: Exposure, a: Broker.Account, quote: Quote) returns (v: Verdict)
    requires ValidRisk(c)
    ensures v == Assess(c, symbol, target, a, quote)
  {
    hide LossLimitHit, Shares, Sum, GrossPositions, ExposureLimit;
    var current := if symbol in a.positions then ExposureOf(a.positions[symbol].qty) else Flat;
    if target == Unchanged { return Refused("unchanged target"); }
    if target == current { return Refused("already there (no pyramiding)"); }
    if symbol in a.positions {
      var qty := Abs(a.positions[symbol].qty);
      if qty <= 0.0 { return Refused("position has zero quantity"); }
      return Approved(if a.positions[symbol].qty > 0.0 then Sell else Buy, qty);
    }
    if target == Flat { return Refused("already flat"); }
    if LossLimitHit(c, a) { return Refused("daily loss limit hit"); }
    if |a.positions| >= c.maxOpen { return Refused("max open positions reached"); }
    var side := if target == Long then Buy else Sell;
    var price := if side == Buy then quote.ask else quote.bid;
    if price <= 0.0 { return Refused("no valid price"); }
    var qty := Shares(c, a, price);
    if qty < 1 { return Refused("price exceeds position budget or buying power"); }
    var gross := Broker.SumValues(GrossPositions(a.positions));
    if gross + qty as real * price > ExposureLimit(c, a) { return Refused("gross exposure limit reached"); }
    v := Approved(side, qty as real);
  }

  /**
   * An approval either flattens an open position exactly, or opens from flat a whole number of
   * shares that fits the position budget, the buffered buying power and the gross exposure limit.
   */
  lemma {:induction false} ApprovalIsSafe(c: RiskConfig, symbol: string, target: Exposure, a: Broker.Account, quote: Quote)
    requires ValidRisk(c) && Assess(c, symbol, target, a, quote).Approved?
    ensures
      var v := Assess(c, symbol, target, a, quote);
      && v.qty > 0.0
      && (symbol in a.positions ==> a.positions[symbol].qty + Signed(v.side, v.qty) == 0.0)
      && (symbol !in a.positions ==>
            var price := if v.side == Buy then quote.ask else quote.bid;
            && v.side == (if target == Long then Buy else Sell)
            && v.qty == v.qty.Floor as real && v.qty >= 1.0 && price > 0.0
            && |a.positions| < c.maxOpen
            && v.qty * price <= c.maxNotional && v.qty * price <= c.maxPct * a.equity
            && v.qty * (price * (1.0 + c.slippageBuffer)) <= a.buyingPower * c.buyingPowerBuffer
            && Sum(Exposures(a.positions)) + v.qty * price <= c.maxTotalPct * a.equity)
  {
    LimitsAre(c, a);
    hide LossLimitHit, Shares, Sum, GrossPositions, Exposures, ExposureLimit;
    if symbol !in a.positions {
      var price := if target == Long then quote.ask else quote.bid;
      SharesFit(c, a, price);
    }
  }

  lemma {:induction false} SharesFit(c: RiskConfig, a: Broker.Account, price: real)
    requires ValidRisk(c) && price > 0.0
    ensures Shares(c, a, price) >= 1 ==> Affords(c, a, price, Shares(c, a, price))
  {
    hide Affords, Shares;
    if Shares(c, a, price) >= 1 {
      SharesAreLargest(c, a, price, Shares(c, a, price));
    }
  }
}
