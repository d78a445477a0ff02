/** The signed-position broker: orders are accepted now and filled at the next bar's open. */
module Broker {
  import opened Wrappers
  import opened Collections
  import opened Trading

  datatype Bar = Bar(at: int, open: real, high: real, low: real, close: real, volume: real)

  datatype Request = Request(symbol: string, side: Side, qty: real)

  /** An order as the broker reports it; its id is its issue number. */
  datatype Order = Order(
    id: nat, symbol: string, side: Side, qty: real, status: Status, filledQty: real,
    filledPrice: Option<real>, submittedAt: int, filledAt: Option<int>)

  /** An entry of the pending dictionary, which keeps insertion order. */
  datatype Ticket = Ticket(id: nat, request: Request)

  datatype Holding = Holding(qty: real, avg: real)

  datatype Config = Config(capital: real, spread: real, slippage: real, margin: real)

  datatype Position = Position(qty: real, avg: real, marketValue: real, unrealized: real, price: real)

  datatype Account = Account(
    equity: real, cash: real, buyingPower: real, lastEquity: real, positions: map<string, Position>)

  /** Everything the broker remembers. */
  datatype Ledger = Ledger(
    cash: real, holdings: map<string, Holding>, closes: map<string, real>, asOf: Option<int>,
    lastEquity: real, session: Option<int>, orders: seq<Order>, pending: seq<Ticket>)

  function NewLedger(cfg: Config): Ledger {
    Ledger(cfg.capital, map[], map[], None, cfg.capital, None, [], [])
  }

  // ------------------------------------------------------------ valuation

  /** The last close, or the entry price of a symbol that never had one. */
  function Price(closes: map<string, real>, symbol: string, h: Holding): real {
    if symbol in closes then closes[symbol] else h.avg
  }

  function MarkedValues(holdings: map<string, Holding>, closes: map<string, real>): map<string, real> {
    map s | s in holdings :: holdings[s].qty * Price(closes, s, holdings[s])
  }

  function GrossValues(holdings: map<string, Holding>, closes: map<string, real>): map<string, real> {
    map s | s in holdings :: Abs(holdings[s].qty) * Price(closes, s, holdings[s])
  }

  function Positions(holdings: map<string, Holding>, closes: map<string, real>): map<string, Position> {
    map s | s in holdings :: PositionOf(closes, s, holdings[s])
  }

  ghost function Equity(b: Ledger): real {
    b.cash + Sum(MarkedValues(b.holdings, b.closes))
  }

  ghost function BuyingPower(cfg: Config, b: Ledger): real {
    MaxReal(0.0, Equity(b) * cfg.margin - Sum(GrossValues(b.holdings, b.closes)))
  }

  function PositionOf(closes: map<string, real>, symbol: string, h: Holding): Position {
    var price := Price(closes, symbol, h);
    Position(h.qty, h.avg, h.qty * price, (price - h.avg) * h.qty, price)
  }

  ghost function AccountOf(cfg: Config, b: Ledger): Account {
    Account(Equity(b), b.cash, BuyingPower(cfg, b), b.lastEquity, Positions(b.holdings, b.closes))
  }

  // ---------------------------------------------------------------- fills

  /** `_fill_price`: the open, worsened by half the spread and the slippage; a non-positive open is refused. */
  function FillPrice(cfg: Config, side: Side, open: real): Option<real> {
    if open <= 0.0 then None
    else if side == Buy then Some(open * (1.0 + cfg.spread / 2.0) * (1.0 + cfg.slippage))
    else Some(open * (1.0 - cfg.spread / 2.0) * (1.0 - cfg.slippage))
  }

  function Held(b: Ledger, symbol: string): real {
    if symbol in b.holdings then b.holdings[symbol].qty else 0.0
  }

  /** Reductions are always allowed; only an increase in absolute exposure consumes buying power. */
  ghost predicate Affordable(cfg: Config, b: Ledger, r: Request, price: real) {
    Abs(Held(b, r.symbol) + Signed(r.side, r.qty)) <= Abs(Held(b, r.symbol)) || r.qty * price <= BuyingPower(cfg, b)
  }

  /** The quantity-weighted entry price after adding to a position. */
  function Average(h: Holding, delta: real, price: real): real
    requires h.qty + delta != 0.0
  {
    AbsPositive(h.qty + delta);
    (h.avg * Abs(h.qty) + price * Abs(delta)) / Abs(h.qty + delta)
  }

  /** `_apply_fill` on the holdings: open, close to flat, average in, reduce, or cross. */
  function HoldingsAfter(holdings: map<string, Holding>, symbol: string, delta: real, price: real): map<string, Holding> {
    if symbol !in holdings then holdings[symbol := Holding(delta, price)] else
      var h := holdings[symbol];
      var qty := h.qty + delta;
      if qty == 0.0 then holdings - {symbol}
      else if h.qty * delta > 0.0 then
        holdings[symbol := Holding(qty, Average(h, delta, price))]
      else if h.qty * qty < 0.0 then holdings[symbol := Holding(qty, price)]
      else holdings[symbol := Holding(qty, h.avg)]
  }

  lemma {:induction false} AbsPositive(x: real)
    requires x != 0.0
    ensures Abs(x) > 0.0
  {}

  function Applied(b: Ledger, r: Request, price: real): Ledger {
    var delta := Signed(r.side, r.qty);
    b.(cash := b.cash - delta * price, holdings := HoldingsAfter(b.holdings, r.symbol, delta, price))
  }

  function Closed(o: Order, status: Status): Order {
    o.(status := status, filledQty := 0.0, filledPrice := None, filledAt := None)
  }

  function FilledOrder(o: Order, r: Request, price: real, at: int): Order {
    Order(o.id, r.symbol, r.side, r.qty, Filled, r.qty, Some(price), o.submittedAt, Some(at))
  }

  function Without(pending: seq<Ticket>, id: nat): seq<Ticket> {
    if pending == [] then []
    else if pending[0].id == id then Without(pending[1..], id)
    else [pending[0]] + Without(pending[1..], id)
  }

  /** One turn of `_fill_pending`: no bar leaves the order pending; otherwise it fills or is rejected. */
  ghost function FillOne(cfg: Config, b: Ledger, t: Ticket, bars: map<string, Bar>, at: int): Ledger
    requires t.id < |b.orders|
  {
    if t.request.symbol !in bars then b else
      var price := FillPrice(cfg, t.request.side, bars[t.request.symbol].open);
      var done :=
        if price.Some? && Affordable(cfg, b, t.request, price.value) then
          Applied(b, t.request, price.value).(
            orders := b.orders[t.id := FilledOrder(b.orders[t.id], t.request, price.value, at)])
        else b.(orders := b.orders[t.id := Closed(b.orders[t.id], Rejected)]);
      done.(pending := Without(b.pending, t.id))
  }

  ghost function FillAll(cfg: Config, b: Ledger, tickets: seq<Ticket>, bars: map<string, Bar>, at: int): (r: Ledger)
    requires forall i :: 0 <= i < |tickets| ==> tickets[i].id < |b.orders|
    ensures |r.orders| == |b.orders|
    decreases |tickets|
  {
    if tickets == [] then b
    else FillAll(cfg, FillOne(cfg, b, tickets[0], bars, at), tickets[1..], bars, at)
  }

  predicate TicketsKnown(b: Ledger) {
    forall i :: 0 <= i < |b.pending| ==> b.pending[i].id < |b.orders|
  }

  function Closes(bars: map<string, Bar>): map<string, real> {
    map s | s in bars :: bars[s].close
  }

  /** `mark_to_market`: roll the session, fill at the open, then mark at the close. */
  ghost function MarkedToMarket(cfg: Config, b: Ledger, at: int, session: int, bars: map<string, Bar>): Ledger
    requires TicketsKnown(b)
  {
    var rolled := if b.session.Some? && session != b.session.value then b.(lastEquity := Equity(b)) else b;
    var timed := rolled.(session := Some(session), asOf := Some(at));
    var filled := FillAll(cfg, timed, b.pending, bars, at);
    filled.(closes := filled.closes + Closes(bars))
  }

  function Submitted(b: Ledger, r: Request): Result<Ledger> {
    if b.asOf.None? then Failure("simulated clock not set; call mark_to_market() first")
    else if r.qty <= 0.0 then Failure("order quantity must be positive")
    else if r.symbol !in b.closes then Failure("no price")
    else
      var id := |b.orders|;
      Success(b.(
        orders := b.orders + [Order(id, r.symbol, r.side, r.qty, Accepted, 0.0, None, b.asOf.value, None)],
        pending := b.pending + [Ticket(id, r)]))
  }

  /** Cancelling an order that is no longer ACCEPTED does nothing; an unknown one is an error. */
  function Cancelled(b: Ledger, id: nat): Result<Ledger> {
    if id >= |b.orders| then Failure("unknown order")
    else if b.orders[id].status != Accepted then Success(b)
    else Success(b.(pending := Without(b.pending, id), orders := b.orders[id := Closed(b.orders[id], Canceled)]))
  }

  /** `cancel_pending` over a snapshot of the pending ids. */
  function CancelledAll(b: Ledger, tickets: seq<Ticket>): (r: Ledger)
    requires forall i :: 0 <= i < |tickets| ==> tickets[i].id < |b.orders|
    ensures |r.orders| == |b.orders|
    decreases |tickets|
  {
    if tickets == [] then b else CancelledAll(Cancelled(b, tickets[0].id).value, tickets[1..])
  }

  // ---------------------------------------------------------------- class

  /** Adds up a dictionary's values in whatever order they come. */
  method SumValues(m: map<string, real>) returns (total: real)
    ensures total == Sum(m)
  {
    total := 0.0;
    var left := m;
    SumEmpty<string>();
    while left != map[]
      invariant forall k :: k in left ==> k in m && m[k] == left[k]
      invariant total + Sum(left) == Sum(m)
      decreases |left|
    {
      NonEmpty(left.Keys);
      var k :| k in left.Keys;
      SumTakeOut(left, k);
      total := total + left[k];
      left := left - {k};
    }
  }

  class SimulatedBroker {
    const cfg: Config
    var cash: real
    var holdings: map<string, Holding>
    var closes: map<string, real>
    var asOf: Option<int>
    var lastEquity: real
    var session: Option<int>
    var orders: seq<Order>
    var pending: seq<Ticket>

    ghost function Value(): Ledger
      reads this
    {
      Ledger(cash, holdings, closes, asOf, lastEquity, session, orders, pending)
    }

    constructor (cfg: Config)
      ensures this.cfg == cfg && Value() == NewLedger(cfg)
    {
      this.cfg := cfg;
      cash, holdings, closes, asOf := cfg.capital, map[], map[], None;
      lastEquity, session, orders, pending := cfg.capital, None, [], [];
    }

    method GetEquity() returns (e: real)
      ensures e == Equity(Value())
    {
      var total := SumValues(MarkedValues(holdings, closes));
      e := cash + total;
    }

    method GetAccountState() returns (a: Account)
      ensures a == AccountOf(cfg, Value())
    {
      hide Sum, MarkedValues, GrossValues, Positions;
      var equity := GetEquity();
      var gross := SumValues(GrossValues(holdings, closes));
      a := Account(equity, cash, MaxReal(0.0, equity * cfg.margin - gross), lastEquity, Positions(holdings, closes));
    }

    method Submit(r: Request) returns (result: Result<Order>)
      modifies this
      ensures result.Success? <==> Submitted(old(Value()), r).Success?
      ensures result.Success? ==> Value() == Submitted(old(Value()), r).value && result.value == orders[|orders| - 1]
      ensures result.Failure? ==> Value() == old(Value())
    {
      if asOf.None? { return Failure("simulated clock not set; call mark_to_market() first"); }
      if r.qty <= 0.0 { return Failure("order quantity must be positive"); }
      if r.symbol !in closes { return Failure("no price"); }
      var accepted := Order(|orders|, r.symbol, r.side, r.qty, Accepted, 0.0, None, asOf.value, None);
      orders := orders + [accepted];
      pending := pending + [Ticket(accepted.id, r)];
      result := Success(accepted);
    }

    method GetOrder(id: nat) returns (result: Result<Order>)
      ensures result.Success? <==> id < |orders|
      ensures result.Success? ==> result.value == orders[id]
    {
      if id >= |orders| { return Failure("unknown order"); }
      result := Success(orders[id]);
    }

    method CancelOrder(id: nat) returns (ok: bool)
      modifies this
      ensures ok <==> Cancelled(old(Value()), id).Success?
      ensures Value() == if ok then Cancelled(old(Value()), id).value else old(Value())
    {
      if id >= |orders| { return false; }
      if orders[id].status == Accepted {
        pending := Without(pending, id);
        orders := orders[id := Closed(orders[id], Canceled)];
      }
      ok := true;
    }

    method CancelPending()
      requires TicketsKnown(Value())
      modifies this
      ensures Value() == CancelledAll(old(Value()), old(pending))
    {
      var tickets := pending;
      for i := 0 to |tickets|
        invariant |orders| == |old(orders)|
        invariant CancelledAll(Value(), tickets[i..]) == CancelledAll(old(Value()), tickets)
      {
        var ok := CancelOrder(tickets[i].id);
        assert tickets[i..][0] == tickets[i] && tickets[i..][1..] == tickets[i + 1..];
      }
    }

    /** `_validate_buying_power`. */
    method ValidateBuyingPower(r: Request, price: real) returns (ok: bool)
      ensures ok <==> Affordable(cfg, Value(), r, price)
    {
      var held := if r.symbol in holdings then holdings[r.symbol].qty else 0.0;
      if Abs(held + Signed(r.side, r.qty)) <= Abs(held) {
        return true;
      }
      var account := GetAccountState();
      ok := r.qty * price <= account.buyingPower;
    }

    method ApplyFill(r: Request, price: real)
      modifies this
      ensures Value() == Applied(old(Value()), r, price)
    {
      hide Average;
      var delta := Signed(r.side, r.qty);
      cash := cash - delta * price;
      if r.symbol !in holdings {
        holdings := holdings[r.symbol := Holding(delta, price)];
        return;
      }
      var h := holdings[r.symbol];
      var qty := h.qty + delta;
      if qty == 0.0 {
        holdings := holdings - {r.symbol};
        return;
      }
      var avg := h.avg;
      if h.qty * delta > 0.0 {
        avg := Average(h, delta, price);
      } else if h.qty * qty < 0.0 {
        avg := price;
      }
      holdings := holdings[r.symbol := Holding(qty, avg)];
    }

    /** `_fill_pending`, over a snapshot of the pending orders. */
    method FillPending(bars: map<string, Bar>)
      requires asOf.Some? && TicketsKnown(Value())
      modifies this
      ensures Value() == FillAll(cfg, old(Value()), old(pending), bars, old(asOf).value)
    {
      var tickets := pending;
      var at := asOf.value;
      for i := 0 to |tickets|
        invariant |orders| == |old(orders)|
        invariant FillAll(cfg, Value(), tickets[i..], bars, at) == FillAll(cfg, old(Value()), tickets, bars, at)
      {
        FillTicket(tickets[i], bars, at);
        assert tickets[i..][0] == tickets[i] && tickets[i..][1..] == tickets[i + 1..];
      }
    }

    method FillTicket(t: Ticket, bars: map<string, Bar>, at: int)
      requires t.id < |orders|
      modifies this
      ensures Value() == FillOne(cfg, old(Value()), t, bars, at)
    {
      if t.request.symbol !in bars {
        return;
      }
      var current := orders[t.id];
      var price := FillPrice(cfg, t.request.side, bars[t.request.symbol].open);
      var affordable := false;
      if price.Some? {
        affordable := ValidateBuyingPower(t.request, price.value);
      }
      if affordable {
        ApplyFill(t.request, price.value);
        orders := orders[t.id := FilledOrder(current, t.request, price.value, at)];
      } else {
        orders := orders[t.id := Closed(current, Rejected)];
      }
      pending := Without(pending, t.id);
    }

    method MarkToMarket(at: int, sessionDate: int, bars: map<string, Bar>)
      requires TicketsKnown(Value())
      modifies this
      ensures Value() == MarkedToMarket(cfg, old(Value()), at, sessionDate, bars)
    {
      if session.Some? && sessionDate != session.value {
        lastEquity := GetEquity();
      }
      session := Some(sessionDate);
      asOf := Some(at);
      FillPending(bars);
      closes := closes + Closes(bars);
    }
  }
}
