/** The single-symbol simulator: next-open fills of one model's targets, and its P&L identity. */
module Quicktest {
  import opened Wrappers
  import opened Collections
  import opened Trading
  import opened Session
  import opened Broker
  import opened BarSeries
  import opened RoundTripLaws
  import RoundTrips

  datatype Settings = Settings(capital: real, size: real, spread: real, slippage: real)

  predicate ValidSettings(s: Settings) {
    s.capital > 0.0 && s.size > 0.0
  }

  datatype Plan = Plan(side: Side, qty: real)

  datatype EquityPoint = EquityPoint(at: int, equity: real)

  function HeldQty(holding: Option<Holding>): real {
    if holding.Some? then holding.value.qty else 0.0
  }

  /** `_plan`: close first; from flat, a fixed fraction of the initial capital. */
  function PlanFor(target: Exposure, holding: Option<Holding>, close: real, s: Settings): Option<Plan> {
    if target == Unchanged then None
    else if holding.Some? then
      if target == (if holding.value.qty > 0.0 then Long else Short) then None
      else Some(Plan(if holding.value.qty > 0.0 then Sell else Buy, Abs(holding.value.qty)))
    else if target == Flat || close <= 0.0 then None
    else Some(Plan(if target == Long then Buy else Sell, s.capital * s.size / close))
  }

  function Price(side: Side, open: real, s: Settings): real {
    if side == Buy then open * (1.0 + s.spread / 2.0) * (1.0 + s.slippage)
    else open * (1.0 - s.spread / 2.0) * (1.0 - s.slippage)
  }

  /** `_fill` on the holding, its closeness threshold included. */
  function Filled(holding: Option<Holding>, delta: real, price: real): Option<Holding> {
    if holding.None? then Some(Holding(delta, price)) else
      var h := holding.value;
      var qty := h.qty + delta;
      if Abs(qty) < 0.000000000001 then None
      else if h.qty * delta > 0.0 then Some(Holding(qty, Average(h, delta, price)))
      else if h.qty * qty < 0.0 then Some(Holding(qty, price))
      else Some(Holding(qty, h.avg))
  }

  /** A pending order opens from flat, or closes exactly. */
  predicate Fits(plan: Option<Plan>, holding: Option<Holding>) {
    plan.Some? ==> plan.value.qty > 0.0 && (holding.Some? ==> holding.value.qty + Signed(plan.value.side, plan.value.qty) == 0.0)
  }

  lemma {:induction false} PlanFits(target: Exposure, holding: Option<Holding>, close: real, s: Settings)
    requires ValidSettings(s) && (holding.Some? ==> holding.value.qty != 0.0)
    ensures Fits(PlanFor(target, holding, close, s), holding)
  {
    if holding.None? && close > 0.0 {
      assert s.capital * s.size > 0.0;
      assert s.capital * s.size / close > 0.0;
    }
  }

  /** Trades come in pairs: every second one closes the one before it exactly. */
  predicate Paired(trades: seq<Trade>) {
    forall k :: 0 <= k < |trades| && k % 2 == 1 ==> trades[k].qty == trades[k - 1].qty && trades[k].side != trades[k - 1].side
  }

  predicate OnlySymbol(trades: seq<Trade>, symbol: string) {
    forall i :: 0 <= i < |trades| ==> trades[i].symbol == symbol
  }

  /** The books of a run: cash and position are what its trades add up to, open exactly after an odd trade. */
  predicate Settled(trades: seq<Trade>, symbol: string, capital: real, cash: real, holding: Option<Holding>) {
    && OnlySymbol(trades, symbol) && Sized(trades) && Paired(trades)
    && cash == capital + CashFlow(trades) && HeldQty(holding) == Traded(trades, symbol)
    && (if |trades| % 2 == 0 then holding.None?
        else holding == Some(Holding(Delta(trades[|trades| - 1]), trades[|trades| - 1].price)) && trades[|trades| - 1].qty > 0.0)
  }

  /** What an equity point must be: cash and marked position of the trades up to then. */
  function EquityOf(trades: seq<Trade>, symbol: string, capital: real, mark: real): real {
    capital + CashFlow(trades) + Worth(Traded(trades, symbol), mark)
  }

  lemma {:induction false} FillSettles(
    trades: seq<Trade>, symbol: string, capital: real, cash: real, holding: Option<Holding>, t: Trade)
    requires Settled(trades, symbol, capital, cash, holding) && Fits(Some(Plan(t.side, t.qty)), holding) && t.symbol == symbol
    ensures Settled(trades + [t], symbol, capital, cash - Worth(Delta(t), t.price), Filled(holding, Delta(t), t.price))
  {
    hide Average, Worth;
    var more := trades + [t];
    assert more[..|trades|] == trades;
  }

  // ------------------------------------------------------------ simulation

  /** One simulation: its symbol, window and settings, and what the model answers on each bar. */
  datatype Setup = Setup(symbol: string, start: int, end: int, zone: Zone, settings: Settings, targets: nat -> Exposure)

  datatype Sim = Sim(
    cash: real, holding: Option<Holding>, pending: Option<Plan>,
    trades: seq<Trade>, equity: seq<EquityPoint>, cashes: seq<EquityPoint>)

  predicate Replayed(u: Setup, bar: Bar) {
    u.start <= bar.at < u.end && Regular(u.zone, bar.at)
  }

  /** The trade a pending plan becomes at a bar's open. */
  function TradeAt(u: Setup, plan: Plan, bar: Bar): Trade {
    Trade(u.symbol, plan.side, plan.qty, Price(plan.side, bar.open, u.settings), bar.at)
  }

  function Opened(u: Setup, m: Sim, bar: Bar): Sim {
    if m.pending.None? then m else
      var t := TradeAt(u, m.pending.value, bar);
      m.(cash := m.cash - Worth(Delta(t), t.price), holding := Filled(m.holding, Delta(t), t.price), pending := None, trades := m.trades + [t])
  }

  /** One bar: fill at its open, plan at its close, record. */
  function Stepped(u: Setup, m: Sim, index: nat, bar: Bar): Sim {
    var f := Opened(u, m, bar);
    f.(pending := PlanFor(u.targets(index), f.holding, bar.close, u.settings),
       equity := f.equity + [EquityPoint(bar.at, f.cash + Worth(HeldQty(f.holding), bar.close))],
       cashes := f.cashes + [EquityPoint(bar.at, f.cash)])
  }

  /** The state after the first `n` bars. */
  function Simulated(u: Setup, bars: seq<Bar>, n: nat): Sim
    requires n <= |bars|
  {
    if n == 0 then Sim(u.settings.capital, None, None, [], [], []) else
      var before := Simulated(u, bars, n - 1);
      if Replayed(u, bars[n - 1]) then Stepped(u, before, n - 1, bars[n - 1]) else before
  }

  /** `_fill`: the trade is recorded, cash moves, and the holding opens, closes, averages in, reduces or crosses. */
  method Fill(symbol: string, side: Side, qty: real, price: real, at: int, trades0: seq<Trade>, cash0: real, holding0: Option<Holding>)
    returns (trades: seq<Trade>, cash: real, holding: Option<Holding>)
    ensures trades == trades0 + [Trade(symbol, side, qty, price, at)]
    ensures cash == cash0 - Worth(Signed(side, qty), price) && holding == Filled(holding0, Signed(side, qty), price)
  {
    hide Average;
    var delta := if side == Buy then qty else -qty;
    cash := cash0 - delta * price;
    trades := trades0 + [Trade(symbol, side, qty, price, at)];
    if holding0.None? { return trades, cash, Some(Holding(delta, price)); }
    var h := holding0.value;
    var newQty := h.qty + delta;
    if Abs(newQty) < 0.000000000001 { return trades, cash, None; }
    var entry := h.avg;
    if h.qty * delta > 0.0 {
      entry := Average(h, delta, price);
    } else if h.qty * newQty < 0.0 {
      entry := price;
    }
    holding := Some(Holding(newQty, entry));
  }

  /** `simulate_symbol`: the loop over the bars of the window. */
  method SimulateSymbol(u: Setup, bars: seq<Bar>)
    returns (trades: seq<Trade>, equity: seq<EquityPoint>, cashes: seq<EquityPoint>, cash: real, holding: Option<Holding>)
    ensures
      var m := Simulated(u, bars, |bars|);
      trades == m.trades && equity == m.equity && cashes == m.cashes && cash == m.cash && holding == m.holding
  {
    hide Filled, PlanFor, Price, Regular, Worth;
    cash, holding, trades, equity, cashes := u.settings.capital, None, [], [], [];
    var pending: Option<Plan> := None;
    for index := 0 to |bars|
      invariant Sim(cash, holding, pending, trades, equity, cashes) == Simulated(u, bars, index)
    {
      var bar := bars[index];
      ghost var before := Simulated(u, bars, index);
      if !(u.start <= bar.at < u.end) || !Regular(u.zone, bar.at) { continue; }
      if pending.Some? {
        var plan := pending.value;
        trades, cash, holding := Fill(u.symbol, plan.side, plan.qty, Price(plan.side, bar.open, u.settings), bar.at, trades, cash, holding);
        pending := None;
      }
      assert Sim(cash, holding, pending, trades, equity, cashes) == Opened(u, before, bar);
      pending := PlanFor(u.targets(index), holding, bar.close, u.settings);
      var held := if holding.Some? then holding.value.qty * bar.close else 0.0;
      NothingHeld(holding, bar.close);
      ghost var point := EquityPoint(bar.at, cash + Worth(HeldQty(holding), bar.close));
      assert point == EquityPoint(bar.at, cash + held);
      assert Stepped(u, before, index, bar).equity == equity + [point];
      equity := equity + [EquityPoint(bar.at, cash + held)];
      cashes := cashes + [EquityPoint(bar.at, cash)];
      assert Sim(cash, holding, pending, trades, equity, cashes) == Stepped(u, before, index, bar);
    }
  }

  lemma {:induction false} NothingHeld(holding: Option<Holding>, close: real)
    ensures Worth(HeldQty(holding), close) == if holding.Some? then holding.value.qty * close else 0.0
  {}

  // ------------------------------------------------------------------ laws

  /** The bars that are replayed, by position. */
  function Ticks(u: Setup, bars: seq<Bar>, n: nat): (r: seq<nat>)
    requires n <= |bars|
    ensures forall k :: 0 <= k < |r| ==> r[k] < n && Replayed(u, bars[r[k]])
    ensures forall i :: 0 <= i < n && Replayed(u, bars[i]) ==> i in r
    ensures forall j, k :: 0 <= j < k < |r| ==> r[j] < r[k]
  {
    hide Replayed;
    if n == 0 then [] else
      var before := Ticks(u, bars, n - 1);
      if Replayed(u, bars[n - 1]) then before + [n - 1] else before
  }

  /** The replayed bars are the regular-session ones of the window, its end left out. */
  lemma {:induction false} TicksAre(u: Setup, bars: seq<Bar>, n: nat, i: nat)
    requires n <= |bars|
    ensures i in Ticks(u, bars, n) <==>
              i < n && u.start <= bars[i].at < u.end && SESSION_OPEN <= TimeOfDay(u.zone, bars[i].at) < SESSION_CLOSE
  {
    hide TimeOfDay, Ticks;
    var ticks := Ticks(u, bars, n);
    if i in ticks {
      var k :| 0 <= k < |ticks| && ticks[k] == i;
    }
  }

  /** At every point of the run the books are settled and the pending order fits the holding. */
  lemma {:induction false} RunSettles(u: Setup, bars: seq<Bar>, n: nat)
    requires ValidSettings(u.settings) && n <= |bars|
    ensures
      var m := Simulated(u, bars, n);
      Settled(m.trades, u.symbol, u.settings.capital, m.cash, m.holding) && Fits(m.pending, m.holding)
  {
    hide Settled, Fits, Filled, PlanFor, Price, Replayed;
    if n == 0 {
      NothingTraded(u.symbol, u.settings.capital);
      NothingPlanned();
    } else {
      RunSettles(u, bars, n - 1);
      if Replayed(u, bars[n - 1]) {
        StepSettles(u, Simulated(u, bars, n - 1), n - 1, bars[n - 1]);
      }
    }
  }

  lemma {:induction false} OpenSettles(u: Setup, m: Sim, bar: Bar)
    requires Fits(m.pending, m.holding) && Settled(m.trades, u.symbol, u.settings.capital, m.cash, m.holding)
    ensures
      var f := Opened(u, m, bar);
      Settled(f.trades, u.symbol, u.settings.capital, f.cash, f.holding)
  {
    hide Settled, Filled, Price, Fits, Worth;
    if m.pending.Some? {
      var t := TradeAt(u, m.pending.value, bar);
      assert Some(Plan(t.side, t.qty)) == m.pending;
      FillSettles(m.trades, u.symbol, u.settings.capital, m.cash, m.holding, t);
    }
  }

  lemma {:induction false} StepSettles(u: Setup, m: Sim, index: nat, bar: Bar)
    requires ValidSettings(u.settings) && Fits(m.pending, m.holding)
    requires Settled(m.trades, u.symbol, u.settings.capital, m.cash, m.holding)
    ensures
      var next := Stepped(u, m, index, bar);
      && Settled(next.trades, u.symbol, u.settings.capital, next.cash, next.holding) && Fits(next.pending, next.holding)
      && next.equity == m.equity + [EquityPoint(bar.at, EquityOf(next.trades, u.symbol, u.settings.capital, bar.close))]
      && next.cashes == m.cashes + [EquityPoint(bar.at, u.settings.capital + CashFlow(next.trades))]
  {
    hide Settled, Filled, PlanFor, Price, Fits;
    hide CashFlow, Traded, EquityOf, Worth;
    var f := Opened(u, m, bar);
    OpenSettles(u, m, bar);
    SettledFacts(f.trades, u.symbol, u.settings.capital, f.cash, f.holding, bar.close);
    PlanFits(u.targets(index), f.holding, bar.close, u.settings);
  }

  lemma {:induction false} RunGrows(u: Setup, bars: seq<Bar>, i: nat, n: nat)
    requires i <= n <= |bars|
    ensures Simulated(u, bars, i).trades <= Simulated(u, bars, n).trades
    ensures Simulated(u, bars, i).equity <= Simulated(u, bars, n).equity
    ensures Simulated(u, bars, i).cashes <= Simulated(u, bars, n).cashes
    decreases n - i
  {
    hide Filled, PlanFor, Price, Replayed;
    if i < n {
      RunGrows(u, bars, i, n - 1);
    }
  }

  lemma {:induction false} OnePointPerTick(u: Setup, bars: seq<Bar>, n: nat)
    requires n <= |bars|
    ensures |Simulated(u, bars, n).equity| == |Simulated(u, bars, n).cashes| == |Ticks(u, bars, n)|
  {
    hide Filled, PlanFor, Price, Replayed;
    if n > 0 { OnePointPerTick(u, bars, n - 1); }
  }

  lemma {:induction false} TickPosition(u: Setup, bars: seq<Bar>, n: nat, k: nat)
    requires n <= |bars| && k < |Ticks(u, bars, n)|
    ensures |Ticks(u, bars, Ticks(u, bars, n)[k])| == k
  {
    hide Replayed, Ticks;
    if n > 0 {
      NextTick(u, bars, n - 1);
      if k < |Ticks(u, bars, n - 1)| { TickPosition(u, bars, n - 1, k); }
    } else {
      NoTicks(u, bars);
    }
  }

  lemma {:induction false} NoTicks(u: Setup, bars: seq<Bar>)
    ensures Ticks(u, bars, 0) == []
  {}

  lemma {:induction false} NextTick(u: Setup, bars: seq<Bar>, i: nat)
    requires i < |bars|
    ensures Ticks(u, bars, i + 1) == if Replayed(u, bars[i]) then Ticks(u, bars, i) + [i] else Ticks(u, bars, i)
  {
    hide Replayed;
  }

  /**
   * The curves: one equity and one cash point per replayed bar, at its time, marked at its close, from
   * exactly the trades made by then.
   */
  lemma {:induction false} PointsAreExact(u: Setup, bars: seq<Bar>, k: nat)
    requires ValidSettings(u.settings) && k < |Ticks(u, bars, |bars|)|
    ensures
      var m, i := Simulated(u, bars, |bars|), Ticks(u, bars, |bars|)[k];
      var sofar := Simulated(u, bars, i + 1).trades;
      && |m.equity| == |m.cashes| == |Ticks(u, bars, |bars|)| && sofar <= m.trades
      && m.equity[k] == EquityPoint(bars[i].at, EquityOf(sofar, u.symbol, u.settings.capital, bars[i].close))
      && m.cashes[k] == EquityPoint(bars[i].at, u.settings.capital + CashFlow(sofar))
  {
    hide Filled, PlanFor, Price, Replayed, Settled, Fits, CashFlow, Traded, EquityOf, Ticks, Stepped;
    var i := Ticks(u, bars, |bars|)[k];
    assert Replayed(u, bars[i]);
    OnePointPerTick(u, bars, |bars|);
    TickPosition(u, bars, |bars|, k);
    OnePointPerTick(u, bars, i);
    RunSettles(u, bars, i);
    StepSettles(u, Simulated(u, bars, i), i, bars[i]);
    RunGrows(u, bars, i + 1, |bars|);
    PointAt(Simulated(u, bars, i + 1).equity, Simulated(u, bars, |bars|).equity, k);
    PointAt(Simulated(u, bars, i + 1).cashes, Simulated(u, bars, |bars|).cashes, k);
  }

  lemma {:induction false} PointAt(front: seq<EquityPoint>, whole: seq<EquityPoint>, k: nat)
    requires front <= whole && k < |front|
    ensures whole[k] == front[k]
  {}

  lemma {:induction false} Quiet(u: Setup, bars: seq<Bar>, i: nat, j: nat)
    requires i <= j <= |bars| && forall m :: i <= m < j ==> !Replayed(u, bars[m])
    ensures Simulated(u, bars, j) == Simulated(u, bars, i)
    decreases j - i
  {
    hide Replayed;
    if i < j { Quiet(u, bars, i, j - 1); }
  }

  /**
   * The trades: each replayed bar makes exactly the trade that the previous replayed bar planned at its
   * close, at this bar's open and time; the first makes none, and what the last one plans never fills.
   */
  lemma {:induction false} TradesFollowPlans(u: Setup, bars: seq<Bar>, k: nat)
    requires k < |Ticks(u, bars, |bars|)|
    ensures
      var ticks := Ticks(u, bars, |bars|);
      var j := ticks[k];
      var now := Simulated(u, bars, j + 1).trades;
      && (k == 0 ==> now == [])
      && (k > 0 ==>
            var i := ticks[k - 1];
            var past := Simulated(u, bars, i + 1);
            var plan := PlanFor(u.targets(i), past.holding, bars[i].close, u.settings);
            now == past.trades + (if plan.Some? then [TradeAt(u, plan.value, bars[j])] else []))
      && (k == |ticks| - 1 ==> Simulated(u, bars, |bars|).trades == now)
  {
    hide Ticks, Stepped, PlanFor, Price, Replayed;
    var ticks := Ticks(u, bars, |bars|);
    var j := ticks[k];
    if k > 0 {
      NoTickBetween(u, bars, k);
      Quiet(u, bars, ticks[k - 1] + 1, j);
      StepTrades(u, bars, ticks[k - 1]);
    } else {
      NoTickBefore(u, bars);
      Quiet(u, bars, 0, j);
    }
    StepTrades(u, bars, j);
    if k == |ticks| - 1 {
      NoTickAfter(u, bars);
      Quiet(u, bars, j + 1, |bars|);
    }
  }

  /**
   * What an answer on one bar makes of the trades by the next: nothing when it is UNCHANGED or where
   * they already are; the whole position traded away when one is held; from flat, the fixed fraction of
   * the initial capital at the bar's close. A trade is dealt at the next bar's open, at its time, with
   * half the spread and the slippage against it.
   */
  ghost predicate Answered(u: Setup, target: Exposure, close: real, next: Bar, before: seq<Trade>, after: seq<Trade>) {
    var s, held := u.settings, Traded(before, u.symbol);
    var stays :=
      || target == Unchanged || (held > 0.0 && target == Long) || (held < 0.0 && target == Short)
      || (held == 0.0 && (target == Flat || close <= 0.0));
    if stays then after == before else
      && |after| == |before| + 1 && after[..|before|] == before
      && var t := after[|before|];
         && t.symbol == u.symbol && t.at == next.at
         && (if held > 0.0 then t.side == Sell && t.qty == held
             else if held < 0.0 then t.side == Buy && t.qty == -held
             else t.side == (if target == Long then Buy else Sell) && t.qty * close == s.capital * s.size)
         && (match t.side
             case Buy => t.price == next.open * (1.0 + s.spread / 2.0) * (1.0 + s.slippage)
             case Sell => t.price == next.open * (1.0 - s.spread / 2.0) * (1.0 - s.slippage))
  }

  /** The trades, bar by bar, in terms of the answers, the closes and the opens alone. */
  lemma {:induction false} TradesFollowAnswers(u: Setup, bars: seq<Bar>, k: nat)
    requires ValidSettings(u.settings) && k < |Ticks(u, bars, |bars|)|
    ensures
      var ticks := Ticks(u, bars, |bars|);
      var now := Simulated(u, bars, ticks[k] + 1).trades;
      && (k == 0 ==> now == [])
      && (k > 0 ==>
            var i := ticks[k - 1];
            Answered(u, u.targets(i), bars[i].close, bars[ticks[k]], Simulated(u, bars, i + 1).trades, now))
      && (k == |ticks| - 1 ==> Simulated(u, bars, |bars|).trades == now)
  {
    hide Ticks, Answered, PlanFor, Simulated, Settled, Fits, Replayed, TradeAt;
    TradesFollowPlans(u, bars, k);
    if k > 0 {
      var i := Ticks(u, bars, |bars|)[k - 1];
      var past := Simulated(u, bars, i + 1);
      RunSettles(u, bars, i + 1);
      PlanAnswers(u, u.targets(i), bars[i].close, bars[Ticks(u, bars, |bars|)[k]], past.trades, past.cash, past.holding);
    }
  }

  lemma {:induction false} PlanAnswers(
    u: Setup, target: Exposure, close: real, next: Bar, trades: seq<Trade>, cash: real, holding: Option<Holding>)
    requires Settled(trades, u.symbol, u.settings.capital, cash, holding)
    ensures
      var plan := PlanFor(target, holding, close, u.settings);
      Answered(u, target, close, next, trades, trades + if plan.Some? then [TradeAt(u, plan.value, next)] else [])
  {
    hide CashFlow, Traded, Sized, Paired, OnlySymbol, Price;
    var plan := PlanFor(target, holding, close, u.settings);
    if plan.Some? {
      PriceIs(plan.value.side, next.open, u.settings);
      if holding.None? { Fraction(u.settings.capital * u.settings.size, close); }
    } else {
      assert trades + [] == trades;
    }
  }

  lemma {:induction false} Fraction(amount: real, close: real)
    requires close > 0.0
    ensures amount / close * close == amount
  {}

  lemma {:induction false} PriceIs(side: Side, open: real, s: Settings)
    ensures side == Buy ==> Price(side, open, s) == open * (1.0 + s.spread / 2.0) * (1.0 + s.slippage)
    ensures side == Sell ==> Price(side, open, s) == open * (1.0 - s.spread / 2.0) * (1.0 - s.slippage)
  {}

  /** A replayed bar trades what was pending, and plans from its own close. */
  lemma {:induction false} StepTrades(u: Setup, bars: seq<Bar>, i: nat)
    requires i < |bars| && Replayed(u, bars[i])
    ensures
      var past, now := Simulated(u, bars, i), Simulated(u, bars, i + 1);
      && now.trades == past.trades + (if past.pending.Some? then [TradeAt(u, past.pending.value, bars[i])] else [])
      && now.pending == PlanFor(u.targets(i), now.holding, bars[i].close, u.settings)
  {
    hide Filled, PlanFor, Price, Replayed;
  }

  lemma {:induction false} NoTickBetween(u: Setup, bars: seq<Bar>, k: nat)
    requires 0 < k < |Ticks(u, bars, |bars|)|
    ensures forall m :: Ticks(u, bars, |bars|)[k - 1] < m < Ticks(u, bars, |bars|)[k] ==> !Replayed(u, bars[m])
  {
    hide Replayed;
  }

  lemma {:induction false} NoTickBefore(u: Setup, bars: seq<Bar>)
    requires Ticks(u, bars, |bars|) != []
    ensures forall m :: 0 <= m < Ticks(u, bars, |bars|)[0] ==> !Replayed(u, bars[m])
  {
    hide Replayed;
  }

  lemma {:induction false} NoTickAfter(u: Setup, bars: seq<Bar>)
    requires Ticks(u, bars, |bars|) != []
    ensures forall m :: Ticks(u, bars, |bars|)[|Ticks(u, bars, |bars|)| - 1] < m < |bars| ==> !Replayed(u, bars[m])
  {
    hide Replayed;
  }

  lemma {:induction false} Order(ticks: seq<nat>, i: nat, k: nat)
    requires forall j, k :: 0 <= j < k < |ticks| ==> ticks[j] < ticks[k]
    requires i < |ticks| && k < |ticks|
    ensures ticks[i] < ticks[k] <==> i < k
  {}

  /** Trades are in time order when the bars are. */
  lemma {:induction false} TradesInOrder(u: Setup, bars: seq<Bar>, n: nat)
    requires SortedBars(bars) && n <= |bars|
    ensures RoundTrips.InOrder(Simulated(u, bars, n).trades)
    ensures forall t :: t in Simulated(u, bars, n).trades ==> n > 0 && t.at <= bars[n - 1].at
  {
    hide Filled, PlanFor, Price, Replayed;
    if n > 0 {
      TradesInOrder(u, bars, n - 1);
      var before, now := Simulated(u, bars, n - 1).trades, Simulated(u, bars, n).trades;
      if now != before {
        assert now == before + [now[|before|]] && now[|before|].at == bars[n - 1].at;
        forall i | 0 <= i < |before| ensures before[i].at <= now[|before|].at {
          assert before[i] in before;
        }
      }
    }
  }

  lemma {:induction false} NothingPlanned()
    ensures Fits(None, None)
  {}

  lemma {:induction false} NothingTraded(symbol: string, capital: real)
    ensures Settled([], symbol, capital, capital, None)
  {}

  lemma {:induction false} SettledFacts(
    trades: seq<Trade>, symbol: string, capital: real, cash: real, holding: Option<Holding>, mark: real)
    requires Settled(trades, symbol, capital, cash, holding)
    ensures holding.Some? ==> holding.value.qty != 0.0
    ensures cash == capital + CashFlow(trades)
    ensures cash + Worth(HeldQty(holding), mark) == EquityOf(trades, symbol, capital, mark)
  {
    hide Worth, CashFlow, Traded;
  }

  // -------------------------------------------------------------- identity

  lemma {:induction false} OnlyBook(trades: seq<Trade>, ds: seq<RoundTrips.Decision>, symbol: string)
    requires OnlySymbol(trades, symbol)
    ensures RoundTrips.Matched(trades, ds).books.Keys <= {symbol}
  {
    hide RoundTrips.Close, RoundTrips.DecisionBefore;
    if trades != [] { OnlyBook(trades[..|trades| - 1], ds, symbol); }
  }

  lemma {:induction false} SumOfOne(m: map<string, real>, symbol: string)
    requires m.Keys <= {symbol}
    ensures Sum(m) == Get(m, symbol)
  {
    if symbol in m {
      SumTakeOut(m, symbol);
      assert m - {symbol} == map[];
    } else {
      assert m == map[];
    }
    SumEmpty<string>();
  }

  /** Cash and marked position against round trips, for any trades of one symbol and any decision log. */
  lemma {:induction false} OneSymbolIdentity(
    trades: seq<Trade>, symbol: string, capital: real, mark: real, ds: seq<RoundTrips.Decision>)
    requires OnlySymbol(trades, symbol) && Sized(trades)
    ensures
      var matched := RoundTrips.Matched(RoundTrips.ByTime(trades), ds);
      && EquityOf(trades, symbol, capital, mark) ==
           capital + TotalPnl(matched.trips) + Gain(RoundTrips.BookOf(matched.books, symbol), mark)
      && NetQty(RoundTrips.BookOf(matched.books, symbol)) == Traded(trades, symbol)
  {
    hide Sum, NetQty, Gain, CashFlow, Traded, TotalPnl, Worth, Values, Gains, RoundTrips.Matched, RoundTrips.BookOf;
    var sorted := RoundTrips.ByTime(trades);
    SortingConserves(trades);
    SortingKeepsSymbol(trades, symbol);
    var books := RoundTrips.Matched(sorted, ds).books;
    var at: string -> real := s => mark;
    MatchingConserves(sorted, ds);
    PnlIdentity(sorted, ds, at);
    OnlyBook(sorted, ds, symbol);
    OneBook(books, symbol, at);
    assert NetQty(RoundTrips.BookOf(books, symbol)) == Traded(sorted, symbol);
  }

  /** With one symbol at most, marked value and gain are that symbol's. */
  lemma {:induction false} OneBook(books: map<string, RoundTrips.Book>, symbol: string, at: string -> real)
    requires books.Keys <= {symbol}
    ensures Sum(Values(books, at)) == Worth(NetQty(RoundTrips.BookOf(books, symbol)), at(symbol))
    ensures Sum(Gains(books, at)) == Gain(RoundTrips.BookOf(books, symbol), at(symbol))
  {
    hide Sum, NetQty, Gain, Worth;
    SumOfOne(Values(books, at), symbol);
    SumOfOne(Gains(books, at), symbol);
    EmptyGain(at(symbol));
    WorthIs(0.0, at(symbol));
  }

  lemma {:induction false} SortingKeepsSymbol(trades: seq<Trade>, symbol: string)
    requires OnlySymbol(trades, symbol)
    ensures OnlySymbol(RoundTrips.ByTime(trades), symbol)
  {
    if trades != [] {
      SortingKeepsSymbol(trades[..|trades| - 1], symbol);
      InsertKeepsSymbol(RoundTrips.ByTime(trades[..|trades| - 1]), trades[|trades| - 1], symbol);
    }
  }

  lemma {:induction false} InsertKeepsSymbol(ts: seq<Trade>, t: Trade, symbol: string)
    requires RoundTrips.InOrder(ts) && OnlySymbol(ts, symbol) && t.symbol == symbol
    ensures OnlySymbol(RoundTrips.InsertTrade(ts, t), symbol)
  {
    if ts != [] && ts[|ts| - 1].at > t.at {
      InsertKeepsSymbol(ts[..|ts| - 1], t, symbol);
    }
  }

  /**
   * The P&L identity of the simulator, at its every equity point and for any decision log: the reported
   * equity is the initial capital plus the profit of the round trips made by then plus the gain of the
   * leftover lots at that bar's close.
   */
  lemma {:induction false} SimulatorIdentity(u: Setup, bars: seq<Bar>, k: nat, ds: seq<RoundTrips.Decision>)
    requires ValidSettings(u.settings) && k < |Ticks(u, bars, |bars|)|
    ensures k < |Simulated(u, bars, |bars|).equity|
    ensures
      var i := Ticks(u, bars, |bars|)[k];
      var sofar := Simulated(u, bars, i + 1);
      var matched := RoundTrips.Matched(RoundTrips.ByTime(sofar.trades), ds);
      && Simulated(u, bars, |bars|).equity[k].equity ==
           u.settings.capital + TotalPnl(matched.trips) + Gain(RoundTrips.BookOf(matched.books, u.symbol), bars[i].close)
      && NetQty(RoundTrips.BookOf(matched.books, u.symbol)) == HeldQty(sofar.holding)
  {
    hide Simulated, Ticks, Replayed, TotalPnl, Gain, NetQty, RoundTrips.Matched, EquityOf;
    var i := Ticks(u, bars, |bars|)[k];
    PointsAreExact(u, bars, k);
    RunSettles(u, bars, i + 1);
    OneSymbolIdentity(Simulated(u, bars, i + 1).trades, u.symbol, u.settings.capital, bars[i].close, ds);
  }

  lemma {:induction false} EmptyGain(mark: real)
    ensures Gain(RoundTrips.Book([], []), mark) == 0.0 && NetQty(RoundTrips.Book([], [])) == 0.0
  {}

  lemma {:induction false} WorthIs(qty: real, mark: real)
    ensures Worth(qty, mark) == qty * mark && 0.0 * mark == 0.0
  {}
}
