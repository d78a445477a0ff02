/** The trading engine and the in-memory repositories it works on, in place. */
module Engine {
  import opened Wrappers
  import opened Trading
  import opened Session
  import opened DecisionPolicy
  import opened Risk
  import opened Broker
  import opened BrokerLaws
  import opened MarketData
  import opened ReplayLaws
  import Replay

  class OrderRepository {
    var rows: seq<Order>

    constructor ()
      ensures rows == []
    {
      rows := [];
    }

    method SaveSubmitted(result: Order)
      requires result.id == |rows|
      modifies this
      ensures rows == old(rows) + [result]
    {
      rows := rows + [result];
    }

    method UpdateFromBroker(result: Order)
      requires result.id < |rows|
      modifies this
      ensures rows == old(rows)[result.id := result]
    {
      rows := rows[result.id := result];
    }

    method FindOpenBrokerOrderIds() returns (ids: seq<nat>)
      ensures ids == Replay.OpenIds(rows)
    {
      ids := [];
      for i := 0 to |rows|
        invariant ids == Replay.OpenIds(rows[..i])
      {
        assert rows[..i + 1][..i] == rows[..i];
        if !Terminal(rows[i].status) {
          ids := ids + [i];
        }
      }
      assert rows[..|rows|] == rows;
    }

    method FindOpenOrders(symbol: string) returns (open: seq<Order>)
      ensures open == Replay.OpenRows(rows, symbol)
    {
      open := [];
      for i := 0 to |rows|
        invariant open == Replay.OpenRows(rows[..i], symbol)
      {
        assert rows[..i + 1][..i] == rows[..i];
        if rows[i].symbol == symbol && !Terminal(rows[i].status) {
          open := open + [rows[i]];
        }
      }
      assert rows[..|rows|] == rows;
    }
  }

  class TradeRepository {
    var fills: seq<Order>

    constructor ()
      ensures fills == []
    {
      fills := [];
    }

    method SaveFill(result: Order)
      modifies this
      ensures fills == old(fills) + [result]
    {
      fills := fills + [result];
    }

    method ExistsForOrder(id: nat) returns (found: bool)
      ensures found <==> Replay.Recorded(fills, id)
    {
      found := false;
      for i := 0 to |fills|
        invariant found <==> exists k :: 0 <= k < i && fills[k].id == id
      {
        if fills[i].id == id {
          found := true;
        }
      }
    }
  }

  class SignalGenerator {
    const env: Replay.Env
    var attempts: map<string, int>

    constructor (env: Replay.Env)
      ensures this.env == env && attempts == map[]
    {
      this.env, attempts := env, map[];
    }

    method Generate(symbol: string, bars: seq<Bar>, asOf: int, position: Option<real>, n: nat)
      returns (target: Result<Exposure>)
      modifies this
      ensures Replay.Signal(attempts, target) ==
                Replay.Generate(env, old(attempts), symbol, Newest(bars), asOf, position, env.oracle(n, symbol))
    {
      hide Decide, UntilClose, SinceOpen;
      var safetyTime := if bars != [] then bars[|bars| - 1].at else asOf;
      if position.Some? && UntilClose(env.zone, safetyTime) <= env.policy.flatten * MINUTE {
        return Success(Flat);
      }
      if bars == [] { return Success(Unchanged); }
      var barTime := bars[|bars| - 1].at;
      if symbol in attempts && attempts[symbol] == barTime { return Success(Unchanged); }
      attempts := attempts[symbol := barTime];
      match env.oracle(n, symbol)
      case FeaturesRaise => return Failure("feature computation raised");
      case NoVector => return Success(Unchanged);
      case PredictionRaises => return Success(Unchanged);
      case Predicted(prediction) =>
        target := Success(Decide(env.policy, prediction, position, SinceOpen(env.zone, barTime), UntilClose(env.zone, barTime)));
    }
  }

  /** Every order the engine knows is filed under its issue number. */
  predicate Numbered(b: Ledger, rows: seq<Order>) {
    |rows| == |b.orders| && forall i :: 0 <= i < |b.orders| ==> b.orders[i].id == i
  }

  /** The snapshot has the symbol's window ending now, and a quote exactly when there is a bar. */
  predicate Covers(env: Replay.Env, snapshot: Snapshot, symbol: string) {
    && symbol in snapshot.bars && Newest(snapshot.bars[symbol]) == Replay.LastBar(env, symbol, snapshot.asOf)
    && (symbol in snapshot.quotes <==> snapshot.bars[symbol] != [])
    && (symbol in snapshot.quotes ==> snapshot.quotes[symbol] == Replay.QuoteOf(env, Newest(snapshot.bars[symbol]).value))
  }

  lemma {:induction false} ReplayNumbered(env: Replay.Env, w: Replay.World)
    requires ReplayInv(env, w)
    ensures Numbered(w.broker, w.rows)
  {
    InvDecisive(env.cfg.capital, w.broker);
  }

  lemma {:induction false} NothingOpen(b: Ledger, side: Side)
    ensures Replay.ClearConflicts(b, [], side) == b
  {}

  class TradingEngine {
    const env: Replay.Env
    const data: HistoricalMarketData
    const broker: SimulatedBroker
    const generator: SignalGenerator
    const orders: OrderRepository
    const trades: TradeRepository
    var ticks: nat

    constructor (env: Replay.Env, data: HistoricalMarketData, broker: SimulatedBroker, generator: SignalGenerator,
                 orders: OrderRepository, trades: TradeRepository)
      ensures this.env == env && this.data == data && this.broker == broker && this.generator == generator
      ensures this.orders == orders && this.trades == trades && ticks == 0
    {
      this.env, this.data, this.broker, this.generator := env, data, broker, generator;
      this.orders, this.trades, ticks := orders, trades, 0;
    }

    /** Every part shares one configuration. */
    ghost predicate Wired()
      reads this
    {
      data.env == env && generator.env == env && broker.cfg == env.cfg && data.lookback >= 1
    }

    ghost function World(): Replay.World
      reads this, broker, orders, trades, generator
    {
      Replay.World(broker.Value(), orders.rows, trades.fills, generator.attempts)
    }

    /** `_reconcile_fills`: ask the broker about every open order; record a fill the first time it is seen. */
    method ReconcileFills()
      requires Numbered(broker.Value(), orders.rows)
      modifies orders, trades
      ensures World() == Replay.Reconciled(old(World()))
    {
      var ids := orders.FindOpenBrokerOrderIds();
      for i := 0 to |ids|
        invariant |orders.rows| == |old(orders.rows)|
        invariant Replay.ReconcileIds(World(), ids[i..]) == Replay.ReconcileIds(old(World()), ids)
      {
        assert ids[i..][0] == ids[i] && ids[i..][1..] == ids[i + 1..];
        ghost var before := World();
        var result := broker.GetOrder(ids[i]);
        if result.Failure? { continue; }
        orders.UpdateFromBroker(result.value);
        if result.value.status == Filled {
          var known := trades.ExistsForOrder(ids[i]);
          if !known {
            trades.SaveFill(result.value);
          }
        }
        assert World() == Replay.ReconcileOne(before, ids[i]);
      }
    }

    /** `_clear_conflicting_orders`: true when nothing of the symbol is open. */
    method ClearConflictingOrders(symbol: string, side: Side) returns (safe: bool)
      modifies broker
      ensures safe <==> Replay.OpenRows(orders.rows, symbol) == []
      ensures broker.Value() == Replay.ClearConflicts(old(broker.Value()), Replay.OpenRows(orders.rows, symbol), side)
    {
      var open := orders.FindOpenOrders(symbol);
      if open == [] { return true; }
      for i := 0 to |open|
        invariant Replay.ClearConflicts(broker.Value(), open[i..], side) == Replay.ClearConflicts(old(broker.Value()), open, side)
      {
        assert open[i..][0] == open[i] && open[i..][1..] == open[i + 1..];
        if open[i].side == side { continue; }
        var cancelled := broker.CancelOrder(open[i].id);
      }
      safe := false;
    }

    /** Submitting; whatever the broker refuses is this symbol's error only. */
    method SubmitAndSave(request: Request)
      requires Numbered(broker.Value(), orders.rows)
      modifies broker, orders
      ensures World() == Replay.SubmitAndSave(old(World()), request)
    {
      var result := broker.Submit(request);
      if result.Success? {
        orders.SaveSubmitted(result.value);
      }
    }

    /** `_process_symbol`, on the snapshot and the account taken at the start of the tick. */
    method ProcessSymbol(symbol: string, snapshot: Snapshot, state: Account, n: nat)
      requires Wired() && ValidRisk(env.risk) && Numbered(broker.Value(), orders.rows)
      requires Covers(env, snapshot, symbol)
      modifies broker, orders, trades, generator
      ensures World() == Replay.Process(env, old(World()), symbol, state, snapshot.asOf, n)
    {
      hide Assess, Replay.Generate, Replay.LastBar, Replay.QuoteOf, Numbered, Replay.SubmitAndSave, Replay.ClearConflicts;
      var position := if symbol in state.positions then Some(state.positions[symbol].qty) else None;
      var target := generator.Generate(symbol, snapshot.bars[symbol], snapshot.asOf, position, n);
      if target.Failure? || target.value == Unchanged || symbol !in snapshot.quotes { return; }
      var verdict := AssessRisk(env.risk, symbol, target.value, state, snapshot.quotes[symbol]);
      if verdict.Refused? { return; }
      var safe := ClearConflictingOrders(symbol, verdict.side);
      if !safe { return; }
      NothingOpen(old(broker.Value()), verdict.side);
      SubmitAndSave(Request(symbol, verdict.side, verdict.qty));
    }

    method ProcessSymbols(snapshot: Snapshot, state: Account, n: nat)
      requires Wired() && ValidRisk(env.risk)
      requires ReplayInv(env, World()) && CaughtUp(World()) && AccountMatches(state, broker.Value())
      requires forall s :: s in env.symbols ==> Covers(env, snapshot, s)
      modifies broker, orders, trades, generator
      ensures World() == Replay.ProcessAll(env, old(World()), env.symbols, state, snapshot.asOf, n)
    {
      hide ReplayInv, CaughtUp, Replay.Process, Covers, AccountMatches;
      for i := 0 to |env.symbols|
        invariant ReplayInv(env, World()) && CaughtUp(World()) && AccountMatches(state, broker.Value())
        invariant Replay.ProcessAll(env, World(), env.symbols[i..], state, snapshot.asOf, n) ==
                    Replay.ProcessAll(env, old(World()), env.symbols, state, snapshot.asOf, n)
      {
        ghost var before := World();
        assert env.symbols[i..][0] == env.symbols[i] && env.symbols[i..][1..] == env.symbols[i + 1..];
        ReplayNumbered(env, before);
        ProcessSymbol(env.symbols[i], snapshot, state, n);
        ProcessKeepsReplay(env, before, env.symbols[i], state, snapshot.asOf, n);
        StillMatches(state, before.broker, World().broker);
      }
    }

    /** One tick: reconcile, snapshot, account, then every symbol against that one account. */
    method Tick()
      requires Wired() && ValidRisk(env.risk) && Replay.ValidMarket(env) && ReplayInv(env, World())
      modifies this, broker, orders, trades, generator
      ensures ticks == old(ticks) + 1
      ensures World() ==
                if data.cursor.Some? then Replay.Tick(env, old(World()), data.cursor.value, old(ticks))
                else Replay.Reconciled(old(World()))
    {
      hide ReplayInv, CaughtUp, Replay.Reconciled, Replay.ProcessAll, Window, Replay.LastBar, Replay.QuoteOf,
        Replay.ValidMarket, Equity, BuyingPower;
      ReplayNumbered(env, World());
      ReconcileFills();
      ReconcileKeepsReplay(env, old(World()));
      ReconcileTouches(old(World()));
      ticks := ticks + 1;
      var snapshot := data.GetSnapshot(env.symbols);
      if snapshot.Failure? { return; }
      var state := broker.GetAccountState();
      forall s | s in env.symbols ensures Covers(env, snapshot.value, s) {
        WindowEndsNow(env, s, data.cursor.value, data.lookback);
      }
      ProcessSymbols(snapshot.value, state, ticks - 1);
    }
  }

  lemma {:induction false} StillMatches(a: Account, b: Ledger, b': Ledger)
    requires AccountMatches(a, b) && b' == b.(orders := b'.orders, pending := b'.pending)
    ensures AccountMatches(a, b')
  {}
}
