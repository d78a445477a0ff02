/** The replay loop: mark each bar, tick the engine, then settle what is left. */
module Runner {
  import opened Wrappers
  import opened Trading
  import opened Session
  import opened Risk
  import opened Broker
  import opened BrokerLaws
  import opened MarketData
  import opened ReplayLaws
  import opened Engine
  import Replay

  /** The grid times of regular sessions, in order. */
  function RegularOnly(zone: Zone, times: seq<int>): seq<int> {
    if times == [] then [] else
      var front, last := RegularOnly(zone, times[..|times| - 1]), times[|times| - 1];
      if SinceOpen(zone, last) >= 0 && UntilClose(zone, last) > 0 then front + [last] else front
  }

  lemma {:induction false} RegularOnlyIsValid(env: Replay.Env, times: seq<int>)
    requires Ascends(times)
    ensures ValidGrid(env, RegularOnly(env.zone, times))
    ensures forall t :: t in RegularOnly(env.zone, times) <==> t in times && Regular(env.zone, t)
  {
    if times != [] {
      var front, last := times[..|times| - 1], times[|times| - 1];
      assert times == front + [last];
      RegularOnlyIsValid(env, front);
      hide TimeOfDay;
      var kept := RegularOnly(env.zone, front);
      forall i | 0 <= i < |kept| ensures kept[i] < last {
        assert kept[i] in front;
      }
    }
  }

  class BacktestRunner {
    const env: Replay.Env
    const engine: TradingEngine
    const start: int
    const end: int

    constructor (env: Replay.Env, engine: TradingEngine, start: int, end: int)
      ensures this.env == env && this.engine == engine && this.start == start && this.end == end
    {
      this.env, this.engine, this.start, this.end := env, engine, start, end;
    }

    /** The loop's body: the data moves on, the broker marks to market, the engine ticks. */
    method Bar(at: int, n: nat)
      requires engine.env == env && engine.Wired() && ValidRisk(env.risk) && Replay.ValidMarket(env)
      requires engine.ticks == n && TicketsKnown(engine.World().broker)
      requires ReplayInv(env, Replay.MarkBar(env, engine.World(), at))
      modifies engine, engine.data, engine.broker, engine.orders, engine.trades, engine.generator
      ensures engine.Wired() && engine.ticks == n + 1
      ensures engine.World() == Replay.Tick(env, Replay.MarkBar(env, old(engine.World()), at), at, n)
    {
      hide ReplayInv, Replay.Tick, MarkedToMarket, Replay.LatestBars, Replay.ValidMarket, Equity;
      engine.data.AdvanceTo(at);
      var latest := engine.data.LatestBars();
      engine.broker.MarkToMarket(at, LocalDate(env.zone, at), latest.value);
      assert engine.World() == Replay.MarkBar(env, old(engine.World()), at);
      engine.Tick();
    }

    /** `_reconcile_remaining`: the same pass over open rows, once more. */
    method ReconcileRemaining()
      requires Numbered(engine.broker.Value(), engine.orders.rows)
      modifies engine.orders, engine.trades
      ensures engine.World() == Replay.Reconciled(old(engine.World()))
    {
      engine.ReconcileFills();
    }

    /**
     * A whole backtest is a replay over exactly the regular bar times of the period, after which
     * nothing is open, rows equal broker orders, and every FILLED order has exactly one trade.
     */
    method Run() returns (ghost grid: seq<int>, ghost worlds: seq<Replay.World>)
      requires engine.env == env && engine.Wired() && ValidRisk(env.risk) && Replay.ValidMarket(env)
      requires engine.World() == Replay.Start(env) && engine.ticks == 0
      modifies engine, engine.data, engine.broker, engine.orders, engine.trades, engine.generator
      ensures IsReplay(env, grid, worlds)
      ensures forall t :: t in grid <==> t in GridTimes(env, start, end) && Regular(env.zone, t)
      ensures |worlds| == |grid| + 1 && TicketsKnown(worlds[|grid|].broker)
      ensures engine.World() == if grid == [] then Replay.Start(env) else Replay.Finish(worlds[|grid|])
      ensures engine.broker.pending == [] && engine.orders.rows == engine.broker.orders
      ensures forall i :: 0 <= i < |engine.orders.rows| ==> Terminal(engine.orders.rows[i].status)
      ensures FillsExact(engine.trades.fills, engine.orders.rows)
    {
      hide ReplayInv, CaughtUp, Replay.Tick, MarkedToMarket, Replay.LatestBars, Replay.ValidMarket, Replay.Finish, GridTimes,
        ValidGrid, Regular, FillsExact, Equity, Replaying, IsReplay;
      var times := engine.data.TimestampGrid(start, end);
      RegularOnlyIsValid(env, times);
      var ticks := RegularOnly(env.zone, times);
      grid, worlds := ticks, [engine.World()];
      StartKeepsReplay(env);
      ReplayBegins(env, grid, worlds);
      if ticks == [] {
        ReplayFills(env, engine.World());
        return;
      }
      for i := 0 to |ticks|
        invariant engine.Wired() && engine.ticks == i && |worlds| == i + 1
        invariant worlds[i] == engine.World() && worlds[0] == Replay.Start(env)
        invariant Replaying(env, grid, worlds) && (i == |ticks| ==> IsReplay(env, grid, worlds))
        invariant ReplayInv(env, engine.World()) && CaughtUp(engine.World())
        invariant engine.broker.asOf == if i == 0 then None else Some(grid[i - 1])
      {
        ghost var before := engine.World();
        BarKeeps(env, grid, before, i);
        Bar(ticks[i], i);
        ReplayGoesOn(env, grid, worlds, engine.World());
        worlds := worlds + [engine.World()];
      }
      ghost var last := engine.World();
      FinishSettles(env, last);
      engine.broker.CancelPending();
      CancelNumbered(env, last);
      ReplayFills(env, Replay.Finish(last));
      ReconcileRemaining();
    }
  }

  /** The part of `IsReplay` that holds while the loop is still running. */
  ghost predicate Replaying(env: Replay.Env, grid: seq<int>, worlds: seq<Replay.World>)
    requires ValidRisk(env.risk)
  {
    && 1 <= |worlds| <= |grid| + 1
    && forall i :: 0 <= i < |worlds| - 1 ==>
         TicketsKnown(worlds[i].broker) && worlds[i + 1] == Replay.Tick(env, Replay.MarkBar(env, worlds[i], grid[i]), grid[i], i)
  }

  lemma {:induction false} ReplayBegins(env: Replay.Env, grid: seq<int>, worlds: seq<Replay.World>)
    requires ValidRisk(env.risk) && ValidGrid(env, grid) && worlds == [Replay.Start(env)]
    ensures Replaying(env, grid, worlds) && (grid == [] ==> IsReplay(env, grid, worlds))
  {}

  lemma {:induction false} ReplayGoesOn(env: Replay.Env, grid: seq<int>, worlds: seq<Replay.World>, next: Replay.World)
    requires ValidRisk(env.risk) && ValidGrid(env, grid) && 1 <= |worlds| <= |grid| && worlds[0] == Replay.Start(env)
    requires Replaying(env, grid, worlds)
    requires
      var n := |worlds| - 1;
      TicketsKnown(worlds[n].broker) && next == Replay.Tick(env, Replay.MarkBar(env, worlds[n], grid[n]), grid[n], n)
    ensures Replaying(env, grid, worlds + [next])
    ensures |worlds| == |grid| ==> IsReplay(env, grid, worlds + [next])
  {
    hide Replay.Tick, Replay.MarkBar, ValidGrid, Replay.Start;
  }

  lemma {:induction false} ReplayFills(env: Replay.Env, w: Replay.World)
    requires ReplayInv(env, w)
    ensures FillsExact(w.fills, w.rows)
  {}

  lemma {:induction false} BarKeeps(env: Replay.Env, grid: seq<int>, w: Replay.World, i: nat)
    requires ValidGrid(env, grid) && i < |grid| && ValidRisk(env.risk)
    requires ReplayInv(env, w) && CaughtUp(w) && w.broker.asOf == if i == 0 then None else Some(grid[i - 1])
    ensures TicketsKnown(w.broker)
    ensures
      var m := Replay.MarkBar(env, w, grid[i]);
      && ReplayInv(env, m)
      && ReplayInv(env, Replay.Tick(env, m, grid[i], i)) && CaughtUp(Replay.Tick(env, m, grid[i], i))
      && Replay.Tick(env, m, grid[i], i).broker.asOf == Some(grid[i])
  {
    hide ReplayInv, CaughtUp, Replay.Tick, Replay.MarkBar, ValidGrid, Later;
    GridLater(env, grid, w, i);
    MarkKeepsReplay(env, w, grid[i]);
    BarKeepsReplay(env, w, grid[i], i);
  }

  lemma {:induction false} CancelNumbered(env: Replay.Env, w: Replay.World)
    requires ReplayInv(env, w) && TicketsKnown(w.broker)
    ensures Numbered(CancelledAll(w.broker, w.broker.pending), w.rows)
    ensures Replay.Finish(w) == Replay.Reconciled(w.(broker := CancelledAll(w.broker, w.broker.pending)))
  {
    hide Replay.Reconciled, FillsExact, OneOpen;
    ReplayNumbered(env, w);
    CancelAllKeeps(env.cfg.capital, w.broker, w.broker.pending);
    CancelAllLength(w.broker, w.broker.pending);
    InvDecisive(env.cfg.capital, CancelledAll(w.broker, w.broker.pending));
  }
}
