/** One bar of the replay as a function of the whole state: mark, reconcile, decide, clear, submit. */
module Replay {
  import opened Wrappers
  import opened Trading
  import opened Session
  import opened DecisionPolicy
  import opened Risk
  import opened Broker
  import opened BarSeries

  /** What feature computation and prediction do when asked; the model may do anything. */
  datatype Outcome = FeaturesRaise | NoVector | PredictionRaises | Predicted(prediction: Prediction)

  /** The n-th tick's answer for each symbol. */
  type Oracle = (nat, string) -> Outcome

  /** Everything a replay is configured with. Bars are regular-session and sorted by time. */
  datatype Env = Env(
    cfg: Config, risk: RiskConfig, policy: Policy, zone: Zone, market: map<string, seq<Bar>>,
    tradable: seq<string>, symbols: seq<string>, quoteSpread: real, oracle: Oracle)

  /** The broker, the order and trade repositories, and the generator's last attempts. */
  datatype World = World(broker: Ledger, rows: seq<Order>, fills: seq<Order>, attempts: map<string, int>)

  function Start(env: Env): World {
    World(NewLedger(env.cfg), [], [], map[])
  }

  // ---------------------------------------------------------- market data

  predicate ValidMarket(env: Env) {
    forall s :: s in env.market ==> SortedBars(env.market[s]) && forall i :: 0 <= i < |env.market[s]| ==> Regular(env.zone, env.market[s][i].at)
  }

  /** `bisect_right(timestamps, t)`. */
  function BisectRight(bars: seq<Bar>, t: int): (k: nat)
    ensures k <= |bars|
    ensures k > 0 ==> bars[k - 1].at <= t
    ensures SortedBars(bars) ==> forall i :: k <= i < |bars| ==> t < bars[i].at
  {
    if bars == [] || bars[|bars| - 1].at <= t then |bars| else BisectRight(bars[..|bars| - 1], t)
  }

  function BarsOf(env: Env, symbol: string): seq<Bar> {
    if symbol in env.market then env.market[symbol] else []
  }

  /** The newest bar at or before the cursor: the end of every snapshot window. */
  function LastBar(env: Env, symbol: string, t: int): Option<Bar> {
    var k := BisectRight(BarsOf(env, symbol), t);
    if k > 0 then Some(BarsOf(env, symbol)[k - 1]) else None
  }

  /** `latest_bars`: the tradable symbols whose newest bar is exactly the cursor's. */
  function LatestBars(env: Env, t: int): map<string, Bar> {
    map s | s in env.tradable && LastBar(env, s, t).Some? && LastBar(env, s, t).value.at == t :: LastBar(env, s, t).value
  }

  /** The synthetic quote around the newest close. */
  function QuoteOf(env: Env, bar: Bar): Quote {
    Quote(bar.close * (1.0 - env.quoteSpread / 2.0), bar.close * (1.0 + env.quoteSpread / 2.0))
  }

  // ------------------------------------------------------------ generator

  datatype Signal = Signal(attempts: map<string, int>, target: Result<Exposure>)

  /** `generate`: session safety first, then at most one evaluation per bar. */
  function Generate(env: Env, attempts: map<string, int>, symbol: string, last: Option<Bar>, asOf: int,
                    position: Option<real>, outcome: Outcome): Signal
  {
    var safetyTime := if last.Some? then last.value.at else asOf;
    if position.Some? && UntilClose(env.zone, safetyTime) <= env.policy.flatten * MINUTE then
      Signal(attempts, Success(Flat))
    else if last.None? then Signal(attempts, Success(Unchanged))
    else
      var at := last.value.at;
      if symbol in attempts && attempts[symbol] == at then Signal(attempts, Success(Unchanged))
      else
        var tried := attempts[symbol := at];
        match outcome
        case FeaturesRaise => Signal(tried, Failure("feature computation raised"))
        case NoVector => Signal(tried, Success(Unchanged))
        case PredictionRaises => Signal(tried, Success(Unchanged))
        case Predicted(p) =>
          Signal(tried, Success(Decide(env.policy, p, position, SinceOpen(env.zone, at), UntilClose(env.zone, at))))
  }

  // --------------------------------------------------------------- engine

  /** `find_open_orders`: rows of the symbol that may still fill, as recorded locally. */
  function OpenRows(rows: seq<Order>, symbol: string): seq<Order> {
    if rows == [] then [] else
      var front, last := OpenRows(rows[..|rows| - 1], symbol), rows[|rows| - 1];
      if last.symbol == symbol && !Terminal(last.status) then front + [last] else front
  }

  /** `find_open_broker_order_ids`. */
  function OpenIds(rows: seq<Order>): (ids: seq<nat>)
    ensures forall i :: 0 <= i < |ids| ==> ids[i] < |rows|
    ensures forall i :: 0 <= i < |ids| ==> !Terminal(rows[ids[i]].status)
    ensures forall k :: 0 <= k < |rows| && !Terminal(rows[k].status) ==> k in ids
    ensures forall i, j :: 0 <= i < j < |ids| ==> ids[i] < ids[j]
  {
    if rows == [] then [] else
      var front := OpenIds(rows[..|rows| - 1]);
      if !Terminal(rows[|rows| - 1].status) then front + [|rows| - 1] else front
  }

  predicate Recorded(fills: seq<Order>, id: nat) {
    exists i :: 0 <= i < |fills| && fills[i].id == id
  }

  /** One row of `_reconcile_fills`: copy the broker's view; a first FILLED is recorded as a trade. */
  function ReconcileOne(w: World, id: nat): World
    requires id < |w.rows|
  {
    if id >= |w.broker.orders| then w else
      var o := w.broker.orders[id];
      w.(rows := w.rows[id := o],
         fills := if o.status == Filled && !Recorded(w.fills, id) then w.fills + [o] else w.fills)
  }

  function ReconcileIds(w: World, ids: seq<nat>): (r: World)
    requires forall i :: 0 <= i < |ids| ==> ids[i] < |w.rows|
    ensures |r.rows| == |w.rows| && r.broker == w.broker && r.attempts == w.attempts
    decreases |ids|
  {
    if ids == [] then w else ReconcileIds(ReconcileOne(w, ids[0]), ids[1..])
  }

  function Reconciled(w: World): World {
    ReconcileIds(w, OpenIds(w.rows))
  }

  /** `_clear_conflicting_orders` on the open orders of a symbol: cancel the opposite side. */
  function ClearConflicts(b: Ledger, open: seq<Order>, side: Side): Ledger
    decreases |open|
  {
    if open == [] then b else
      var next := if open[0].side != side && Cancelled(b, open[0].id).Success? then Cancelled(b, open[0].id).value else b;
      ClearConflicts(next, open[1..], side)
  }

  /** Submitting: a refused order is an error of this symbol only; an accepted one is recorded. */
  function SubmitAndSave(w: World, r: Request): World {
    var submitted := Submitted(w.broker, r);
    if submitted.Failure? then w
    else w.(broker := submitted.value, rows := w.rows + [submitted.value.orders[|submitted.value.orders| - 1]])
  }

  /** `_process_symbol`, with the account as it stood at the start of the tick. */
  ghost function Process(env: Env, w: World, symbol: string, account: Account, asOf: int, n: nat): World
    requires ValidRisk(env.risk)
  {
    var last := LastBar(env, symbol, asOf);
    var position := if symbol in account.positions then Some(account.positions[symbol].qty) else None;
    var signal := Generate(env, w.attempts, symbol, last, asOf, position, env.oracle(n, symbol));
    var w1 := w.(attempts := signal.attempts);
    if signal.target.Failure? || signal.target.value == Unchanged || last.None? then w1 else
      var verdict := Assess(env.risk, symbol, signal.target.value, account, QuoteOf(env, last.value));
      if verdict.Refused? then w1
      else
        var open := OpenRows(w1.rows, symbol);
        if open != [] then w1.(broker := ClearConflicts(w1.broker, open, verdict.side))
        else SubmitAndSave(w1, Request(symbol, verdict.side, verdict.qty))
  }

  ghost function ProcessAll(env: Env, w: World, symbols: seq<string>, account: Account, asOf: int, n: nat): World
    requires ValidRisk(env.risk)
    decreases |symbols|
  {
    if symbols == [] then w
    else ProcessAll(env, Process(env, w, symbols[0], account, asOf, n), symbols[1..], account, asOf, n)
  }

  ghost function Tick(env: Env, w: World, asOf: int, n: nat): World
    requires ValidRisk(env.risk)
  {
    var w1 := Reconciled(w);
    ProcessAll(env, w1, env.symbols, AccountOf(env.cfg, w1.broker), asOf, n)
  }

  // --------------------------------------------------------------- runner

  ghost function MarkBar(env: Env, w: World, at: int): World
    requires TicketsKnown(w.broker)
  {
    w.(broker := MarkedToMarket(env.cfg, w.broker, at, LocalDate(env.zone, at), LatestBars(env, at)))
  }

  /** After the last bar: cancel what never found a next bar, then reconcile once more. */
  function Finish(w: World): World
    requires TicketsKnown(w.broker)
  {
    Reconciled(w.(broker := CancelledAll(w.broker, w.broker.pending)))
  }
}
