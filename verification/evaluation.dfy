/** The model is asked at most once about each bar: what it would say a second time changes nothing. */
module Evaluation {
  import opened Wrappers
  import opened Trading
  import opened Session
  import opened DecisionPolicy
  import opened Risk
  import opened Broker
  import opened BarSeries
  import opened Replay
  import opened ReplayLaws

  /** The newest bar's time: what a symbol's snapshot ends with at an instant. */
  function NewestAt(env: Env, symbol: string, t: int): Option<int> {
    var last := LastBar(env, symbol, t);
    if last.Some? then Some(last.value.at) else None
  }

  /** In the flatten zone of a bar, whoever holds a position is told to be flat before anything is evaluated. */
  predicate MustFlatten(env: Env, at: int) {
    UntilClose(env.zone, at) <= env.policy.flatten * MINUTE
  }

  /** Outside the mandatory flatten, a bar already attempted is answered UNCHANGED whatever would be said of it. */
  lemma {:induction false} StaleBarIsUnchanged(
    env: Env, attempts: map<string, int>, symbol: string, bar: Bar, asOf: int, position: Option<real>, outcome: Outcome)
    requires symbol in attempts && attempts[symbol] == bar.at
    requires position.None? || !MustFlatten(env, bar.at)
    ensures
      var s := Generate(env, attempts, symbol, Some(bar), asOf, position, outcome);
      s.target == Success(Unchanged) && s.attempts == attempts
  {}

  /** The mandatory flatten asks for FLAT without consulting anything, and leaves the bar unattempted. */
  lemma {:induction false} FlattenComesFirst(
    env: Env, attempts: map<string, int>, symbol: string, bar: Bar, asOf: int, qty: real, outcome: Outcome)
    requires MustFlatten(env, bar.at)
    ensures
      var s := Generate(env, attempts, symbol, Some(bar), asOf, Some(qty), outcome);
      s.target == Success(Flat) && s.attempts == attempts
  {}

  /** A bar seen for the first time is attempted, and only a prediction can ask for anything. */
  lemma {:induction false} FirstLookAttempts(
    env: Env, attempts: map<string, int>, symbol: string, bar: Bar, asOf: int, position: Option<real>, outcome: Outcome)
    requires symbol !in attempts || attempts[symbol] != bar.at
    requires position.None? || !MustFlatten(env, bar.at)
    ensures
      var s := Generate(env, attempts, symbol, Some(bar), asOf, position, outcome);
      && s.attempts == attempts[symbol := bar.at]
      && (s.target.Failure? <==> outcome.FeaturesRaise?)
      && (outcome.NoVector? || outcome.PredictionRaises? ==> s.target == Success(Unchanged))
      && (outcome.Predicted? ==>
            s.target == Success(Decide(env.policy, outcome.prediction, position,
                                       TimeOfDay(env.zone, bar.at) - SESSION_OPEN, SESSION_CLOSE - TimeOfDay(env.zone, bar.at))))
  {
    hide Decide;
  }

  // --------------------------------------------------------------- one bar

  /** The bar is attempted, or it is one in whose zone flatness is all that can be asked for. */
  predicate Looked(env: Env, attempts: map<string, int>, symbol: string, at: int) {
    (symbol in attempts && attempts[symbol] == at) || MustFlatten(env, at)
  }

  predicate LookedAtNewest(env: Env, w: World, symbol: string, t: int) {
    NewestAt(env, symbol, t).Some? ==> Looked(env, w.attempts, symbol, NewestAt(env, symbol, t).value)
  }

  function PositionIn(a: Account, symbol: string): Option<real> {
    if symbol in a.positions then Some(a.positions[symbol].qty) else None
  }

  function SignalOf(env: Env, w: World, symbol: string, a: Account, asOf: int, n: nat): Signal {
    Generate(env, w.attempts, symbol, LastBar(env, symbol, asOf), asOf, PositionIn(a, symbol), env.oracle(n, symbol))
  }

  /** Only the symbol's own attempt changes, and afterwards its newest bar has been looked at. */
  lemma {:induction false} ProcessLooks(env: Env, w: World, symbol: string, a: Account, asOf: int, n: nat)
    requires ValidRisk(env.risk)
    ensures LookedAtNewest(env, Process(env, w, symbol, a, asOf, n), symbol, asOf)
    ensures forall s :: LookedAtNewest(env, w, s, asOf) ==> LookedAtNewest(env, Process(env, w, symbol, a, asOf, n), s, asOf)
  {
    ProcessAttempts(env, w, symbol, a, asOf, n);
    SignalLooks(env, w, symbol, a, asOf, n);
    hide Process, SignalOf, LastBar;
  }

  lemma {:induction false} ProcessAttempts(env: Env, w: World, symbol: string, a: Account, asOf: int, n: nat)
    requires ValidRisk(env.risk)
    ensures Process(env, w, symbol, a, asOf, n).attempts == SignalOf(env, w, symbol, a, asOf, n).attempts
  {
    hide Generate, LastBar, Assess, QuoteOf, OpenRows, ClearConflicts, Submitted;
  }

  lemma {:induction false} SignalLooks(env: Env, w: World, symbol: string, a: Account, asOf: int, n: nat)
    ensures
      var attempts := SignalOf(env, w, symbol, a, asOf, n).attempts;
      && LookedAtNewest(env, w.(attempts := attempts), symbol, asOf)
      && forall s :: s != symbol ==> (s in attempts <==> s in w.attempts) && (s in attempts ==> attempts[s] == w.attempts[s])
  {
    hide LastBar, Decide;
  }

  /** About a bar that has been looked at, the model's words change nothing at all. */
  lemma {:induction false} LookedIgnoresModel(
    env: Env, other: Oracle, w: World, symbol: string, a: Account, asOf: int, n: nat)
    requires ValidRisk(env.risk) && ValidPolicy(env.policy) && LookedAtNewest(env, w, symbol, asOf)
    ensures Process(env, w, symbol, a, asOf, n) == Process(env.(oracle := other), w, symbol, a, asOf, n)
  {
    var last := LastBar(env, symbol, asOf);
    SameBars(env, other, symbol, asOf);
    if last.Some? {
      var at := last.value.at;
      if PositionIn(a, symbol).Some? && MustFlatten(env, at) {
        FlattenComesFirst(env, w.attempts, symbol, last.value, asOf, a.positions[symbol].qty, env.oracle(n, symbol));
        FlattenComesFirst(env.(oracle := other), w.attempts, symbol, last.value, asOf, a.positions[symbol].qty, other(n, symbol));
        SameSignalSameWorld(env, other, w, symbol, a, asOf, n);
      } else if symbol in w.attempts && w.attempts[symbol] == at {
        StaleBarIsUnchanged(env, w.attempts, symbol, last.value, asOf, PositionIn(a, symbol), env.oracle(n, symbol));
        StaleBarIsUnchanged(env.(oracle := other), w.attempts, symbol, last.value, asOf, PositionIn(a, symbol), other(n, symbol));
        SameSignalSameWorld(env, other, w, symbol, a, asOf, n);
      } else {
        FlatInZone(env, w, symbol, a, asOf, n);
        FlatInZone(env.(oracle := other), w, symbol, a, asOf, n);
      }
    } else {
      NothingToSee(env, w, symbol, a, asOf, n);
      NothingToSee(env.(oracle := other), w, symbol, a, asOf, n);
    }
  }

  lemma {:induction false} SameBars(env: Env, other: Oracle, symbol: string, asOf: int)
    ensures LastBar(env.(oracle := other), symbol, asOf) == LastBar(env, symbol, asOf)
  {}

  lemma {:induction false} SameSignalSameWorld(
    env: Env, other: Oracle, w: World, symbol: string, a: Account, asOf: int, n: nat)
    requires ValidRisk(env.risk)
    requires SignalOf(env, w, symbol, a, asOf, n) == SignalOf(env.(oracle := other), w, symbol, a, asOf, n)
    ensures Process(env, w, symbol, a, asOf, n) == Process(env.(oracle := other), w, symbol, a, asOf, n)
  {
    SameBars(env, other, symbol, asOf);
    if LastBar(env, symbol, asOf).Some? { SameQuotes(env, other, LastBar(env, symbol, asOf).value); }
    hide Generate, LastBar, Assess, OpenRows, ClearConflicts, Submitted, QuoteOf;
  }

  lemma {:induction false} SameQuotes(env: Env, other: Oracle, bar: Bar)
    ensures QuoteOf(env.(oracle := other), bar) == QuoteOf(env, bar)
  {}

  /** Without a position, a bar of the zone is attempted and leads to nothing. */
  lemma {:induction false} FlatInZone(env: Env, w: World, symbol: string, a: Account, asOf: int, n: nat)
    requires ValidRisk(env.risk) && ValidPolicy(env.policy) && symbol !in a.positions
    requires LastBar(env, symbol, asOf).Some? && MustFlatten(env, LastBar(env, symbol, asOf).value.at)
    requires symbol !in w.attempts || w.attempts[symbol] != LastBar(env, symbol, asOf).value.at
    ensures Process(env, w, symbol, a, asOf, n) == w.(attempts := w.attempts[symbol := LastBar(env, symbol, asOf).value.at])
  {
    var bar, outcome := LastBar(env, symbol, asOf).value, env.oracle(n, symbol);
    FirstLookAttempts(env, w.attempts, symbol, bar, asOf, None, outcome);
    if outcome.Predicted? {
      FlatInFlattenZone(env.policy, outcome.prediction, None, SinceOpen(env.zone, bar.at), UntilClose(env.zone, bar.at));
    }
    FlatIsRefused(env.risk, symbol, a, QuoteOf(env, bar));
    hide LastBar, Generate, Decide, Assess, QuoteOf;
  }

  lemma {:induction false} FlatIsRefused(c: RiskConfig, symbol: string, a: Account, quote: Quote)
    requires ValidRisk(c) && symbol !in a.positions
    ensures Assess(c, symbol, Flat, a, quote).Refused? && Assess(c, symbol, Unchanged, a, quote).Refused?
  {}

  lemma {:induction false} NothingToSee(env: Env, w: World, symbol: string, a: Account, asOf: int, n: nat)
    requires ValidRisk(env.risk) && LastBar(env, symbol, asOf).None?
    ensures Process(env, w, symbol, a, asOf, n) == w
  {
    hide LastBar;
  }

  // -------------------------------------------------------------- one tick

  /** The two oracles agree on a tick wherever the symbol's newest bar has not been looked at. */
  ghost predicate AgreeWhereNew(env: Env, other: Oracle, w: World, symbols: seq<string>, asOf: int, n: nat) {
    forall s :: s in symbols && !LookedAtNewest(env, w, s, asOf) ==> other(n, s) == env.oracle(n, s)
  }

  lemma {:induction false} ProcessAllAgrees(
    env: Env, other: Oracle, w: World, symbols: seq<string>, a: Account, asOf: int, n: nat)
    requires ValidRisk(env.risk) && ValidPolicy(env.policy) && AgreeWhereNew(env, other, w, symbols, asOf, n)
    ensures ProcessAll(env, w, symbols, a, asOf, n) == ProcessAll(env.(oracle := other), w, symbols, a, asOf, n)
    ensures forall s :: s in symbols || LookedAtNewest(env, w, s, asOf) ==>
              LookedAtNewest(env, ProcessAll(env, w, symbols, a, asOf, n), s, asOf)
    decreases |symbols|
  {
    hide Process, LookedAtNewest;
    if symbols != [] {
      var first := symbols[0];
      var next := Process(env, w, first, a, asOf, n);
      ProcessAgrees(env, other, w, first, a, asOf, n);
      ProcessLooks(env, w, first, a, asOf, n);
      ProcessAllAgrees(env, other, next, symbols[1..], a, asOf, n);
      assert forall s :: s in symbols <==> s == first || s in symbols[1..];
    }
  }

  lemma {:induction false} ProcessAgrees(env: Env, other: Oracle, w: World, symbol: string, a: Account, asOf: int, n: nat)
    requires ValidRisk(env.risk) && ValidPolicy(env.policy)
    requires !LookedAtNewest(env, w, symbol, asOf) ==> other(n, symbol) == env.oracle(n, symbol)
    ensures Process(env, w, symbol, a, asOf, n) == Process(env.(oracle := other), w, symbol, a, asOf, n)
  {
    if LookedAtNewest(env, w, symbol, asOf) {
      LookedIgnoresModel(env, other, w, symbol, a, asOf, n);
    } else {
      SameWordsSameSignal(env, other, w, symbol, a, asOf, n);
      SameSignalSameWorld(env, other, w, symbol, a, asOf, n);
    }
  }

  lemma {:induction false} SameWordsSameSignal(
    env: Env, other: Oracle, w: World, symbol: string, a: Account, asOf: int, n: nat)
    requires other(n, symbol) == env.oracle(n, symbol)
    ensures SignalOf(env, w, symbol, a, asOf, n) == SignalOf(env.(oracle := other), w, symbol, a, asOf, n)
  {
    SameBars(env, other, symbol, asOf);
    hide LastBar, Decide;
  }

  lemma {:induction false} TickAgrees(env: Env, other: Oracle, w: World, asOf: int, n: nat)
    requires ValidRisk(env.risk) && ValidPolicy(env.policy) && AgreeWhereNew(env, other, w, env.symbols, asOf, n)
    ensures Tick(env, w, asOf, n) == Tick(env.(oracle := other), w, asOf, n)
    ensures forall s :: s in env.symbols ==> LookedAtNewest(env, Tick(env, w, asOf, n), s, asOf)
  {
    hide ProcessAll, Reconciled, Equity, BuyingPower, LookedAtNewest;
    ReconcileTouches(w);
    var w1 := Reconciled(w);
    forall s ensures LookedAtNewest(env, w, s, asOf) <==> LookedAtNewest(env, w1, s, asOf) {
      LookedByAttempts(env, w, w1, s, asOf);
    }
    ProcessAllAgrees(env, other, w1, env.symbols, AccountOf(env.cfg, w1.broker), asOf, n);
  }

  lemma {:induction false} LookedByAttempts(env: Env, w: World, w': World, symbol: string, t: int)
    requires w.attempts == w'.attempts
    ensures LookedAtNewest(env, w, symbol, t) <==> LookedAtNewest(env, w', symbol, t)
  {}

  // ------------------------------------------------------------------ runs

  /** Tick `n` is the first at which the symbol's snapshot ends with its newest bar. */
  predicate FirstTick(env: Env, grid: seq<int>, symbol: string, n: nat) {
    n < |grid| && forall m :: 0 <= m < n ==> NewestAt(env, symbol, grid[m]) != NewestAt(env, symbol, grid[n])
  }

  lemma {:induction false} CutGrows(bars: seq<Bar>, t: int, later: int)
    requires t <= later
    ensures BisectRight(bars, t) <= BisectRight(bars, later)
  {
    if !(bars == [] || bars[|bars| - 1].at <= later) {
      CutGrows(bars[..|bars| - 1], t, later);
    }
  }

  lemma {:induction false} NewestGrows(env: Env, symbol: string, t: int, later: int)
    requires ValidMarket(env) && t <= later && NewestAt(env, symbol, t).Some?
    ensures NewestAt(env, symbol, later).Some? && NewestAt(env, symbol, t).value <= NewestAt(env, symbol, later).value
  {
    hide BisectRight, Regular;
    CutGrows(BarsOf(env, symbol), t, later);
  }

  /** A newest bar that an earlier tick saw was still the newest one tick ago. */
  lemma {:induction false} SeenStays(env: Env, grid: seq<int>, symbol: string, n: nat)
    requires ValidMarket(env) && ValidGrid(env, grid) && n < |grid| && !FirstTick(env, grid, symbol, n)
    requires NewestAt(env, symbol, grid[n]).Some?
    ensures n > 0 && NewestAt(env, symbol, grid[n - 1]) == NewestAt(env, symbol, grid[n])
  {
    hide NewestAt, ValidMarket, Regular;
    var m :| 0 <= m < n && NewestAt(env, symbol, grid[m]) == NewestAt(env, symbol, grid[n]);
    NewestGrows(env, symbol, grid[m], grid[n - 1]);
    NewestGrows(env, symbol, grid[n - 1], grid[n]);
  }

  lemma {:induction false} GridUnchanged(env: Env, other: Oracle, w: World, at: int)
    requires TicketsKnown(w.broker)
    ensures MarkBar(env.(oracle := other), w, at) == MarkBar(env, w, at) && MarkBar(env, w, at).attempts == w.attempts
  {
    SameLatest(env, other, at);
    hide LatestBars, MarkedToMarket;
  }

  lemma {:induction false} SameLatest(env: Env, other: Oracle, at: int)
    ensures LatestBars(env.(oracle := other), at) == LatestBars(env, at)
  {
    forall s ensures LastBar(env.(oracle := other), s, at) == LastBar(env, s, at) {
      SameBars(env, other, s, at);
    }
    hide LastBar;
  }

  /**
   * At most one evaluation per bar, over every replay: models that agree on the first tick of each
   * symbol's newest bar, and say anything else about later ticks, lead through the same states.
   */
  lemma {:induction false} EachBarIsAskedOnce(
    env: Env, other: Oracle, grid: seq<int>, worlds: seq<World>, others: seq<World>, i: nat)
    requires ValidMarket(env) && ValidPolicy(env.policy)
    requires IsReplay(env, grid, worlds) && IsReplay(env.(oracle := other), grid, others) && i < |worlds|
    requires forall n, s :: s in env.symbols && FirstTick(env, grid, s, n) ==> other(n, s) == env.oracle(n, s)
    ensures others[i] == worlds[i]
    ensures i > 0 ==> forall s :: s in env.symbols ==> LookedAtNewest(env, worlds[i], s, grid[i - 1])
  {
    hide Tick, MarkBar, ValidMarket, ValidPolicy, FirstTick, LookedAtNewest, ValidGrid, Start;
    if i == 0 {
      SameStart(env, other);
    } else {
      EachBarIsAskedOnce(env, other, grid, worlds, others, i - 1);
      var w, n, at := worlds[i - 1], i - 1, grid[i - 1];
      GridUnchanged(env, other, w, at);
      forall s | s in env.symbols && !LookedAtNewest(env, MarkBar(env, w, at), s, at) ensures other(n, s) == env.oracle(n, s) {
        LookedByAttempts(env, MarkBar(env, w, at), w, s, at);
        if !FirstTick(env, grid, s, n) { SeenWasLooked(env, grid, w, s, n); }
      }
      TickAgrees(env, other, MarkBar(env, w, at), at, n);
    }
  }

  lemma {:induction false} SameStart(env: Env, other: Oracle)
    ensures Start(env.(oracle := other)) == Start(env)
  {}

  lemma {:induction false} SeenWasLooked(env: Env, grid: seq<int>, w: World, symbol: string, n: nat)
    requires ValidMarket(env) && ValidGrid(env, grid) && n < |grid| && !FirstTick(env, grid, symbol, n)
    requires n > 0 ==> LookedAtNewest(env, w, symbol, grid[n - 1])
    ensures LookedAtNewest(env, w, symbol, grid[n])
  {
    hide Looked, NewestAt, FirstTick, ValidMarket, ValidGrid;
    if NewestAt(env, symbol, grid[n]).Some? {
      SeenStays(env, grid, symbol, n);
    }
  }
}
