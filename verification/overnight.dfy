/** A replay whose only bar in the flatten zone is its last one: the position stays open overnight. */
module Overnight {
  import opened Wrappers
  import opened Collections
  import opened Trading
  import opened Session
  import opened DecisionPolicy
  import opened Risk
  import opened Broker
  import opened BarSeries
  import opened BrokerLaws
  import opened Replay
  import opened ReplayLaws
  import opened FlatByClose

  /** Ten in the morning, and five minutes before the close. */
  const MORNING := 600 * MINUTE

  const EVENING := 955 * MINUTE

  function Still(at: int): Bar {
    Bar(at, 10.0, 10.0, 10.0, 10.0, 1.0)
  }

  /** One symbol, two bars at a price of 10, a model that always wants to be long, and a budget of one share. */
  ghost function Scene(): Env {
    Env(Config(100.0, 0.0, 0.0, 1.0), RiskConfig(10.0, 1.0, 1.0, 1, 1.0, 0.0, 1.0),
        Policy(0.0, 0.0, 0.0, 0.0, 0.0, 0, 5, 5), (t: int) => 0,
        map["A" := [Still(MORNING), Still(EVENING)]], ["A"], ["A"], 0.0,
        (n: nat, s: string) => Predicted(Regression(1.0)))
  }

  const BUY_ONE := Request("A", Buy, 1.0)

  lemma {:induction false} SceneBars(t: int)
    requires t == MORNING || t == EVENING
    ensures LastBar(Scene(), "A", t) == Some(Still(t)) && LatestBars(Scene(), t) == map["A" := Still(t)]
    ensures Regular(Scene().zone, t) && LocalDate(Scene().zone, t) == 0 && TimeOfDay(Scene().zone, t) == t
  {
    hide BisectRight;
    NewestOfTwo(t);
  }

  lemma {:induction false} NewestOfTwo(t: int)
    requires t == MORNING || t == EVENING
    ensures BisectRight([Still(MORNING), Still(EVENING)], t) == if t == MORNING then 1 else 2
  {
    var bars := [Still(MORNING), Still(EVENING)];
    assert bars[..1] == [Still(MORNING)];
    assert BisectRight(bars[..1], t) == 1;
  }

  /** What matters of a ledger that holds nothing and has the capital left. */
  predicate Idle(b: Ledger) {
    b.cash == 100.0 && b.holdings == map[] && b.lastEquity == 100.0 && b.session == Some(0)
  }

  lemma {:induction false} IdleMoney(b: Ledger)
    requires Idle(b)
    ensures Equity(b) == 100.0 && BuyingPower(Scene().cfg, b) == 100.0
  {
    assert MarkedValues(b.holdings, b.closes) == map[] && GrossValues(b.holdings, b.closes) == map[];
    SumEmpty<string>();
  }

  lemma {:induction false} FirstMark()
    ensures TicketsKnown(Start(Scene()).broker)
    ensures
      var w := MarkBar(Scene(), Start(Scene()), MORNING);
      && Idle(w.broker) && w.broker.pending == [] && w.broker.orders == [] && "A" in w.broker.closes
      && w.broker.asOf == Some(MORNING) && w.rows == [] && w.fills == [] && w.attempts == map[]
  {
    SceneBars(MORNING);
  }

  lemma {:induction false} OneShare(b: Ledger, quote: Quote)
    requires Idle(b) && quote.ask == 10.0
    ensures Assess(Scene().risk, "A", Long, AccountOf(Scene().cfg, b), quote) == Approved(Buy, 1.0)
  {
    hide Shares, LossLimitHit, ExposureLimit, GrossPositions, Sum, Equity, BuyingPower;
    IdleMoney(b);
    var a := AccountOf(Scene().cfg, b);
    NothingHeld(b);
    OneIsAffordable(a);
    assert Sum(GrossPositions(a.positions)) + 1 as real * 10.0 <= ExposureLimit(Scene().risk, a);
  }

  lemma {:induction false} NothingHeld(b: Ledger)
    requires Idle(b)
    ensures
      var a := AccountOf(Scene().cfg, b);
      a.positions == map[] && Sum(GrossPositions(a.positions)) == 0.0
  {
    hide Equity, BuyingPower;
    assert AccountOf(Scene().cfg, b).positions == map[] && GrossPositions(map[]) == map[];
    SumEmpty<string>();
  }

  /** With 100 of equity and buying power: no loss yet, one share within the budget of 10, and room for it. */
  lemma {:induction false} OneIsAffordable(a: Broker.Account)
    requires a.equity == a.lastEquity == a.buyingPower == 100.0
    ensures Shares(Scene().risk, a, 10.0) == 1 && !LossLimitHit(Scene().risk, a) && ExposureLimit(Scene().risk, a) == 100.0
  {
    hide WholeShares;
    FloorIsLargest(10.0, 10.0, 1);
    FloorIsLargest(10.0, 10.0, 2);
  }

  lemma {:induction false} WantsLong()
    ensures
      var last := LastBar(Scene(), "A", MORNING);
      Generate(Scene(), map[], "A", last, MORNING, None, Scene().oracle(0, "A")).target == Success(Long)
  {
    hide LastBar;
    SceneBars(MORNING);
  }

  /** The first tick buys one share, to be filled at the next bar's open. */
  lemma {:induction false} FirstTick(w: World)
    requires Idle(w.broker) && w.broker.pending == [] && w.broker.orders == [] && "A" in w.broker.closes
    requires w.broker.asOf == Some(MORNING) && w.rows == [] && w.fills == [] && w.attempts == map[]
    ensures
      var b := Tick(Scene(), w, MORNING, 0).broker;
      Idle(b) && b.pending == [Ticket(0, BUY_ONE)] && |b.orders| == 1
  {
    hide Assess, Generate, LastBar, Equity, BuyingPower;
    SceneBars(MORNING);
    WantsLong();
    var quote := QuoteOf(Scene(), Still(MORNING));
    OneShare(w.broker, quote);
    assert Reconciled(w) == w;
    assert ["A"][1..] == [];
  }

  lemma {:induction false} SecondMark(w: World)
    requires Idle(w.broker) && w.broker.pending == [Ticket(0, BUY_ONE)] && |w.broker.orders| == 1
    ensures TicketsKnown(w.broker)
    ensures "A" in MarkBar(Scene(), w, EVENING).broker.holdings
  {
    hide Equity, BuyingPower;
    SceneBars(EVENING);
    var timed, bars := Timed(w.broker, EVENING, 0), LatestBars(Scene(), EVENING);
    IdleMoney(timed);
    assert FillPrice(Scene().cfg, Buy, bars["A"].open) == Some(10.0);
    var filled := FillOne(Scene().cfg, timed, Ticket(0, BUY_ONE), bars, EVENING);
    assert Affordable(Scene().cfg, timed, BUY_ONE, 10.0);
    assert "A" in filled.holdings;
    assert w.broker.pending[1..] == [];
    assert FillAll(Scene().cfg, timed, w.broker.pending, bars, EVENING) == filled;
  }

  /** The run itself: bought in the morning, told to flatten at the last bar, held when the session ends. */
  lemma {:induction false} OneZoneBarStaysOpen() returns (worlds: seq<World>)
    ensures IsReplay(Scene(), [MORNING, EVENING], worlds) && ValidMarket(Scene()) && ValidPolicy(Scene().policy)
    ensures "A" in LatestBars(Scene(), EVENING) && InZone(Scene(), EVENING)
    ensures HeldOrPending(worlds[2], "A")
  {
    hide MarkBar, Tick, LatestBars, LastBar, ReplayInv, CaughtUp;
    var env := Scene();
    SceneBars(MORNING);
    SceneBars(EVENING);
    FirstMark();
    var w1 := Tick(env, MarkBar(env, Start(env), MORNING), MORNING, 0);
    FirstTick(MarkBar(env, Start(env), MORNING));
    SecondMark(w1);
    worlds := [Start(env), w1, Tick(env, MarkBar(env, w1, EVENING), EVENING, 1)];
    FlatExactly(env, [MORNING, EVENING], worlds, 1, 1, "A");
  }
}
