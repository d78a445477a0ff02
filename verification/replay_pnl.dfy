/** The end-to-end P&L identity: broker equity against FIFO round trips of the recorded trades. */
module ReplayPnl {
  import opened Wrappers
  import opened Collections
  import opened Trading
  import opened Broker
  import opened BrokerLaws
  import opened Replay
  import opened ReplayLaws
  import opened RoundTripLaws
  import RoundTrips

  /** A recorded fill as the analysis reads it back. */
  function TradeOf(o: Order): Trade {
    Trade(o.symbol, o.side, o.filledQty, PaidPrice(o), if o.filledAt.Some? then o.filledAt.value else 0)
  }

  function Trades(fills: seq<Order>): seq<Trade> {
    seq(|fills|, i requires 0 <= i < |fills| => TradeOf(fills[i]))
  }

  ghost function SpentBy(fills: seq<Order>): map<nat, real> {
    if fills == [] then map[] else
      var o := fills[|fills| - 1];
      SpentBy(fills[..|fills| - 1])[o.id := Worth(Signed(o.side, o.qty), PaidPrice(o))]
  }

  ghost function BoughtBy(fills: seq<Order>, symbol: string): map<nat, real> {
    if fills == [] then map[] else
      var o := fills[|fills| - 1];
      var front := BoughtBy(fills[..|fills| - 1], symbol);
      if o.symbol == symbol then front[o.id := Signed(o.side, o.qty)] else front
  }

  predicate DistinctFills(fills: seq<Order>) {
    forall i, j :: 0 <= i < j < |fills| ==> fills[i].id != fills[j].id
  }

  predicate FullFills(fills: seq<Order>) {
    forall i :: 0 <= i < |fills| ==> fills[i].filledQty == fills[i].qty && fills[i].qty > 0.0
  }

  /** Recorded trades move the cash and the shares that the orders they record moved. */
  lemma {:induction false} FillsAddUp(fills: seq<Order>)
    requires DistinctFills(fills) && FullFills(fills)
    ensures Sum(SpentBy(fills)) == -CashFlow(Trades(fills))
    ensures forall s :: Sum(BoughtBy(fills, s)) == Traded(Trades(fills), s)
    ensures forall k :: k in SpentBy(fills) ==> Recorded(fills, k)
    ensures forall s, k :: k in BoughtBy(fills, s) ==> Recorded(fills, k)
    ensures Sized(Trades(fills))
  {
    hide Sum, Worth, Signed, PaidPrice;
    if fills == [] {
      SumEmpty<nat>();
    } else {
      var front, o := fills[..|fills| - 1], fills[|fills| - 1];
      FillsAddUp(front);
      assert Trades(fills)[..|fills| - 1] == Trades(front);
      assert !Recorded(front, o.id);
      var value := Worth(Signed(o.side, o.qty), PaidPrice(o));
      assert Delta(TradeOf(o)) == Signed(o.side, o.qty);
      SumAssign(SpentBy(front), o.id, value);
      forall s ensures Sum(BoughtBy(fills, s)) == Traded(Trades(fills), s) {
        SumAssign(BoughtBy(front, s), o.id, Signed(o.side, o.qty));
      }
      assert front + [o] == fills;
      RecordedGrows(front, o);
    }
  }

  lemma {:induction false} RecordedGrows(front: seq<Order>, o: Order)
    ensures forall k :: Recorded(front, k) ==> Recorded(front + [o], k)
    ensures Recorded(front + [o], o.id)
  {
    forall k | Recorded(front, k) ensures Recorded(front + [o], k) {
      var i :| 0 <= i < |front| && front[i].id == k;
      assert (front + [o])[i].id == k;
    }
    assert (front + [o])[|front|].id == o.id;
  }

  lemma {:induction false} SpentByLookup(fills: seq<Order>, i: nat)
    requires DistinctFills(fills) && i < |fills|
    ensures fills[i].id in SpentBy(fills)
    ensures SpentBy(fills)[fills[i].id] == Worth(Signed(fills[i].side, fills[i].qty), PaidPrice(fills[i]))
    ensures forall s :: fills[i].id in BoughtBy(fills, s) <==> fills[i].symbol == s
    ensures BoughtBy(fills, fills[i].symbol)[fills[i].id] == Signed(fills[i].side, fills[i].qty)
  {
    hide Worth, Signed, PaidPrice;
    var front, o := fills[..|fills| - 1], fills[|fills| - 1];
    if i < |front| {
      SpentByLookup(front, i);
    } else {
      NotRecorded(front, o.id);
    }
  }

  lemma {:induction false} NotRecorded(fills: seq<Order>, id: nat)
    requires forall i :: 0 <= i < |fills| ==> fills[i].id != id
    ensures id !in SpentBy(fills) && forall s :: id !in BoughtBy(fills, s)
  {
    if fills != [] {
      NotRecorded(fills[..|fills| - 1], id);
    }
  }

  /** With every fill recorded once, the trades account for exactly the filled orders. */
  lemma {:induction false} TradesAreFilledOrders(env: Env, w: World)
    requires ReplayInv(env, w) && CaughtUp(w)
    ensures DistinctFills(w.fills) && FullFills(w.fills)
    ensures SpentBy(w.fills) == Spent(w.broker.orders)
    ensures forall s :: BoughtBy(w.fills, s) == Bought(w.broker.orders, s)
  {
    hide Worth, Signed, PaidPrice, Solvent, Spent, Bought, SpentBy, BoughtBy;
    var orders := w.broker.orders;
    forall i | 0 <= i < |w.fills|
      ensures w.fills[i].id < |orders| && w.fills[i] == orders[w.fills[i].id] && w.fills[i].status == Filled
      ensures w.fills[i].filledQty == w.fills[i].qty && w.fills[i].qty > 0.0
    {
      assert RowOk(w.rows[w.fills[i].id], orders[w.fills[i].id]);
      assert OrderOk(orders[w.fills[i].id], w.fills[i].id, w.broker.asOf);
    }
    MapsAgree(w.fills, orders);
  }

  lemma {:induction false} MapsAgree(fills: seq<Order>, orders: seq<Order>)
    requires DistinctFills(fills) && FullFills(fills)
    requires forall i :: 0 <= i < |fills| ==>
               fills[i].id < |orders| && fills[i] == orders[fills[i].id] && fills[i].status == Filled
    requires forall k :: 0 <= k < |orders| && orders[k].status == Filled ==> Recorded(fills, k)
    ensures SpentBy(fills) == Spent(orders)
    ensures forall s :: BoughtBy(fills, s) == Bought(orders, s)
  {
    hide Worth, Signed, PaidPrice, SpentBy, BoughtBy, Sum;
    FillsAddUp(fills);
    forall k ensures k in SpentBy(fills) <==> k in Spent(orders)
    {
      if k in Spent(orders) {
        var i :| 0 <= i < |fills| && fills[i].id == k;
        SpentByLookup(fills, i);
      }
      if k in SpentBy(fills) {
        var i :| 0 <= i < |fills| && fills[i].id == k;
      }
    }
    forall k | k in Spent(orders) ensures SpentBy(fills)[k] == Spent(orders)[k] {
      var i :| 0 <= i < |fills| && fills[i].id == k;
      SpentByLookup(fills, i);
    }
    forall s ensures BoughtBy(fills, s) == Bought(orders, s) {
      BoughtAgrees(fills, orders, s);
    }
  }

  lemma {:induction false} BoughtAgrees(fills: seq<Order>, orders: seq<Order>, s: string)
    requires DistinctFills(fills) && FullFills(fills)
    requires forall i :: 0 <= i < |fills| ==>
               fills[i].id < |orders| && fills[i] == orders[fills[i].id] && fills[i].status == Filled
    requires forall k :: 0 <= k < |orders| && orders[k].status == Filled ==> Recorded(fills, k)
    ensures BoughtBy(fills, s) == Bought(orders, s)
  {
    hide Worth, Signed, PaidPrice, SpentBy, BoughtBy, Sum;
    FillsAddUp(fills);
    forall k ensures k in BoughtBy(fills, s) <==> k in Bought(orders, s) {
      if k in Bought(orders, s) || k in BoughtBy(fills, s) {
        assert Recorded(fills, k);
        var i :| 0 <= i < |fills| && fills[i].id == k;
        SpentByLookup(fills, i);
      }
    }
    forall k | k in Bought(orders, s) ensures BoughtBy(fills, s)[k] == Bought(orders, s)[k] {
      var i :| 0 <= i < |fills| && fills[i].id == k;
      SpentByLookup(fills, i);
    }
  }

  /** The broker's mark of each held symbol. */
  ghost function Mark(b: Ledger): string -> real {
    s => if s in b.holdings then Price(b.closes, s, b.holdings[s]) else 0.0
  }

  /** The leftover lots' positions, marked, are the marked holdings. */
  lemma {:induction false} LotsAreHoldings(b: Ledger, books: map<string, RoundTrips.Book>)
    requires forall s :: NetQty(RoundTrips.BookOf(books, s)) == Held(b, s)
    ensures Sum(Values(books, Mark(b))) == Sum(MarkedValues(b.holdings, b.closes))
  {
    hide Sum, NetQty, Price;
    forall s ensures Get(Values(books, Mark(b)), s) == Get(MarkedValues(b.holdings, b.closes), s) {
      assert NetQty(RoundTrips.BookOf(books, s)) == Held(b, s);
      NoLots();
    }
    SumSame(Values(books, Mark(b)), MarkedValues(b.holdings, b.closes));
  }

  lemma {:induction false} NoLots()
    ensures NetQty(RoundTrips.Book([], [])) == 0.0
  {}

  /**
   * The end-to-end identity, after every bar of every replay and for any decision log: equity equals
   * initial capital plus realized round-trip P&L plus signed quantity times (mark minus lot price)
   * over the leftover lots, and the leftover lots of each symbol sum to its holding.
   */
  lemma {:induction false} EquityIdentity(env: Env, w: World, ds: seq<RoundTrips.Decision>)
    requires ReplayInv(env, w) && CaughtUp(w)
    ensures
      var matched := RoundTrips.Matched(RoundTrips.ByTime(Trades(w.fills)), ds);
      && Equity(w.broker) == env.cfg.capital + TotalPnl(matched.trips) + Sum(Gains(matched.books, Mark(w.broker)))
      && forall s :: NetQty(RoundTrips.BookOf(matched.books, s)) == Held(w.broker, s)
  {
    hide Sum, NetQty, Gain, Worth, Spent, Bought, SpentBy, BoughtBy, CashFlow, Traded, TotalPnl, Gains, Values, Trades, Mark;
    var trades := Trades(w.fills);
    var sorted := RoundTrips.ByTime(trades);
    TradesAreFilledOrders(env, w);
    FillsAddUp(w.fills);
    SortingConserves(trades);
    MatchingConserves(sorted, ds);
    PnlIdentity(sorted, ds, Mark(w.broker));
    var books := RoundTrips.Matched(sorted, ds).books;
    forall s ensures NetQty(RoundTrips.BookOf(books, s)) == Held(w.broker, s) {
      assert Held(w.broker, s) == Sum(Bought(w.broker.orders, s));
    }
    LotsAreHoldings(w.broker, books);
  }

  /** The identity over whole replays, and again after the run has settled. */
  lemma {:induction false} ReplayEquityIdentity(
    env: Env, grid: seq<int>, worlds: seq<World>, i: nat, ds: seq<RoundTrips.Decision>)
    requires IsReplay(env, grid, worlds) && i < |worlds|
    ensures
      var w := worlds[i];
      var matched := RoundTrips.Matched(RoundTrips.ByTime(Trades(w.fills)), ds);
      Equity(w.broker) == env.cfg.capital + TotalPnl(matched.trips) + Sum(Gains(matched.books, Mark(w.broker)))
    ensures TicketsKnown(worlds[i].broker)
    ensures
      var f := Finish(worlds[i]);
      var matched := RoundTrips.Matched(RoundTrips.ByTime(Trades(f.fills)), ds);
      Equity(f.broker) == env.cfg.capital + TotalPnl(matched.trips) + Sum(Gains(matched.books, Mark(f.broker)))
  {
    hide ReplayInv, CaughtUp, Equity, Tick, Finish;
    EveryReplayKeeps(env, grid, worlds, i);
    EquityIdentity(env, worlds[i], ds);
    FinishSettles(env, worlds[i]);
    EquityIdentity(env, Finish(worlds[i]), ds);
  }
}
