/** What a whole run of client calls makes of each order, of each valuation and of the session's first equity. */
module BrokerRuns {
  import opened Wrappers
  import opened Collections
  import opened Trading
  import opened Broker
  import opened BrokerLaws

  // ---------------------------------------------------------------- fills

  /** A buy pays the open and half the spread and then the slippage; a sell is paid the open less both. */
  function Worsened(cfg: Config, side: Side, open: real): real {
    match side
    case Buy => open * (1.0 + cfg.spread / 2.0) * (1.0 + cfg.slippage)
    case Sell => open * (1.0 - cfg.spread / 2.0) * (1.0 - cfg.slippage)
  }

  lemma {:induction false} OpensWorsen(cfg: Config, side: Side, open: real)
    ensures FillPrice(cfg, side, open) == if open > 0.0 then Some(Worsened(cfg, side, open)) else None
  {
    if open > 0.0 {
      var price := FillPrice(cfg, side, open).value;
      if side == Buy {
        assert price == open * (1.0 + cfg.spread / 2.0) * (1.0 + cfg.slippage) == Worsened(cfg, side, open);
      } else {
        assert price == open * (1.0 - cfg.spread / 2.0) * (1.0 - cfg.slippage) == Worsened(cfg, side, open);
      }
    }
  }

  /** The order brings the held quantity no further from zero, or costs at most the account's buying power. */
  ghost predicate Payable(cfg: Config, b: Ledger, o: Order, price: real) {
    var held := if o.symbol in b.holdings then b.holdings[o.symbol].qty else 0.0;
    var moved := if o.side == Buy then held + o.qty else held - o.qty;
    Abs(moved) <= Abs(held) || o.qty * price <= AccountOf(cfg, b).buyingPower
  }

  /** What an ACCEPTED order has become after its turn, given the ledger that its turn found. */
  ghost predicate Dealt(cfg: Config, turn: Ledger, o: Order, bars: map<string, Bar>, at: int, o': Order) {
    if o.symbol !in bars then o' == o else
      var open := bars[o.symbol].open;
      var price := Worsened(cfg, o.side, open);
      if open > 0.0 && Payable(cfg, turn, o, price) then
        o' == o.(status := Filled, filledQty := o.qty, filledPrice := Some(price), filledAt := Some(at))
      else o' == o.(status := Rejected)
  }

  lemma {:induction false} FillTurn(cfg: Config, b: Ledger, t: Ticket, bars: map<string, Bar>, at: int)
    requires Inv(cfg.capital, b) && t in b.pending
    ensures t.id < |b.orders|
    ensures Dealt(cfg, b, b.orders[t.id], bars, at, FillOne(cfg, b, t, bars, at).orders[t.id])
  {
    hide Affordable, Payable, HoldingsAfter, Solvent, Without, FillPrice, Worsened;
    var k :| 0 <= k < |b.pending| && b.pending[k] == t;
    assert TicketOk(b.pending[k], b.orders);
    assert OrderOk(b.orders[t.id], t.id, b.asOf);
    if t.request.symbol in bars {
      var o, open := b.orders[t.id], bars[t.request.symbol].open;
      OpensWorsen(cfg, o.side, open);
      PayableIs(cfg, b, t.request, o, Worsened(cfg, o.side, open));
    }
  }

  lemma {:induction false} PayableIs(cfg: Config, b: Ledger, r: Request, o: Order, price: real)
    requires r == Request(o.symbol, o.side, o.qty)
    ensures Affordable(cfg, b, r, price) <==> Payable(cfg, b, o, price)
  {
    hide Equity, BuyingPower;
  }

  lemma {:induction false} FillOneElsewhere(cfg: Config, b: Ledger, t: Ticket, bars: map<string, Bar>, at: int, i: nat)
    requires t.id < |b.orders| && i < |b.orders| && t.id != i
    ensures FillOne(cfg, b, t, bars, at).orders[i] == b.orders[i]
  {
    hide Affordable, FillPrice, HoldingsAfter, Without;
  }

  lemma {:induction false} FillAllElsewhere(
    cfg: Config, b: Ledger, tickets: seq<Ticket>, bars: map<string, Bar>, at: int, i: nat)
    requires forall k :: 0 <= k < |tickets| ==> tickets[k].id < |b.orders| && tickets[k].id != i
    requires i < |b.orders|
    ensures FillAll(cfg, b, tickets, bars, at).orders[i] == b.orders[i]
    decreases |tickets|
  {
    hide FillOne;
    if tickets != [] {
      FillOneElsewhere(cfg, b, tickets[0], bars, at, i);
      FillOneLength(cfg, b, tickets[0], bars, at);
      FillAllElsewhere(cfg, FillOne(cfg, b, tickets[0], bars, at), tickets[1..], bars, at, i);
    }
  }

  lemma {:induction false} FillOneLength(cfg: Config, b: Ledger, t: Ticket, bars: map<string, Bar>, at: int)
    requires t.id < |b.orders|
    ensures |FillOne(cfg, b, t, bars, at).orders| == |b.orders|
  {
    hide Affordable, FillPrice, HoldingsAfter, Without;
  }

  /** The queue can be cut anywhere: the rest is filled on what the first part left. */
  lemma {:induction false} FillAllSplit(
    cfg: Config, b: Ledger, tickets: seq<Ticket>, k: nat, bars: map<string, Bar>, at: int)
    requires k <= |tickets| && forall i :: 0 <= i < |tickets| ==> tickets[i].id < |b.orders|
    ensures FillAll(cfg, b, tickets, bars, at) ==
              FillAll(cfg, FillAll(cfg, b, tickets[..k], bars, at), tickets[k..], bars, at)
    decreases k
  {
    hide FillOne;
    if k == 0 {
      assert tickets[0..] == tickets;
    } else {
      FillOneLength(cfg, b, tickets[0], bars, at);
      FillAllSplit(cfg, FillOne(cfg, b, tickets[0], bars, at), tickets[1..], k - 1, bars, at);
      assert tickets[..k][1..] == tickets[1..][..k - 1];
      assert tickets[1..][k - 1..] == tickets[k..];
    }
  }

  /** The ledger that the k-th pending order finds when a mark comes to it: the closes are still the old ones. */
  ghost function TurnOf(cfg: Config, b: Ledger, k: nat, at: int, session: int, bars: map<string, Bar>): Ledger
    requires k < |b.pending| && TicketsKnown(b)
  {
    FillAll(cfg, Timed(b, at, session), b.pending[..k], bars, at)
  }

  /** A mark deals with each pending order in its turn, at its own bar's open. */
  lemma {:induction false} MarkDeals(cfg: Config, b: Ledger, at: int, session: int, bars: map<string, Bar>, k: nat)
    requires Inv(cfg.capital, b) && Later(b, at) && k < |b.pending|
    ensures TicketsKnown(b) && |MarkedToMarket(cfg, b, at, session, bars).orders| == |b.orders|
    ensures
      var id := b.pending[k].id;
      Dealt(cfg, TurnOf(cfg, b, k, at, session, bars), b.orders[id], bars, at,
            MarkedToMarket(cfg, b, at, session, bars).orders[id])
  {
    hide Inv, Later, Older, FillAll, FillOne, Equity, Dealt, History, Closes;
    TicketsHaveOrders(cfg.capital, b, []);
    InvIncreasing(cfg.capital, b);
    var timed, t := Timed(b, at, session), b.pending[k];
    TimedKeeps(cfg.capital, b, at, session);
    var front := b.pending[..k];
    FillAllKeeps(cfg, timed, front, bars, at);
    var turn := FillAll(cfg, timed, front, bars, at);
    assert t !in front;
    FillAllElsewhere(cfg, timed, front, bars, at, t.id);
    FillTurn(cfg, turn, t, bars, at);
    FillOneLength(cfg, turn, t, bars, at);
    var next := FillOne(cfg, turn, t, bars, at);
    FillAllSplit(cfg, timed, b.pending, k, bars, at);
    LastOfQueue(cfg, turn, b.pending, k, bars, at);
  }

  lemma {:induction false} LastOfQueue(
    cfg: Config, turn: Ledger, pending: seq<Ticket>, k: nat, bars: map<string, Bar>, at: int)
    requires k < |pending| && Increasing(pending)
    requires forall i :: 0 <= i < |pending| ==> pending[i].id < |turn.orders|
    ensures FillAll(cfg, turn, pending[k..], bars, at).orders[pending[k].id] ==
              FillOne(cfg, turn, pending[k], bars, at).orders[pending[k].id]
  {
    hide FillOne;
    FillOneLength(cfg, turn, pending[k], bars, at);
    assert pending[k..][1..] == pending[k + 1..];
    FillAllElsewhere(cfg, FillOne(cfg, turn, pending[k], bars, at), pending[k + 1..], bars, at, pending[k].id);
  }

  /**
   * With costs in [0, 1) a buy never fills below and a sell never above the open, strictly so when a
   * cost is positive, and buying and selling at one open never gains cash.
   */
  lemma {:induction false} DealingNeverPays(
    cfg: Config, turn: Ledger, buy: Order, buy': Order, turn': Ledger, sell: Order, sell': Order,
    bars: map<string, Bar>, at: int)
    requires 0.0 <= cfg.spread < 1.0 && 0.0 <= cfg.slippage < 1.0
    requires buy.side == Buy && sell.side == Sell && buy.symbol == sell.symbol && buy.qty == sell.qty > 0.0
    requires Dealt(cfg, turn, buy, bars, at, buy') && buy'.status == Filled != buy.status
    requires Dealt(cfg, turn', sell, bars, at, sell') && sell'.status == Filled != sell.status
    ensures buy.symbol in bars && buy'.filledPrice.Some? && sell'.filledPrice.Some?
    ensures
      var open, paid, got := bars[buy.symbol].open, buy'.filledPrice.value, sell'.filledPrice.value;
      && 0.0 < got <= open <= paid && sell.qty * got - buy.qty * paid <= 0.0
      && (cfg.spread > 0.0 || cfg.slippage > 0.0 ==> got < open < paid && sell.qty * got - buy.qty * paid < 0.0)
  {
    hide Payable, Worsened;
    WorsenedIs(cfg, bars[buy.symbol].open);
    Dearer(buy.qty, sell'.filledPrice.value, buy'.filledPrice.value);
  }

  lemma {:induction false} WorsenedIs(cfg: Config, open: real)
    requires open > 0.0 && 0.0 <= cfg.spread < 1.0 && 0.0 <= cfg.slippage < 1.0
    ensures 0.0 < Worsened(cfg, Sell, open) <= open <= Worsened(cfg, Buy, open)
    ensures cfg.spread > 0.0 || cfg.slippage > 0.0 ==> Worsened(cfg, Sell, open) < open < Worsened(cfg, Buy, open)
  {
    var low, high := open * (1.0 - cfg.spread / 2.0), open * (1.0 + cfg.spread / 2.0);
    assert Worsened(cfg, Sell, open) == low * (1.0 - cfg.slippage);
    assert Worsened(cfg, Buy, open) == high * (1.0 + cfg.slippage);
    hide Worsened;
    CostWorsens(open, cfg.spread / 2.0, low, high);
    CostWorsens(low, cfg.slippage, Worsened(cfg, Sell, open), low * (1.0 + cfg.slippage));
    CostWorsens(high, cfg.slippage, high * (1.0 - cfg.slippage), Worsened(cfg, Buy, open));
  }

  lemma {:induction false} CostWorsens(price: real, cost: real, below: real, above: real)
    requires price > 0.0 && 0.0 <= cost < 1.0 && below == price * (1.0 - cost) && above == price * (1.0 + cost)
    ensures 0.0 < below <= price <= above && (cost > 0.0 ==> below < price < above)
  {
    var loss := price * cost;
    ProductSign(price, cost, loss);
    ProductSign(price, 1.0 - cost, below);
    assert below == price - loss && above == price + loss;
  }

  lemma {:induction false} ProductSign(a: real, b: real, product: real)
    requires a > 0.0 && b >= 0.0 && product == a * b
    ensures product >= 0.0 && (b > 0.0 ==> product > 0.0)
  {}

  lemma {:induction false} Dearer(qty: real, low: real, high: real)
    requires qty > 0.0 && low <= high
    ensures qty * low <= qty * high && (low < high ==> qty * low < qty * high)
  {}

  // -------------------------------------------------------------- stories

  /** The calls that can end the wait of an ACCEPTED order: a bar of its symbol, or a cancellation. */
  predicate Touches(op: Op, o: Order) {
    match op
    case Mark(at, session, bars) => o.symbol in bars
    case Submit(request) => false
    case Cancel(id) => id == o.id
    case CancelAll => true
  }

  /** What such a call makes of the order. */
  ghost predicate Ends(cfg: Config, b: Ledger, op: Op, o: Order, o': Order)
    requires TicketsKnown(b)
  {
    match op
    case Mark(at, session, bars) =>
      exists k :: 0 <= k < |b.pending| && b.pending[k].id == o.id &&
                  Dealt(cfg, TurnOf(cfg, b, k, at, session, bars), o, bars, at, o')
    case Submit(request) => o' == o
    case Cancel(id) => o' == o.(status := Canceled)
    case CancelAll => o' == o.(status := Canceled)
  }

  lemma {:induction false} CancelAllOrder(b: Ledger, tickets: seq<Ticket>, i: nat)
    requires i < |b.orders| && b.orders[i].status == Accepted
    requires b.orders[i].filledQty == 0.0 && b.orders[i].filledPrice == None && b.orders[i].filledAt == None
    requires forall k :: 0 <= k < |tickets| ==> tickets[k].id < |b.orders|
    ensures CancelledAll(b, tickets).orders[i] ==
              if Pends(tickets, i) then b.orders[i].(status := Canceled) else b.orders[i]
    decreases |tickets|
  {
    hide Without;
    if tickets != [] {
      var b1 := Cancelled(b, tickets[0].id).value;
      assert Pends(tickets, i) <==> tickets[0].id == i || Pends(tickets[1..], i) by { PendsTail(tickets, i); }
      if tickets[0].id == i {
        CancelAllSettled(b1, tickets[1..], i);
      } else {
        CancelAllOrder(b1, tickets[1..], i);
      }
    }
  }

  lemma {:induction false} PendsTail(tickets: seq<Ticket>, i: nat)
    requires tickets != []
    ensures Pends(tickets, i) <==> tickets[0].id == i || Pends(tickets[1..], i)
  {
    if Pends(tickets[1..], i) {
      var k :| 0 <= k < |tickets[1..]| && tickets[1..][k].id == i;
      assert tickets[k + 1].id == i;
    }
    if Pends(tickets, i) && tickets[0].id != i {
      var k :| 0 <= k < |tickets| && tickets[k].id == i;
      assert tickets[1..][k - 1].id == i;
    }
  }

  lemma {:induction false} CancelAllSettled(b: Ledger, tickets: seq<Ticket>, i: nat)
    requires i < |b.orders| && b.orders[i].status != Accepted
    requires forall k :: 0 <= k < |tickets| ==> tickets[k].id < |b.orders|
    ensures CancelledAll(b, tickets).orders[i] == b.orders[i]
    decreases |tickets|
  {
    hide Without;
    if tickets != [] {
      CancelAllSettled(Cancelled(b, tickets[0].id).value, tickets[1..], i);
    }
  }

  /** One call: an ACCEPTED order waits on, or ends as the call says. */
  lemma {:induction false} AfterStory(cfg: Config, b: Ledger, op: Op, i: nat)
    requires Inv(cfg.capital, b) && TicketsKnown(b) && (op.Mark? ==> Later(b, op.at))
    requires i < |b.orders| && b.orders[i].status == Accepted
    ensures i < |After(cfg, b, op).orders|
    ensures
      var o, o' := b.orders[i], After(cfg, b, op).orders[i];
      if Touches(op, o) then Ends(cfg, b, op, o, o') else o' == o
  {
    hide MarkedToMarket, Solvent, Dealt, TurnOf, CancelledAll, Without, Later;
    assert OrderOk(b.orders[i], i, b.asOf);
    assert Pends(b.pending, i);
    match op
    case Mark(at, session, bars) =>
      var k :| 0 <= k < |b.pending| && b.pending[k].id == i;
      MarkDeals(cfg, b, at, session, bars, k);
      assert Dealt(cfg, TurnOf(cfg, b, k, at, session, bars), b.orders[i], bars, at, After(cfg, b, op).orders[i]);
      DealtOnlyByBars(cfg, TurnOf(cfg, b, k, at, session, bars), b.orders[i], bars, at, After(cfg, b, op).orders[i]);
    case Submit(r) =>
    case Cancel(id) =>
    case CancelAll => CancelAllOrder(b, b.pending, i);
  }

  lemma {:induction false} DealtOnlyByBars(
    cfg: Config, turn: Ledger, o: Order, bars: map<string, Bar>, at: int, o': Order)
    requires Dealt(cfg, turn, o, bars, at, o')
    ensures o.symbol !in bars ==> o' == o
    ensures o.symbol in bars ==> Terminal(o'.status)
  {}

  lemma {:induction false} EndsTerminal(cfg: Config, b: Ledger, op: Op, o: Order, o': Order)
    requires TicketsKnown(b) && Touches(op, o) && Ends(cfg, b, op, o, o')
    ensures Terminal(o'.status)
  {
    hide Dealt, TurnOf;
    match op
    case Mark(at, session, bars) =>
      var k :| 0 <= k < |b.pending| && b.pending[k].id == o.id &&
               Dealt(cfg, TurnOf(cfg, b, k, at, session, bars), o, bars, at, o');
      DealtOnlyByBars(cfg, TurnOf(cfg, b, k, at, session, bars), o, bars, at, o');
    case _ =>
  }

  /** The order that a submission issues. */
  predicate Issued(states: seq<Ledger>, ops: seq<Op>, k: nat, i: nat) {
    && k < |ops| < |states| && ops[k].Submit? && |states[k].orders| == i && |states[k + 1].orders| == i + 1
    && states[k].asOf.Some?
    && states[k + 1].orders[i] ==
         Order(i, ops[k].request.symbol, ops[k].request.side, ops[k].request.qty, Accepted, 0.0, None, states[k].asOf.value, None)
  }

  predicate Untouched(ops: seq<Op>, from: nat, to: nat, o: Order) {
    forall m :: from <= m < to && m < |ops| ==> !Touches(ops[m], o)
  }

  /** The order issued as `o` has ended with call `m`, the first that could end it. */
  ghost predicate EndedBy(cfg: Config, states: seq<Ledger>, ops: seq<Op>, k: nat, m: nat, o: Order, o': Order)
    requires |states| == |ops| + 1 && forall n :: 0 <= n < |ops| ==> TicketsKnown(states[n])
  {
    k < m < |ops| && Untouched(ops, k + 1, m, o) && Touches(ops[m], o) && Ends(cfg, states[m], ops[m], o, o')
  }

  /**
   * The whole story of every order of every run: it was issued by a successful submission exactly as
   * requested and at the clock's time, and waits until the first later call that concerns it; a bar
   * of its symbol fills it at that bar's worsened open when the account can pay at its turn and
   * rejects it otherwise, a cancellation cancels it, and after that it never changes.
   */
  lemma {:induction false} EveryOrderHasItsStory(cfg: Config, states: seq<Ledger>, ops: seq<Op>, j: nat, i: nat)
    returns (k: nat)
    requires Run(cfg, states, ops) && j < |states| && i < |states[j].orders|
    ensures k < j && Issued(states, ops, k, i)
    ensures
      var o, o' := states[k + 1].orders[i], states[j].orders[i];
      || (Untouched(ops, k + 1, j, o) && o' == o)
      || exists m :: k < m < j && EndedBy(cfg, states, ops, k, m, o, o')
  {
    hide Inv, After, NewLedger, Ends, Touches, History;
    EveryRunKeeps(cfg, states, ops, 0, 0);
    StartsEmpty(cfg, states, ops);
    EveryRunKeeps(cfg, states, ops, j - 1, j - 1);
    var b, op := states[j - 1], ops[j - 1];
    if i >= |b.orders| {
      k := j - 1;
      AfterIssues(cfg, b, op, i);
    } else {
      k := EveryOrderHasItsStory(cfg, states, ops, j - 1, i);
      var o := states[k + 1].orders[i];
      if Untouched(ops, k + 1, j - 1, o) && b.orders[i] == o {
        AfterStory(cfg, b, op, i);
        if Touches(op, o) {
          assert EndedBy(cfg, states, ops, k, j - 1, o, states[j].orders[i]);
        }
      } else {
        var m :| k < m < j - 1 && EndedBy(cfg, states, ops, k, m, o, b.orders[i]);
        EndsTerminal(cfg, states[m], ops[m], o, b.orders[i]);
        AfterKeeps(cfg, b, op);
        HistoryFinal(b.orders, states[j].orders, i);
        assert EndedBy(cfg, states, ops, k, m, o, states[j].orders[i]);
      }
    }
  }

  lemma {:induction false} StartsEmpty(cfg: Config, states: seq<Ledger>, ops: seq<Op>)
    requires Run(cfg, states, ops)
    ensures states[0].orders == []
  {}

  lemma {:induction false} HistoryFinal(before: seq<Order>, after: seq<Order>, i: nat)
    requires History(before, after) && i < |before| && Terminal(before[i].status)
    ensures after[i] == before[i]
  {}

  /** Only a successful submission adds an order, and it adds the requested one. */
  lemma {:induction false} AfterIssues(cfg: Config, b: Ledger, op: Op, i: nat)
    requires TicketsKnown(b) && |b.orders| <= i < |After(cfg, b, op).orders|
    ensures op.Submit? && i == |b.orders| && |After(cfg, b, op).orders| == i + 1 && b.asOf.Some?
    ensures After(cfg, b, op).orders[i] ==
              Order(i, op.request.symbol, op.request.side, op.request.qty, Accepted, 0.0, None, b.asOf.value, None)
  {
    hide FillOne, Equity, Without;
  }

  // ------------------------------------------------------------ valuation

  /** The newest close that the first `j` calls brought for a symbol. */
  function LastClose(ops: seq<Op>, j: nat, symbol: string): Option<real>
    requires j <= |ops|
  {
    if j == 0 then None
    else if ops[j - 1].Mark? && symbol in ops[j - 1].bars then Some(ops[j - 1].bars[symbol].close)
    else LastClose(ops, j - 1, symbol)
  }

  /** Each symbol that was ever ordered has a close. */
  predicate OrdersPriced(b: Ledger) {
    forall i :: 0 <= i < |b.orders| ==> b.orders[i].symbol in b.closes
  }

  lemma {:induction false} AfterCloses(cfg: Config, b: Ledger, op: Op, symbol: string)
    requires Inv(cfg.capital, b) && TicketsKnown(b) && (op.Mark? ==> Later(b, op.at)) && OrdersPriced(b)
    ensures
      var b' := After(cfg, b, op);
      if op.Mark? && symbol in op.bars then symbol in b'.closes && b'.closes[symbol] == op.bars[symbol].close
      else (symbol in b'.closes <==> symbol in b.closes) && (symbol in b.closes ==> b'.closes[symbol] == b.closes[symbol])
    ensures OrdersPriced(After(cfg, b, op))
  {
    hide MarkedToMarket, Inv, Later, CancelledAll, Without;
    AfterKeeps(cfg, b, op);
    match op
    case Mark(at, session, bars) =>
      MarkKeeps(cfg, b, at, session, bars);
      MarkLength(cfg, b, at, session, bars);
      SameSymbolsPriced(b, After(cfg, b, op));
    case Submit(r) =>
    case Cancel(id) =>
    case CancelAll =>
      CancelAllKeeps(cfg.capital, b, b.pending);
      SameSymbolsPriced(b, After(cfg, b, op));
  }

  lemma {:induction false} MarkLength(cfg: Config, b: Ledger, at: int, session: int, bars: map<string, Bar>)
    requires TicketsKnown(b)
    ensures |MarkedToMarket(cfg, b, at, session, bars).orders| == |b.orders|
  {
    hide Equity;
  }

  lemma {:induction false} SameSymbolsPriced(b: Ledger, b': Ledger)
    requires OrdersPriced(b) && History(b.orders, b'.orders) && |b'.orders| == |b.orders|
    requires forall s :: s in b.closes ==> s in b'.closes
    ensures OrdersPriced(b')
  {
    forall i | 0 <= i < |b'.orders| ensures b'.orders[i].symbol in b'.closes {
      assert b'.orders[i].symbol == b.orders[i].symbol;
    }
  }

  lemma {:induction false} EveryRunHasLastCloses(cfg: Config, states: seq<Ledger>, ops: seq<Op>, j: nat)
    requires Run(cfg, states, ops) && j < |states|
    ensures OrdersPriced(states[j])
    ensures forall s :: s in states[j].closes <==> LastClose(ops, j, s).Some?
    ensures forall s :: s in states[j].closes ==> states[j].closes[s] == LastClose(ops, j, s).value
  {
    hide Inv, After, OrdersPriced;
    if j == 0 {
      NothingPriced(cfg);
    } else {
      EveryRunHasLastCloses(cfg, states, ops, j - 1);
      EveryRunKeeps(cfg, states, ops, j - 1, j - 1);
      AfterCloses(cfg, states[j - 1], ops[j - 1], "");
      forall s
        ensures s in states[j].closes <==> LastClose(ops, j, s).Some?
        ensures s in states[j].closes ==> states[j].closes[s] == LastClose(ops, j, s).value
      {
        AfterCloses(cfg, states[j - 1], ops[j - 1], s);
      }
    }
  }

  lemma {:induction false} NothingPriced(cfg: Config)
    ensures OrdersPriced(NewLedger(cfg)) && NewLedger(cfg).closes == map[]
  {}

  /** A submission issues an order exactly when its quantity is positive and some mark had a bar of its symbol. */
  lemma {:induction false} EverySubmissionIssues(cfg: Config, states: seq<Ledger>, ops: seq<Op>, k: nat)
    requires Run(cfg, states, ops) && k < |ops| && ops[k].Submit?
    ensures Issued(states, ops, k, |states[k].orders|) <==>
              ops[k].request.qty > 0.0 && LastClose(ops, k, ops[k].request.symbol).Some?
    ensures !Issued(states, ops, k, |states[k].orders|) ==> states[k + 1] == states[k]
  {
    hide Inv, NewLedger, LastClose;
    EveryRunHasLastCloses(cfg, states, ops, k);
    ClockIsSet(cfg, states, ops, k);
  }

  lemma {:induction false} ClockIsSet(cfg: Config, states: seq<Ledger>, ops: seq<Op>, j: nat)
    requires Run(cfg, states, ops) && j < |states|
    ensures states[j].asOf.None? ==> states[j].closes == map[]
  {
    hide Inv, After;
    if j > 0 {
      ClockIsSet(cfg, states, ops, j - 1);
      EveryRunKeeps(cfg, states, ops, j - 1, j - 1);
      AfterClock(cfg, states[j - 1], ops[j - 1]);
    }
  }

  lemma {:induction false} AfterClock(cfg: Config, b: Ledger, op: Op)
    requires Inv(cfg.capital, b) && TicketsKnown(b) && (op.Mark? ==> Later(b, op.at))
    requires b.asOf.None? ==> b.closes == map[]
    ensures After(cfg, b, op).asOf.None? ==> After(cfg, b, op).closes == map[]
  {
    hide MarkedToMarket, Inv, Later, CancelledAll, Without;
    match op
    case Mark(at, session, bars) => MarkKeeps(cfg, b, at, session, bars);
    case Submit(r) =>
    case Cancel(id) =>
    case CancelAll => CancelAllKeeps(cfg.capital, b, b.pending);
  }

  /** A held symbol was bought by some order. */
  lemma {:induction false} HeldWasOrdered(capital: real, b: Ledger, symbol: string)
    requires Inv(capital, b) && symbol in b.holdings
    ensures exists i :: 0 <= i < |b.orders| && b.orders[i].symbol == symbol
  {
    hide Spent, Bought, Sum;
    assert Held(b, symbol) == Sum(Bought(b.orders, symbol));
    NeverOrdered(b.orders, symbol);
  }

  lemma {:induction false} NeverOrdered(orders: seq<Order>, symbol: string)
    ensures (forall i :: 0 <= i < |orders| ==> orders[i].symbol != symbol) ==> Sum(Bought(orders, symbol)) == 0.0
  {
    SumEmpty<nat>();
    assert (forall i :: 0 <= i < |orders| ==> orders[i].symbol != symbol) ==> Bought(orders, symbol) == map[];
  }

  /** Quantities at the newest closes of the run. */
  ghost function AtLastCloses(b: Ledger, ops: seq<Op>, j: nat): map<string, real>
    requires j <= |ops| && forall s :: s in b.holdings ==> LastClose(ops, j, s).Some?
  {
    map s | s in b.holdings :: b.holdings[s].qty * LastClose(ops, j, s).value
  }

  ghost function ExposureAtLastCloses(b: Ledger, ops: seq<Op>, j: nat): map<string, real>
    requires j <= |ops| && forall s :: s in b.holdings ==> LastClose(ops, j, s).Some?
  {
    map s | s in b.holdings ::
      (if b.holdings[s].qty < 0.0 then -b.holdings[s].qty else b.holdings[s].qty) * LastClose(ops, j, s).value
  }

  /**
   * The account of every run, in numbers: each position is valued at the newest close that any mark
   * brought for its symbol, equity is cash plus those values, and buying power is the margin multiple
   * of equity less the gross exposure, never negative.
   */
  lemma {:induction false} EveryRunValuesAtLastCloses(cfg: Config, states: seq<Ledger>, ops: seq<Op>, j: nat)
    requires Run(cfg, states, ops) && j < |states|
    ensures forall s :: s in states[j].holdings ==> LastClose(ops, j, s).Some?
    ensures
      var b, a := states[j], AccountOf(cfg, states[j]);
      && a.cash == b.cash && a.lastEquity == b.lastEquity && a.positions.Keys == b.holdings.Keys
      && (forall s :: s in b.holdings ==>
            var h, close := b.holdings[s], LastClose(ops, j, s).value;
            a.positions[s] == Position(h.qty, h.avg, h.qty * close, (close - h.avg) * h.qty, close))
      && a.equity == b.cash + Sum(AtLastCloses(b, ops, j))
      && var room := a.equity * cfg.margin - Sum(ExposureAtLastCloses(b, ops, j));
         a.buyingPower == if room < 0.0 then 0.0 else room
  {
    hide Sum, Inv, After, NewLedger, LastClose, MarkedValues, GrossValues, AtLastCloses, ExposureAtLastCloses;
    EveryRunHasLastCloses(cfg, states, ops, j);
    EveryRunKeeps(cfg, states, ops, j, j);
    var b := states[j];
    forall s | s in b.holdings ensures s in b.closes {
      HeldWasOrdered(cfg.capital, b, s);
    }
    ValuesAgree(b, ops, j);
  }

  lemma {:induction false} ValuesAgree(b: Ledger, ops: seq<Op>, j: nat)
    requires j <= |ops| && forall s :: s in b.holdings ==>
               s in b.closes && LastClose(ops, j, s).Some? && b.closes[s] == LastClose(ops, j, s).value
    ensures MarkedValues(b.holdings, b.closes) == AtLastCloses(b, ops, j)
    ensures GrossValues(b.holdings, b.closes) == ExposureAtLastCloses(b, ops, j)
  {
    hide LastClose;
    forall s | s in b.holdings
      ensures MarkedValues(b.holdings, b.closes)[s] == AtLastCloses(b, ops, j)[s]
      ensures GrossValues(b.holdings, b.closes)[s] == ExposureAtLastCloses(b, ops, j)[s]
    {
      assert Price(b.closes, s, b.holdings[s]) == LastClose(ops, j, s).value;
    }
  }

  // ------------------------------------------------------- opening equity

  /** Every mark among the calls from `from` to `to` belongs to session `d`. */
  predicate InSession(ops: seq<Op>, from: nat, to: nat, d: int) {
    forall m :: from <= m < to && m < |ops| && ops[m].Mark? ==> ops[m].session == d
  }

  /** Call `k` is the first mark of session `d`, the last session of the first `j` calls, and not of the run. */
  ghost predicate Rolled(cfg: Config, states: seq<Ledger>, ops: seq<Op>, k: nat, j: nat, d: int)
    requires |states| == |ops| + 1
  {
    && k < j <= |ops| && ops[k].Mark? && InSession(ops, k, j, d)
    && states[k].session.Some? && states[k].session.value != d
    && states[j].lastEquity == AccountOf(cfg, states[k]).equity
  }

  /**
   * The equity that daily loss is measured from, over every run: initial capital throughout the
   * first session, and after that the account's equity just before the session's first mark.
   */
  lemma {:induction false} EveryRunOpensSessions(cfg: Config, states: seq<Ledger>, ops: seq<Op>, j: nat)
    requires Run(cfg, states, ops) && j < |states|
    ensures states[j].session.None? ==>
              states[j].lastEquity == cfg.capital && forall m :: 0 <= m < j ==> !ops[m].Mark?
    ensures states[j].session.Some? ==>
              var d := states[j].session.value;
              || (InSession(ops, 0, j, d) && states[j].lastEquity == cfg.capital)
              || exists k :: 0 <= k < j && Rolled(cfg, states, ops, k, j, d)
  {
    hide Inv, After, NewLedger, AccountOf, Rolled;
    if j == 0 {
      NewSession(cfg);
    } else {
      EveryRunOpensSessions(cfg, states, ops, j - 1);
      EveryRunKeeps(cfg, states, ops, j - 1, j - 1);
      AfterSession(cfg, states[j - 1], ops[j - 1]);
      var b, op := states[j - 1], ops[j - 1];
      if op.Mark? && b.session.Some? && op.session != b.session.value {
        assert Rolled(cfg, states, ops, j - 1, j, op.session) by { RollsNow(cfg, states, ops, j); }
      } else if b.session.Some? && !(InSession(ops, 0, j - 1, b.session.value) && b.lastEquity == cfg.capital) {
        var k :| 0 <= k < j - 1 && Rolled(cfg, states, ops, k, j - 1, b.session.value);
        StaysRolled(cfg, states, ops, k, j);
      }
    }
  }

  lemma {:induction false} RollsNow(cfg: Config, states: seq<Ledger>, ops: seq<Op>, j: nat)
    requires |states| == |ops| + 1 && 0 < j < |states| && ops[j - 1].Mark?
    requires states[j - 1].session.Some? && states[j - 1].session.value != ops[j - 1].session
    requires states[j].lastEquity == AccountOf(cfg, states[j - 1]).equity
    ensures Rolled(cfg, states, ops, j - 1, j, ops[j - 1].session)
  {
    hide AccountOf;
  }

  lemma {:induction false} StaysRolled(cfg: Config, states: seq<Ledger>, ops: seq<Op>, k: nat, j: nat)
    requires |states| == |ops| + 1 && k + 1 < j < |states| && states[j - 1].session.Some?
    requires Rolled(cfg, states, ops, k, j - 1, states[j - 1].session.value)
    requires ops[j - 1].Mark? ==> ops[j - 1].session == states[j - 1].session.value
    requires states[j].lastEquity == states[j - 1].lastEquity
    ensures Rolled(cfg, states, ops, k, j, states[j - 1].session.value)
  {
    hide AccountOf;
  }

  lemma {:induction false} NewSession(cfg: Config)
    ensures NewLedger(cfg).session == None && NewLedger(cfg).lastEquity == cfg.capital
  {}

  lemma {:induction false} AfterSession(cfg: Config, b: Ledger, op: Op)
    requires Inv(cfg.capital, b) && TicketsKnown(b) && (op.Mark? ==> Later(b, op.at))
    ensures
      var b' := After(cfg, b, op);
      if op.Mark? then
        && b'.session == Some(op.session)
        && b'.lastEquity ==
             if b.session.Some? && b.session.value != op.session then AccountOf(cfg, b).equity else b.lastEquity
      else b'.session == b.session && b'.lastEquity == b.lastEquity
  {
    hide Inv, Later, FillAll, Older, History, Equity, BuyingPower, Without, CancelledAll;
    match op
    case Mark(at, session, bars) =>
      TimedKeeps(cfg.capital, b, at, session);
      InvIncreasing(cfg.capital, b);
      FillAllKeeps(cfg, Timed(b, at, session), b.pending, bars, at);
    case Submit(r) =>
    case Cancel(id) =>
    case CancelAll => CancelAllKeeps(cfg.capital, b, b.pending);
  }

  // ----------------------------------------------------------- cost basis

  /**
   * Average cost, in numbers: a fill that opens or crosses carries its own price, one that adds keeps
   * what the position cost in total, and one that reduces leaves the entry price alone.
   */
  lemma {:induction false} CostBasis(holdings: map<string, Holding>, symbol: string, delta: real, price: real)
    requires delta != 0.0 && (symbol in holdings ==> holdings[symbol].qty != 0.0)
    ensures
      var after := HoldingsAfter(holdings, symbol, delta, price);
      if symbol !in holdings then symbol in after && after[symbol] == Holding(delta, price) else
        var h := holdings[symbol];
        if h.qty + delta == 0.0 then symbol !in after
        else
          && symbol in after && after[symbol].qty == h.qty + delta
          && ((h.qty > 0.0 <==> delta > 0.0) ==>
                after[symbol].avg * after[symbol].qty == h.avg * h.qty + price * delta)
          && (!(h.qty > 0.0 <==> delta > 0.0) ==>
                after[symbol].avg == if (h.qty > 0.0 <==> h.qty + delta > 0.0) then h.avg else price)
  {
    if symbol in holdings && holdings[symbol].qty + delta != 0.0 {
      var h := holdings[symbol];
      SignOfProduct(h.qty, delta);
      SignOfProduct(h.qty, h.qty + delta);
      if h.qty > 0.0 <==> delta > 0.0 {
        AverageKeepsCost(h, delta, price);
      }
    }
  }

  lemma {:induction false} SignOfProduct(a: real, b: real)
    requires a != 0.0 && b != 0.0
    ensures a * b > 0.0 <==> (a > 0.0 <==> b > 0.0)
    ensures a * b < 0.0 <==> !(a > 0.0 <==> b > 0.0)
  {
    if a > 0.0 && b > 0.0 { assert a * b > 0.0; }
    else if a < 0.0 && b < 0.0 { assert a * b == (-a) * (-b) > 0.0; }
    else if a > 0.0 { assert a * b == -(a * (-b)) < 0.0; }
    else { assert a * b == -((-a) * b) < 0.0; }
  }

  lemma {:induction false} AverageKeepsCost(h: Holding, delta: real, price: real)
    requires h.qty != 0.0 && delta != 0.0 && (h.qty > 0.0 <==> delta > 0.0)
    ensures h.qty + delta != 0.0
    ensures Average(h, delta, price) * (h.qty + delta) == h.avg * h.qty + price * delta
  {
    var total := if h.qty > 0.0 then h.avg * h.qty + price * delta else h.avg * -h.qty + price * -delta;
    var size := if h.qty > 0.0 then h.qty + delta else -(h.qty + delta);
    assert Average(h, delta, price) == total / size;
    assert total / size * size == total;
    if h.qty < 0.0 {
      assert h.avg * -h.qty == -(h.avg * h.qty) && price * -delta == -(price * delta);
      assert total / size * (h.qty + delta) == -(total / size * size);
    }
  }
}
