/** What every replay keeps, whatever the model predicts or raises. */
module ReplayLaws {
  import opened Wrappers
  import opened Trading
  import opened Session
  import opened Risk
  import opened Broker
  import opened BrokerLaws
  import opened RoundTripLaws
  import opened Replay

  // ------------------------------------------------------------ invariant

  predicate SameIdentity(a: Order, b: Order) {
    a.id == b.id && a.symbol == b.symbol && a.side == b.side && a.qty == b.qty && a.submittedAt == b.submittedAt
  }

  /** Each order has its row; a terminal row is the broker's final word, an open one may lag behind. */
  predicate RowOk(row: Order, o: Order) {
    SameIdentity(row, o) && (if Terminal(row.status) then row == o else row.status == Accepted)
  }

  predicate RowsTrack(rows: seq<Order>, orders: seq<Order>) {
    |rows| == |orders| && forall i :: 0 <= i < |rows| ==> RowOk(rows[i], orders[i])
  }

  predicate OpenRow(rows: seq<Order>, i: nat, symbol: string) {
    i < |rows| && rows[i].symbol == symbol && !Terminal(rows[i].status)
  }

  /** At most one non-terminal order per symbol. */
  predicate OneOpen(rows: seq<Order>) {
    forall i, j :: 0 <= i < j < |rows| && !Terminal(rows[i].status) && !Terminal(rows[j].status) ==>
      rows[i].symbol != rows[j].symbol
  }

  /** The recorded trades are the FILLED rows, each exactly once. */
  predicate FillsExact(fills: seq<Order>, rows: seq<Order>) {
    && (forall i :: 0 <= i < |fills| ==> fills[i].id < |rows| && rows[fills[i].id] == fills[i] && fills[i].status == Filled)
    && (forall i, j :: 0 <= i < j < |fills| ==> fills[i].id != fills[j].id)
    && (forall k :: 0 <= k < |rows| && rows[k].status == Filled ==> Recorded(fills, k))
  }

  predicate DistinctPending(pending: seq<Ticket>) {
    forall t, u :: t in pending && u in pending && t.id != u.id ==> t.request.symbol != u.request.symbol
  }

  /** A pending order of a held symbol closes it exactly; of an unheld one, it opens from flat. */
  predicate ClosesOnly(pending: seq<Ticket>, holdings: map<string, Holding>) {
    forall t :: t in pending && t.request.symbol in holdings ==>
      holdings[t.request.symbol].qty + Signed(t.request.side, t.request.qty) == 0.0
  }

  ghost predicate ReplayInv(env: Env, w: World) {
    && Inv(env.cfg.capital, w.broker)
    && RowsTrack(w.rows, w.broker.orders)
    && OneOpen(w.rows)
    && FillsExact(w.fills, w.rows)
    && ClosesOnly(w.broker.pending, w.broker.holdings)
  }

  /** Every fill has reached the repositories. */
  predicate CaughtUp(w: World) {
    forall i :: 0 <= i < |w.broker.orders| && w.broker.orders[i].status == Filled ==> Recorded(w.fills, i)
  }

  /** One open row per symbol means one pending order per symbol. */
  lemma {:induction false} PendingDistinct(env: Env, w: World)
    requires ReplayInv(env, w)
    ensures DistinctPending(w.broker.pending)
  {
    hide Solvent, FillsExact;
    forall t, u | t in w.broker.pending && u in w.broker.pending && t.id != u.id
      ensures t.request.symbol != u.request.symbol
    {
      TicketRow(env, w, t);
      TicketRow(env, w, u);
    }
  }

  /** A pending order's row is open. */
  lemma {:induction false} TicketRow(env: Env, w: World, t: Ticket)
    requires ReplayInv(env, w) && t in w.broker.pending
    ensures TicketOk(t, w.broker.orders) && OpenRow(w.rows, t.id, t.request.symbol)
  {
    hide Solvent, FillsExact;
    var k :| 0 <= k < |w.broker.pending| && w.broker.pending[k] == t;
    assert TicketOk(w.broker.pending[k], w.broker.orders);
    assert RowOk(w.rows[t.id], w.broker.orders[t.id]);
  }

  // ---------------------------------------------------------------- fills

  /** A fill opens a flat symbol with its whole signed quantity, or takes a held one to exactly flat. */
  predicate CleanFill(before: map<string, Holding>, r: Request, after: map<string, Holding>) {
    if r.symbol in before then after == before - {r.symbol}
    else r.symbol in after && after[r.symbol].qty == Signed(r.side, r.qty) && after - {r.symbol} == before
  }

  /** Every order that this bar fills, fills cleanly. */
  ghost predicate FillsClean(cfg: Config, b: Ledger, tickets: seq<Ticket>, bars: map<string, Bar>, at: int)
    requires forall i :: 0 <= i < |tickets| ==> tickets[i].id < |b.orders|
    decreases |tickets|
  {
    tickets == [] ||
    (var next := FillOne(cfg, b, tickets[0], bars, at);
     (next.orders[tickets[0].id].status == Filled ==> CleanFill(b.holdings, tickets[0].request, next.holdings)) &&
     FillsClean(cfg, next, tickets[1..], bars, at))
  }

  /** A closing order is always affordable: it only reduces exposure. */
  lemma {:induction false} ClosingFills(cfg: Config, b: Ledger, t: Ticket, bar: Bar)
    requires t.request.symbol in b.holdings && bar.open > 0.0
    requires b.holdings[t.request.symbol].qty + Signed(t.request.side, t.request.qty) == 0.0
    ensures Decided(cfg, b, t, bar).Some?
  {
    hide BuyingPower;
  }

  /** Settling one pending order is clean and keeps the rest of the queue clean. */
  lemma {:induction false} SettledClean(b: Ledger, t: Ticket, price: Option<real>, at: int)
    requires t in b.pending && t.id < |b.orders| && Increasing(b.pending)
    requires DistinctPending(b.pending) && ClosesOnly(b.pending, b.holdings)
    ensures
      var b' := Settled(b, t, price, at);
      && (price.Some? ==> CleanFill(b.holdings, t.request, b'.holdings))
      && (price.None? ==> b'.holdings == b.holdings)
      && DistinctPending(b'.pending) && ClosesOnly(b'.pending, b'.holdings)
  {
    hide Worth, Average;
    WithoutIs(b.pending, t.id);
    SameTicket(b.pending, t);
  }

  lemma {:induction false} FillOneClean(cfg: Config, b: Ledger, t: Ticket, bars: map<string, Bar>, at: int)
    requires t in b.pending && PendingExact(b)
    requires DistinctPending(b.pending) && ClosesOnly(b.pending, b.holdings)
    ensures t.id < |b.orders|
    ensures
      var b' := FillOne(cfg, b, t, bars, at);
      && (b'.orders[t.id].status == Filled ==> CleanFill(b.holdings, t.request, b'.holdings))
      && (b'.orders[t.id].status != Filled ==> b'.holdings == b.holdings)
      && (t.request.symbol in bars && t.request.symbol in b.holdings && bars[t.request.symbol].open > 0.0 ==>
            b'.orders[t.id].status == Filled)
      && DistinctPending(b'.pending) && ClosesOnly(b'.pending, b'.holdings)
  {
    hide Affordable, HoldingsAfter, Without, Decided, CleanFill;
    var k :| 0 <= k < |b.pending| && b.pending[k] == t;
    assert TicketOk(b.pending[k], b.orders);
    if t.request.symbol in bars {
      FillOneSettles(cfg, b, t, bars, at);
      SettledClean(b, t, Decided(cfg, b, t, bars[t.request.symbol]), at);
      if t.request.symbol in b.holdings && bars[t.request.symbol].open > 0.0 {
        ClosingFills(cfg, b, t, bars[t.request.symbol]);
      }
    }
  }

  /** What one bar's fills do: all clean; unheld or barless symbols keep what they have. */
  lemma {:induction false} FillAllClean(cfg: Config, b: Ledger, tickets: seq<Ticket>, bars: map<string, Bar>, at: int)
    requires Inv(cfg.capital, b) && b.asOf == Some(at) && Older(b, at)
    requires DistinctPending(b.pending) && ClosesOnly(b.pending, b.holdings)
    requires Increasing(tickets) && forall i :: 0 <= i < |tickets| ==> tickets[i] in b.pending
    ensures forall i :: 0 <= i < |tickets| ==> tickets[i].id < |b.orders|
    ensures FillsClean(cfg, b, tickets, bars, at)
    ensures DistinctPending(FillAll(cfg, b, tickets, bars, at).pending)
    ensures ClosesOnly(FillAll(cfg, b, tickets, bars, at).pending, FillAll(cfg, b, tickets, bars, at).holdings)
    decreases |tickets|
  {
    hide Inv, Older, FillOne, CleanFill, TicketOk, DistinctPending, ClosesOnly;
    TicketsHaveOrders(cfg.capital, b, tickets);
    if tickets != [] {
      assert PendingExact(b) by { InvPending(cfg.capital, b); }
      FillOneKeeps(cfg, b, tickets[0], bars, at);
      FillOneClean(cfg, b, tickets[0], bars, at);
      var b1 := FillOne(cfg, b, tickets[0], bars, at);
      forall i | 0 <= i < |tickets[1..]| ensures tickets[1..][i] in b1.pending {
        assert tickets[1..][i] == tickets[i + 1];
      }
      FillAllClean(cfg, b1, tickets[1..], bars, at);
    }
  }

  lemma {:induction false} InvPending(capital: real, b: Ledger)
    requires Inv(capital, b)
    ensures PendingExact(b) && OrdersOk(b) && Solvent(capital, b)
  {}

  // ----------------------------------------------------------------- mark

  /** Marking keeps the replay invariant, and all of its fills are clean. */
  lemma {:induction false} MarkKeepsReplay(env: Env, w: World, at: int)
    requires ReplayInv(env, w) && Later(w.broker, at)
    ensures TicketsKnown(w.broker)
    ensures ReplayInv(env, MarkBar(env, w, at))
    ensures FillsClean(env.cfg, Timed(w.broker, at, LocalDate(env.zone, at)), w.broker.pending, LatestBars(env, at), at)
  {
    hide FillAll, FillsClean, Inv, OneOpen, FillsExact, LatestBars, Equity, OrdersOk, Solvent;
    MarkKeeps(env.cfg, w.broker, at, LocalDate(env.zone, at), LatestBars(env, at));
    PendingDistinct(env, w);
    InvPending(env.cfg.capital, w.broker);
    TimedKeeps(env.cfg.capital, w.broker, at, LocalDate(env.zone, at));
    FillAllClean(env.cfg, Timed(w.broker, at, LocalDate(env.zone, at)), w.broker.pending, LatestBars(env, at), at);
    HistoryTracks(w.rows, w.broker.orders, MarkBar(env, w, at).broker.orders);
    MarkAppendsNothing(env.cfg, w.broker, at, LocalDate(env.zone, at), LatestBars(env, at));
  }

  lemma {:induction false} MarkAppendsNothing(cfg: Config, b: Ledger, at: int, session: int, bars: map<string, Bar>)
    requires TicketsKnown(b)
    ensures |MarkedToMarket(cfg, b, at, session, bars).orders| == |b.orders|
    ensures MarkedToMarket(cfg, b, at, session, bars) ==
              FillAll(cfg, Timed(b, at, session), b.pending, bars, at).(
                closes := FillAll(cfg, Timed(b, at, session), b.pending, bars, at).closes + Closes(bars))
  {
    hide Equity;
  }

  lemma {:induction false} HistoryTracks(rows: seq<Order>, before: seq<Order>, after: seq<Order>)
    requires RowsTrack(rows, before) && History(before, after) && |after| == |before|
    ensures RowsTrack(rows, after)
  {
    forall i | 0 <= i < |rows| ensures RowOk(rows[i], after[i]) {
      assert RowOk(rows[i], before[i]);
    }
  }

  // ------------------------------------------------------------ reconcile

  /** Issue numbers are positions, and an order that is not terminal is ACCEPTED. */
  predicate Decisive(orders: seq<Order>) {
    forall i :: 0 <= i < |orders| ==> orders[i].id == i && (orders[i].status == Accepted || Terminal(orders[i].status))
  }

  lemma {:induction false} ReconcileOneKeeps(w: World, id: nat)
    requires RowsTrack(w.rows, w.broker.orders) && Decisive(w.broker.orders) && FillsExact(w.fills, w.rows)
    requires id < |w.rows| && !Terminal(w.rows[id].status)
    ensures RowsTrack(ReconcileOne(w, id).rows, w.broker.orders)
    ensures FillsExact(ReconcileOne(w, id).fills, ReconcileOne(w, id).rows)
    ensures ReconcileOne(w, id).rows == w.rows[id := w.broker.orders[id]]
  {
    hide FillsExact;
    var r := ReconcileOne(w, id);
    assert RowOk(w.rows[id], w.broker.orders[id]);
    forall i | 0 <= i < |r.rows| ensures RowOk(r.rows[i], w.broker.orders[i]) {
      assert RowOk(w.rows[i], w.broker.orders[i]);
    }
    FillsFollow(w.fills, w.rows, id, w.broker.orders[id]);
  }

  /** A row that turns FILLED brings its trade with it. */
  lemma {:induction false} FillsFollow(fills: seq<Order>, rows: seq<Order>, id: nat, o: Order)
    requires FillsExact(fills, rows) && id < |rows| && !Terminal(rows[id].status) && o.id == id
    ensures FillsExact(if o.status == Filled && !Recorded(fills, id) then fills + [o] else fills, rows[id := o])
  {
    hide Recorded;
    var more, changed := if o.status == Filled && !Recorded(fills, id) then fills + [o] else fills, rows[id := o];
    assert forall i :: 0 <= i < |fills| ==> fills[i].id != id;
    RecordedMore(fills, o);
    assert more == fills || more == fills + [o];
    forall k | 0 <= k < |changed| && changed[k].status == Filled ensures Recorded(more, k) {
      if k != id {
        assert Recorded(fills, k);
      }
    }
  }

  lemma {:induction false} RecordedMore(fills: seq<Order>, o: Order)
    ensures Recorded(fills + [o], o.id) && forall k :: Recorded(fills, k) ==> Recorded(fills + [o], k)
  {
    assert (fills + [o])[|fills|] == o;
    forall k | Recorded(fills, k) ensures Recorded(fills + [o], k) {
      var i :| 0 <= i < |fills| && fills[i].id == k;
      assert (fills + [o])[i].id == k;
    }
  }

  lemma {:induction false} ReconcileIdsKeeps(w: World, ids: seq<nat>)
    requires RowsTrack(w.rows, w.broker.orders) && Decisive(w.broker.orders) && FillsExact(w.fills, w.rows)
    requires forall i :: 0 <= i < |ids| ==> ids[i] < |w.rows| && !Terminal(w.rows[ids[i]].status)
    requires forall i, j :: 0 <= i < j < |ids| ==> ids[i] < ids[j]
    ensures RowsTrack(ReconcileIds(w, ids).rows, w.broker.orders)
    ensures FillsExact(ReconcileIds(w, ids).fills, ReconcileIds(w, ids).rows)
    ensures forall k :: 0 <= k < |w.rows| ==>
              ReconcileIds(w, ids).rows[k] == if k in ids then w.broker.orders[k] else w.rows[k]
    decreases |ids|
  {
    hide FillsExact, RowsTrack, Decisive;
    if ids != [] {
      RowsTrackLength(w.rows, w.broker.orders);
      ReconcileOneKeeps(w, ids[0]);
      assert forall i :: 0 <= i < |ids[1..]| ==> ids[1..][i] == ids[i + 1];
      ReconcileIdsKeeps(ReconcileOne(w, ids[0]), ids[1..]);
      assert forall k :: k in ids <==> k == ids[0] || k in ids[1..];
    }
  }

  lemma {:induction false} RowsTrackLength(rows: seq<Order>, orders: seq<Order>)
    requires RowsTrack(rows, orders)
    ensures |rows| == |orders|
  {}

  /** After reconciling, the order repository equals the broker and every fill is recorded. */
  lemma {:induction false} ReconcileKeepsReplay(env: Env, w: World)
    requires ReplayInv(env, w)
    ensures ReplayInv(env, Reconciled(w)) && CaughtUp(Reconciled(w))
    ensures Reconciled(w).rows == w.broker.orders
  {
    hide Inv, ClosesOnly, ReconcileIds;
    assert Decisive(w.broker.orders) by { InvDecisive(env.cfg.capital, w.broker); }
    ReconcileIdsKeeps(w, OpenIds(w.rows));
    var r := Reconciled(w);
    forall k | 0 <= k < |w.rows| ensures r.rows[k] == w.broker.orders[k] {
      assert RowOk(w.rows[k], w.broker.orders[k]);
    }
    forall i, j | 0 <= i < j < |r.rows| && !Terminal(r.rows[i].status) && !Terminal(r.rows[j].status)
      ensures r.rows[i].symbol != r.rows[j].symbol
    {
      assert RowOk(w.rows[i], w.broker.orders[i]) && RowOk(w.rows[j], w.broker.orders[j]);
    }
  }

  lemma {:induction false} InvDecisive(capital: real, b: Ledger)
    requires Inv(capital, b)
    ensures Decisive(b.orders)
  {
    hide Solvent, PendingExact;
    forall i | 0 <= i < |b.orders|
      ensures b.orders[i].id == i && (b.orders[i].status == Accepted || Terminal(b.orders[i].status))
    {
      assert OrderOk(b.orders[i], i, b.asOf);
    }
  }

  // -------------------------------------------------------------- process

  predicate AccountMatches(a: Account, b: Ledger) {
    && a.positions.Keys == b.holdings.Keys
    && forall s :: s in b.holdings ==> a.positions[s].qty == b.holdings[s].qty
  }

  lemma {:induction false} OpenRowsExact(rows: seq<Order>, symbol: string)
    ensures OpenRows(rows, symbol) == [] ==> forall i :: 0 <= i < |rows| && rows[i].symbol == symbol ==> Terminal(rows[i].status)
    ensures forall o :: o in OpenRows(rows, symbol) ==> o in rows && o.symbol == symbol && !Terminal(o.status)
  {
    if rows != [] {
      OpenRowsExact(rows[..|rows| - 1], symbol);
      assert rows == rows[..|rows| - 1] + [rows[|rows| - 1]];
    }
  }

  /** No order becomes FILLED. */
  predicate NoNewFills(before: seq<Order>, after: seq<Order>) {
    |before| == |after| && forall i :: 0 <= i < |after| && after[i].status == Filled ==> before[i].status == Filled
  }

  lemma {:induction false} ClearKeeps(capital: real, b: Ledger, open: seq<Order>, side: Side)
    requires Inv(capital, b)
    ensures
      var b' := ClearConflicts(b, open, side);
      && Inv(capital, b') && History(b.orders, b'.orders) && NoNewFills(b.orders, b'.orders)
      && (forall t :: t in b'.pending ==> t in b.pending)
      && b' == b.(orders := b'.orders, pending := b'.pending)
    decreases |open|
  {
    hide Inv;
    if open != [] {
      if open[0].side != side && open[0].id < |b.orders| {
        CancelKeeps(capital, b, open[0].id);
        var b1 := Cancelled(b, open[0].id).value;
        ClearKeeps(capital, b1, open[1..], side);
        HistoryTransitive(b.orders, b1.orders, ClearConflicts(b1, open[1..], side).orders);
      } else {
        ClearKeeps(capital, b, open[1..], side);
      }
    }
  }

  lemma {:induction false} ClearKeepsReplay(env: Env, w: World, open: seq<Order>, side: Side)
    requires ReplayInv(env, w) && CaughtUp(w)
    ensures ReplayInv(env, w.(broker := ClearConflicts(w.broker, open, side)))
    ensures CaughtUp(w.(broker := ClearConflicts(w.broker, open, side)))
  {
    hide Inv, OneOpen, FillsExact;
    ClearKeeps(env.cfg.capital, w.broker, open, side);
    HistoryTracks(w.rows, w.broker.orders, ClearConflicts(w.broker, open, side).orders);
  }

  /** Submitting an order that closes a held symbol exactly, with nothing open for it, keeps it all. */
  lemma {:induction false} SubmitKeepsReplay(env: Env, w: World, r: Request)
    requires ReplayInv(env, w) && CaughtUp(w)
    requires OpenRows(w.rows, r.symbol) == []
    requires r.symbol in w.broker.holdings ==> w.broker.holdings[r.symbol].qty + Signed(r.side, r.qty) == 0.0
    ensures ReplayInv(env, SubmitAndSave(w, r)) && CaughtUp(SubmitAndSave(w, r))
  {
    hide Inv, RowsTrack, OneOpen, FillsExact;
    if Submitted(w.broker, r).Success? {
      var b' := Submitted(w.broker, r).value;
      var o := b'.orders[|w.broker.orders|];
      SubmitKeeps(env.cfg.capital, w.broker, r);
      OpenRowsExact(w.rows, r.symbol);
      AppendRow(w.rows, w.broker.orders, w.fills, o);
    }
  }

  lemma {:induction false} AppendRow(rows: seq<Order>, orders: seq<Order>, fills: seq<Order>, o: Order)
    requires RowsTrack(rows, orders) && OneOpen(rows) && FillsExact(fills, rows)
    requires o.status == Accepted && forall i :: 0 <= i < |rows| && rows[i].symbol == o.symbol ==> Terminal(rows[i].status)
    ensures RowsTrack(rows + [o], orders + [o]) && OneOpen(rows + [o]) && FillsExact(fills, rows + [o])
  {
    forall i | 0 <= i < |rows + [o]| ensures RowOk((rows + [o])[i], (orders + [o])[i]) {
      if i < |rows| { assert RowOk(rows[i], orders[i]); }
    }
  }

  lemma {:induction false} ProcessKeepsReplay(env: Env, w: World, symbol: string, a: Account, asOf: int, n: nat)
    requires ReplayInv(env, w) && CaughtUp(w) && ValidRisk(env.risk) && AccountMatches(a, w.broker)
    ensures ReplayInv(env, Process(env, w, symbol, a, asOf, n)) && CaughtUp(Process(env, w, symbol, a, asOf, n))
    ensures
      var b' := Process(env, w, symbol, a, asOf, n).broker;
      b' == w.broker.(orders := b'.orders, pending := b'.pending)
  {
    hide ReplayInv, CaughtUp, Assess, Generate, LastBar, QuoteOf;
    var last := LastBar(env, symbol, asOf);
    var position := if symbol in a.positions then Some(a.positions[symbol].qty) else None;
    var signal := Generate(env, w.attempts, symbol, last, asOf, position, env.oracle(n, symbol));
    var w1 := w.(attempts := signal.attempts);
    AttemptsKeep(env, w, signal.attempts);
    if !(signal.target.Failure? || signal.target.value == Unchanged || last.None?) {
      var verdict := Assess(env.risk, symbol, signal.target.value, a, QuoteOf(env, last.value));
      if verdict.Approved? {
        ApprovalIsSafe(env.risk, symbol, signal.target.value, a, QuoteOf(env, last.value));
        var open := OpenRows(w1.rows, symbol);
        if open != [] {
          ClearKeepsReplay(env, w1, open, verdict.side);
          ClearTouches(w1.broker, open, verdict.side);
        } else {
          SubmitKeepsReplay(env, w1, Request(symbol, verdict.side, verdict.qty));
        }
      }
    }
  }

  lemma {:induction false} ClearTouches(b: Ledger, open: seq<Order>, side: Side)
    ensures ClearConflicts(b, open, side) ==
              b.(orders := ClearConflicts(b, open, side).orders, pending := ClearConflicts(b, open, side).pending)
    decreases |open|
  {
    if open != [] {
      var next := if open[0].side != side && Cancelled(b, open[0].id).Success? then Cancelled(b, open[0].id).value else b;
      ClearTouches(next, open[1..], side);
    }
  }

  lemma {:induction false} AttemptsKeep(env: Env, w: World, attempts: map<string, int>)
    requires ReplayInv(env, w) && CaughtUp(w)
    ensures ReplayInv(env, w.(attempts := attempts)) && CaughtUp(w.(attempts := attempts))
  {}

  lemma {:induction false} ProcessAllKeepsReplay(
    env: Env, w: World, symbols: seq<string>, a: Account, asOf: int, n: nat)
    requires ReplayInv(env, w) && CaughtUp(w) && ValidRisk(env.risk) && AccountMatches(a, w.broker)
    ensures ReplayInv(env, ProcessAll(env, w, symbols, a, asOf, n)) && CaughtUp(ProcessAll(env, w, symbols, a, asOf, n))
    ensures
      var b' := ProcessAll(env, w, symbols, a, asOf, n).broker;
      b' == w.broker.(orders := b'.orders, pending := b'.pending)
    decreases |symbols|
  {
    hide ReplayInv, CaughtUp, Process;
    if symbols != [] {
      ProcessKeepsReplay(env, w, symbols[0], a, asOf, n);
      ProcessAllKeepsReplay(env, Process(env, w, symbols[0], a, asOf, n), symbols[1..], a, asOf, n);
    }
  }

  lemma {:induction false} TickKeepsReplay(env: Env, w: World, asOf: int, n: nat)
    requires ReplayInv(env, w) && ValidRisk(env.risk)
    ensures ReplayInv(env, Tick(env, w, asOf, n)) && CaughtUp(Tick(env, w, asOf, n))
    ensures
      var b' := Tick(env, w, asOf, n).broker;
      b' == w.broker.(orders := b'.orders, pending := b'.pending)
  {
    hide ReplayInv, CaughtUp, ProcessAll, Reconciled, Equity, BuyingPower;
    ReconcileKeepsReplay(env, w);
    ReconcileTouches(w);
    ProcessAllKeepsReplay(env, Reconciled(w), env.symbols, AccountOf(env.cfg, w.broker), asOf, n);
  }

  lemma {:induction false} ReconcileTouches(w: World)
    ensures Reconciled(w).broker == w.broker && Reconciled(w).attempts == w.attempts
  {}

  // ----------------------------------------------------------------- runs

  /** Bar times strictly increase and lie in regular sessions. */
  predicate ValidGrid(env: Env, grid: seq<int>) {
    && (forall i, j :: 0 <= i < j < |grid| ==> grid[i] < grid[j])
    && (forall i :: 0 <= i < |grid| ==> Regular(env.zone, grid[i]))
  }

  /** `worlds[i]` is the state after the first `i` bars. */
  ghost predicate IsReplay(env: Env, grid: seq<int>, worlds: seq<World>) {
    && ValidGrid(env, grid) && ValidRisk(env.risk)
    && |worlds| == |grid| + 1 && worlds[0] == Start(env)
    && forall i :: 0 <= i < |grid| ==>
         TicketsKnown(worlds[i].broker) && worlds[i + 1] == Tick(env, MarkBar(env, worlds[i], grid[i]), grid[i], i)
  }

  lemma {:induction false} StartKeepsReplay(env: Env)
    ensures ReplayInv(env, Start(env)) && CaughtUp(Start(env)) && Start(env).broker.asOf == None
  {
    NewKeeps(env.cfg);
  }

  /**
   * Safety over every replay: after any number of bars each symbol has at most one open order, the
   * repositories agree with the broker, every recorded trade is a distinct fill, and everything
   * pending either opens from flat or closes exactly what is held.
   */
  lemma {:induction false} EveryReplayKeeps(env: Env, grid: seq<int>, worlds: seq<World>, i: nat)
    requires IsReplay(env, grid, worlds) && i < |worlds|
    ensures ReplayInv(env, worlds[i]) && CaughtUp(worlds[i])
    ensures worlds[i].broker.asOf == if i == 0 then None else Some(grid[i - 1])
  {
    hide ReplayInv, CaughtUp, Tick, MarkBar, ValidGrid, Start, Later;
    if i == 0 {
      StartKeepsReplay(env);
    } else {
      EveryReplayKeeps(env, grid, worlds, i - 1);
      GridLater(env, grid, worlds[i - 1], i - 1);
      BarKeepsReplay(env, worlds[i - 1], grid[i - 1], i - 1);
    }
  }

  lemma {:induction false} GridLater(env: Env, grid: seq<int>, w: World, i: nat)
    requires ValidGrid(env, grid) && i < |grid|
    requires w.broker.asOf == if i == 0 then None else Some(grid[i - 1])
    ensures Later(w.broker, grid[i])
  {}

  /** One bar of the replay: mark to market, then tick. */
  lemma {:induction false} BarKeepsReplay(env: Env, w: World, at: int, n: nat)
    requires ReplayInv(env, w) && Later(w.broker, at) && ValidRisk(env.risk)
    ensures TicketsKnown(w.broker)
    ensures
      var next := Tick(env, MarkBar(env, w, at), at, n);
      ReplayInv(env, next) && CaughtUp(next) && next.broker.asOf == Some(at)
  {
    hide ReplayInv, CaughtUp, Tick, MarkedToMarket, Later, LatestBars;
    MarkKeepsReplay(env, w, at);
    TickKeepsReplay(env, MarkBar(env, w, at), at, n);
    assert Inv(env.cfg.capital, w.broker) by { ReplayHasInv(env, w); }
    MarkKeeps(env.cfg, w.broker, at, LocalDate(env.zone, at), LatestBars(env, at));
  }

  lemma {:induction false} ReplayHasInv(env: Env, w: World)
    requires ReplayInv(env, w)
    ensures Inv(env.cfg.capital, w.broker)
  {}

  /**
   * No replay ever pyramids or crosses: each order a bar fills opens a flat symbol with its whole
   * quantity or takes a held one to exactly flat, so averaging and crossing are unreachable.
   */
  lemma {:induction false} EveryFillIsClean(env: Env, grid: seq<int>, worlds: seq<World>, i: nat)
    requires IsReplay(env, grid, worlds) && i < |grid|
    ensures FillsClean(env.cfg, Timed(worlds[i].broker, grid[i], LocalDate(env.zone, grid[i])), worlds[i].broker.pending,
                       LatestBars(env, grid[i]), grid[i])
  {
    hide FillsClean, ReplayInv, Tick, MarkBar;
    EveryReplayKeeps(env, grid, worlds, i);
    MarkKeepsReplay(env, worlds[i], grid[i]);
  }

  /** After `run`: no order is open, rows equal orders, and each FILLED order has exactly one trade. */
  lemma {:induction false} FinishSettles(env: Env, w: World)
    requires ReplayInv(env, w)
    ensures TicketsKnown(w.broker)
    ensures
      var f := Finish(w);
      && ReplayInv(env, f) && CaughtUp(f)
      && f.broker.pending == [] && f.rows == f.broker.orders
      && (forall i :: 0 <= i < |f.rows| ==> Terminal(f.rows[i].status))
      && f.broker == w.broker.(orders := f.broker.orders, pending := f.broker.pending)
  {
    hide Reconciled, OneOpen, FillsExact, Solvent;
    InvPending(env.cfg.capital, w.broker);
    CancelPendingEmpties(env.cfg.capital, w.broker);
    CancelAllKeeps(env.cfg.capital, w.broker, w.broker.pending);
    CancelAllLength(w.broker, w.broker.pending);
    var cancelled := w.(broker := CancelledAll(w.broker, w.broker.pending));
    HistoryTracks(w.rows, w.broker.orders, cancelled.broker.orders);
    ReconcileKeepsReplay(env, cancelled);
    ReconcileTouches(cancelled);
    InvDecisive(env.cfg.capital, cancelled.broker);
  }

  lemma {:induction false} CancelAllLength(b: Ledger, tickets: seq<Ticket>)
    requires forall i :: 0 <= i < |tickets| ==> tickets[i].id < |b.orders|
    ensures |CancelledAll(b, tickets).orders| == |b.orders|
  {}
}
