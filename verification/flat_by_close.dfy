/** Every session ends flat: what the mandatory flatten achieves over whole replays. */
module FlatByClose {
  import opened Wrappers
  import opened Trading
  import opened Session
  import opened DecisionPolicy
  import opened Risk
  import opened Broker
  import opened BarSeries
  import opened BrokerLaws
  import opened Replay
  import opened ReplayLaws

  /** The last minutes of a session, in which positions must be closed. */
  predicate InZone(env: Env, at: int) {
    UntilClose(env.zone, at) <= env.policy.flatten * MINUTE
  }

  predicate PendingOf(pending: seq<Ticket>, symbol: string) {
    exists t :: t in pending && t.request.symbol == symbol
  }

  predicate HeldOrPending(w: World, symbol: string) {
    symbol in w.broker.holdings || PendingOf(w.broker.pending, symbol)
  }

  /** A held symbol has its closing order out, and nothing else is out. */
  predicate Closing(w: World, symbol: string) {
    symbol in w.broker.holdings <==> PendingOf(w.broker.pending, symbol)
  }

  predicate NoEntry(w: World, symbol: string) {
    PendingOf(w.broker.pending, symbol) ==> symbol in w.broker.holdings
  }

  predicate PendsFor(pending: seq<Ticket>, id: nat, symbol: string) {
    exists t :: t in pending && t.id == id && t.request.symbol == symbol
  }

  /** An open row of the symbol is really pending. */
  predicate InStep(w: World, symbol: string) {
    forall k :: 0 <= k < |w.rows| && w.rows[k].symbol == symbol && !Terminal(w.rows[k].status) ==> PendsFor(w.broker.pending, k, symbol)
  }

  /** Two ledgers hold and await the same for a symbol. */
  ghost predicate SameFor(a: Ledger, b: Ledger, symbol: string) {
    && (symbol in a.holdings <==> symbol in b.holdings)
    && (symbol in a.holdings ==> a.holdings[symbol] == b.holdings[symbol])
    && forall t: Ticket :: t.request.symbol == symbol ==> (t in a.pending <==> t in b.pending)
  }

  // ----------------------------------------------------------------- mark

  predicate Opens(bars: map<string, Bar>, symbol: string) {
    symbol in bars && bars[symbol].open > 0.0
  }

  predicate Awaited(tickets: seq<Ticket>, bars: map<string, Bar>, symbol: string) {
    Opens(bars, symbol) && PendingOf(tickets, symbol)
  }

  lemma {:induction false} FillOneFor(cfg: Config, b: Ledger, t: Ticket, bars: map<string, Bar>, at: int, symbol: string)
    requires t in b.pending && PendingExact(b)
    requires DistinctPending(b.pending) && ClosesOnly(b.pending, b.holdings)
    ensures t.id < |b.orders|
    ensures
      var h := FillOne(cfg, b, t, bars, at).holdings;
      && (t.request.symbol != symbol || !Opens(bars, symbol) ==>
            (symbol in h <==> symbol in b.holdings) && (symbol in h ==> h[symbol] == b.holdings[symbol]))
      && (t.request.symbol == symbol && Opens(bars, symbol) && symbol in b.holdings ==> symbol !in h)
  {
    hide Affordable, HoldingsAfter, Without;
    var k :| 0 <= k < |b.pending| && b.pending[k] == t;
    assert TicketOk(b.pending[k], b.orders);
    FillOneClean(cfg, b, t, bars, at);
    if t.request.symbol in bars {
      FillOneSettles(cfg, b, t, bars, at);
      SettledClean(b, t, Decided(cfg, b, t, bars[t.request.symbol]), at);
    }
  }

  /** Over one bar, a symbol's holding changes only through its own order at a positive open. */
  lemma {:induction false} FillAllFor(
    cfg: Config, b: Ledger, tickets: seq<Ticket>, bars: map<string, Bar>, at: int, symbol: string)
    requires Inv(cfg.capital, b) && b.asOf == Some(at) && Older(b, at)
    requires DistinctPending(b.pending) && ClosesOnly(b.pending, b.holdings)
    requires Increasing(tickets) && forall i :: 0 <= i < |tickets| ==> tickets[i] in b.pending
    ensures forall i :: 0 <= i < |tickets| ==> tickets[i].id < |b.orders|
    ensures
      var h := FillAll(cfg, b, tickets, bars, at).holdings;
      && (!Awaited(tickets, bars, symbol) ==>
            (symbol in h <==> symbol in b.holdings) && (symbol in h ==> h[symbol] == b.holdings[symbol]))
      && (Awaited(tickets, bars, symbol) && symbol in b.holdings ==> symbol !in h)
    decreases |tickets|
  {
    hide Inv, Older, FillOne, TicketOk, DistinctPending, ClosesOnly, Opens;
    TicketsHaveOrders(cfg.capital, b, tickets);
    if tickets != [] {
      var t := tickets[0];
      assert PendingExact(b) by { InvPending(cfg.capital, b); }
      FillOneKeeps(cfg, b, t, bars, at);
      FillOneClean(cfg, b, t, bars, at);
      FillOneFor(cfg, b, t, bars, at, symbol);
      var b1 := FillOne(cfg, b, t, bars, at);
      forall i | 0 <= i < |tickets[1..]| ensures tickets[1..][i] in b1.pending {
        assert tickets[1..][i] == tickets[i + 1];
      }
      FillAllFor(cfg, b1, tickets[1..], bars, at, symbol);
      RestOf(b.pending, tickets, symbol);
    }
  }

  lemma {:induction false} RestOf(pending: seq<Ticket>, tickets: seq<Ticket>, symbol: string)
    requires DistinctPending(pending) && Increasing(tickets) && tickets != []
    requires forall i :: 0 <= i < |tickets| ==> tickets[i] in pending
    ensures PendingOf(tickets, symbol) <==> tickets[0].request.symbol == symbol || PendingOf(tickets[1..], symbol)
    ensures tickets[0].request.symbol == symbol ==> !PendingOf(tickets[1..], symbol)
  {
    assert forall u :: u in tickets <==> u == tickets[0] || u in tickets[1..];
    assert forall u :: u in tickets[1..] ==> tickets[0].id < u.id && u in pending;
    assert tickets[0] in pending;
  }

  /** What marking a bar does to one symbol. */
  lemma {:induction false} MarkFor(env: Env, w: World, at: int, symbol: string)
    requires ReplayInv(env, w) && Later(w.broker, at)
    ensures TicketsKnown(w.broker)
    ensures
      var bars, m := LatestBars(env, at), MarkBar(env, w, at).broker;
      && (symbol in bars ==> !PendingOf(m.pending, symbol) && symbol in m.closes)
      && (symbol !in bars ==> SameFor(w.broker, m, symbol))
      && (!Awaited(w.broker.pending, bars, symbol) ==> (symbol in m.holdings <==> symbol in w.broker.holdings))
      && (Awaited(w.broker.pending, bars, symbol) && symbol in w.broker.holdings ==> symbol !in m.holdings)
      && (symbol in w.broker.closes ==> symbol in m.closes)
  {
    hide FillAll, FillsClean, Inv, OneOpen, FillsExact, LatestBars, Equity, RowsTrack, OrdersOk, Solvent;
    var bars, date := LatestBars(env, at), LocalDate(env.zone, at);
    MarkKeeps(env.cfg, w.broker, at, date, bars);
    PendingDistinct(env, w);
    InvPending(env.cfg.capital, w.broker);
    TimedKeeps(env.cfg.capital, w.broker, at, date);
    FillAllFor(env.cfg, Timed(w.broker, at, date), w.broker.pending, bars, at, symbol);
    MarkAppendsNothing(env.cfg, w.broker, at, date, bars);
  }

  // ----------------------------------------------------------------- tick

  lemma {:induction false} OpenRowsPend(w: World, symbol: string)
    requires InStep(w, symbol)
    requires forall i :: 0 <= i < |w.rows| ==> w.rows[i].id == i
    ensures forall o :: o in OpenRows(w.rows, symbol) ==>
              o.id < |w.rows| && o == w.rows[o.id] && o.symbol == symbol && PendsFor(w.broker.pending, o.id, symbol)
  {
    OpenRowsExact(w.rows, symbol);
    forall o | o in OpenRows(w.rows, symbol)
      ensures o.id < |w.rows| && o == w.rows[o.id] && o.symbol == symbol && PendsFor(w.broker.pending, o.id, symbol)
    {
      var i :| 0 <= i < |w.rows| && w.rows[i] == o;
      assert w.rows[i].id == i;
    }
  }

  lemma {:induction false} RowIds(env: Env, w: World)
    requires ReplayInv(env, w)
    ensures forall i :: 0 <= i < |w.rows| ==> w.rows[i].id == i
    ensures |w.rows| == |w.broker.orders|
  {
    hide Inv, FillsExact, OneOpen;
    InvDecisive(env.cfg.capital, w.broker);
    forall i | 0 <= i < |w.rows| ensures w.rows[i].id == i {
      assert RowOk(w.rows[i], w.broker.orders[i]);
    }
  }

  /** Orders already on the wanted side are left alone. */
  lemma {:induction false} NothingToClear(b: Ledger, open: seq<Order>, side: Side)
    requires forall o :: o in open ==> o.side == side
    ensures ClearConflicts(b, open, side) == b
    decreases |open|
  {
    if open != [] {
      assert open[0] in open;
      NothingToClear(b, open[1..], side);
    }
  }

  /** Cancelling orders of another symbol leaves this one alone. */
  lemma {:induction false} ClearOthers(env: Env, b: Ledger, open: seq<Order>, side: Side, symbol: string)
    requires Inv(env.cfg.capital, b)
    requires forall o :: o in open ==> o.symbol != symbol && (o.id < |b.orders| ==> b.orders[o.id].symbol == o.symbol)
    ensures SameFor(b, ClearConflicts(b, open, side), symbol)
    decreases |open|
  {
    hide Inv, SameFor, Cancelled;
    if open != [] {
      assert open[0] in open;
      var cancelled := Cancelled(b, open[0].id);
      if open[0].side != side && cancelled.Success? {
        CancelKnown(b, open[0].id);
        CancelKeeps(env.cfg.capital, b, open[0].id);
        CancelOther(env, b, open[0].id, symbol);
        var b1 := cancelled.value;
        ClearOthers(env, b1, open[1..], side, symbol);
        SameForTransitive(b, b1, ClearConflicts(b1, open[1..], side), symbol);
      } else {
        ClearOthers(env, b, open[1..], side, symbol);
      }
    } else {
      SameForItself(b, symbol);
    }
  }

  lemma {:induction false} CancelKnown(b: Ledger, id: nat)
    ensures Cancelled(b, id).Success? <==> id < |b.orders|
  {}

  lemma {:induction false} SameForItself(b: Ledger, symbol: string)
    ensures SameFor(b, b, symbol)
  {}

  lemma {:induction false} SameForTransitive(a: Ledger, b: Ledger, c: Ledger, symbol: string)
    requires SameFor(a, b, symbol) && SameFor(b, c, symbol)
    ensures SameFor(a, c, symbol)
  {}

  lemma {:induction false} CancelKeepsSymbols(b: Ledger, id: nat)
    requires id < |b.orders|
    ensures
      var orders := Cancelled(b, id).value.orders;
      |orders| == |b.orders| && forall i :: 0 <= i < |b.orders| ==> orders[i].symbol == b.orders[i].symbol
  {
    hide Without;
  }

  /** Cancelling another symbol's order leaves this symbol alone, and keeps every order's symbol. */
  lemma {:induction false} CancelOther(env: Env, b: Ledger, id: nat, symbol: string)
    requires Inv(env.cfg.capital, b) && id < |b.orders| && b.orders[id].symbol != symbol
    requires Cancelled(b, id).Success?
    ensures SameFor(b, Cancelled(b, id).value, symbol)
    ensures
      var b1 := Cancelled(b, id).value;
      |b1.orders| == |b.orders| && forall i :: 0 <= i < |b.orders| ==> b1.orders[i].symbol == b.orders[i].symbol
  {
    hide Inv, Cancelled, History;
    CancelKeeps(env.cfg.capital, b, id);
    CancelKeepsSymbols(b, id);
    InvPending(env.cfg.capital, b);
    forall t | t in b.pending && t.id == id ensures t.request.symbol != symbol {
      var k :| 0 <= k < |b.pending| && b.pending[k] == t;
      assert TicketOk(b.pending[k], b.orders);
    }
  }

  /** Processing another symbol leaves this one alone. */
  lemma {:induction false} ProcessOther(env: Env, w: World, other: string, a: Account, asOf: int, n: nat, symbol: string)
    requires ReplayInv(env, w) && ValidRisk(env.risk) && other != symbol
    ensures
      var w' := Process(env, w, other, a, asOf, n);
      SameFor(w.broker, w'.broker, symbol) && (InStep(w, symbol) ==> InStep(w', symbol))
  {
    hide ReplayInv, Assess, Generate, LastBar, QuoteOf, Inv, SameFor, InStep, OpenRows, ClearConflicts, SubmitAndSave;
    SameForItself(w.broker, symbol);
    var last := LastBar(env, other, asOf);
    var position := if other in a.positions then Some(a.positions[other].qty) else None;
    var signal := Generate(env, w.attempts, other, last, asOf, position, env.oracle(n, other));
    var w1 := w.(attempts := signal.attempts);
    AttemptsAside(w, signal.attempts, symbol);
    if signal.target.Success? && last.Some? && signal.target.value != Unchanged {
      var verdict := Assess(env.risk, other, signal.target.value, a, QuoteOf(env, last.value));
      var open := OpenRows(w.rows, other);
      if verdict.Approved? && open != [] {
        ReplayHasInv(env, w);
        RowsOf(env, w, other);
        ClearOthers(env, w.broker, open, verdict.side, symbol);
        StepFollows(w1, w.broker, ClearConflicts(w.broker, open, verdict.side), symbol);
      } else if verdict.Approved? {
        SubmitOther(w1, Request(other, verdict.side, verdict.qty), symbol);
      }
    }
  }

  lemma {:induction false} AttemptsAside(w: World, attempts: map<string, int>, symbol: string)
    ensures InStep(w, symbol) <==> InStep(w.(attempts := attempts), symbol)
  {}

  lemma {:induction false} RowsOf(env: Env, w: World, symbol: string)
    requires ReplayInv(env, w)
    ensures forall o :: o in OpenRows(w.rows, symbol) ==>
              o.symbol == symbol && (o.id < |w.broker.orders| ==> w.broker.orders[o.id].symbol == symbol)
  {
    hide Inv, FillsExact, OneOpen;
    RowIds(env, w);
    OpenRowsExact(w.rows, symbol);
    forall o | o in OpenRows(w.rows, symbol) && o.id < |w.broker.orders| ensures w.broker.orders[o.id].symbol == symbol {
      var i :| 0 <= i < |w.rows| && w.rows[i] == o;
      assert RowOk(w.rows[i], w.broker.orders[i]);
    }
  }

  /** The tickets of a symbol are the same, so its rows stay in step. */
  lemma {:induction false} StepFollows(w: World, b: Ledger, b': Ledger, symbol: string)
    requires w.broker == b && SameFor(b, b', symbol)
    ensures InStep(w, symbol) ==> InStep(w.(broker := b'), symbol)
  {
    if InStep(w, symbol) {
      forall k | 0 <= k < |w.rows| && w.rows[k].symbol == symbol && !Terminal(w.rows[k].status)
        ensures PendsFor(b'.pending, k, symbol)
      {
        assert PendsFor(b.pending, k, symbol);
      }
    }
  }

  lemma {:induction false} SubmitOther(w: World, r: Request, symbol: string)
    requires r.symbol != symbol
    ensures SameFor(w.broker, SubmitAndSave(w, r).broker, symbol)
    ensures InStep(w, symbol) ==> InStep(SubmitAndSave(w, r), symbol)
  {}

  /** With the symbol's newest bar in the zone: a holding gets its closing order, nothing else is sent. */
  lemma {:induction false} ProcessSelf(env: Env, w: World, symbol: string, a: Account, asOf: int, n: nat)
    requires ReplayInv(env, w) && ValidRisk(env.risk) && ValidPolicy(env.policy) && AccountMatches(a, w.broker)
    requires LastBar(env, symbol, asOf).Some? && InZone(env, LastBar(env, symbol, asOf).value.at)
    requires NoEntry(w, symbol) && InStep(w, symbol)
    requires symbol in w.broker.closes && w.broker.asOf.Some?
    ensures
      var w' := Process(env, w, symbol, a, asOf, n);
      Closing(w', symbol) && InStep(w', symbol)
  {
    hide ReplayInv, Assess, LastBar, QuoteOf, Decide, ClearConflicts, Submitted, AccountMatches;
    var last := LastBar(env, symbol, asOf);
    var position := if symbol in a.positions then Some(a.positions[symbol].qty) else None;
    ZoneSignal(env, w.attempts, symbol, last.value, asOf, position, env.oracle(n, symbol));
    assert symbol in a.positions <==> symbol in w.broker.holdings by { Positions(a, w.broker, symbol); }
    if symbol in w.broker.holdings {
      CloseSelf(env, w, symbol, a, asOf, n);
    } else {
      FlatRefused(env.risk, symbol, a, QuoteOf(env, last.value));
    }
  }

  lemma {:induction false} Positions(a: Account, b: Ledger, symbol: string)
    requires AccountMatches(a, b)
    ensures symbol in a.positions <==> symbol in b.holdings
    ensures symbol in b.holdings ==> a.positions[symbol].qty == b.holdings[symbol].qty
  {}

  /** In the zone the generator says FLAT for a holding, whatever the model does, and never asks for exposure. */
  lemma {:induction false} ZoneSignal(
    env: Env, attempts: map<string, int>, symbol: string, last: Bar, asOf: int, position: Option<real>, outcome: Outcome)
    requires ValidPolicy(env.policy) && InZone(env, last.at)
    ensures
      var target := Generate(env, attempts, symbol, Some(last), asOf, position, outcome).target;
      && (position.Some? ==> target == Success(Flat))
      && (target.Success? ==> target.value == Flat || target.value == Unchanged)
  {
    hide Decide, UntilClose, SinceOpen;
    if outcome.Predicted? {
      FlatInFlattenZone(env.policy, outcome.prediction, position, SinceOpen(env.zone, last.at), UntilClose(env.zone, last.at));
    }
  }

  lemma {:induction false} FlatRefused(c: RiskConfig, symbol: string, a: Account, quote: Quote)
    requires ValidRisk(c) && symbol !in a.positions
    ensures Assess(c, symbol, Flat, a, quote).Refused?
  {}

  lemma {:induction false} FlatApproved(c: RiskConfig, symbol: string, a: Account, quote: Quote)
    requires ValidRisk(c) && symbol in a.positions && a.positions[symbol].qty != 0.0
    ensures
      var v := Assess(c, symbol, Flat, a, quote);
      v.Approved? && v.qty > 0.0 && a.positions[symbol].qty + Signed(v.side, v.qty) == 0.0
  {}

  lemma {:induction false} HeldNonzero(env: Env, w: World, symbol: string)
    requires ReplayInv(env, w) && symbol in w.broker.holdings
    ensures w.broker.holdings[symbol].qty != 0.0
  {}

  lemma {:induction false} CloseSelf(env: Env, w: World, symbol: string, a: Account, asOf: int, n: nat)
    requires ReplayInv(env, w) && ValidRisk(env.risk) && ValidPolicy(env.policy) && AccountMatches(a, w.broker)
    requires LastBar(env, symbol, asOf).Some? && InZone(env, LastBar(env, symbol, asOf).value.at)
    requires symbol in w.broker.holdings && InStep(w, symbol)
    requires symbol in w.broker.closes && w.broker.asOf.Some?
    ensures
      var w' := Process(env, w, symbol, a, asOf, n);
      Closing(w', symbol) && InStep(w', symbol)
  {
    hide ReplayInv, Assess, LastBar, QuoteOf, Decide, ClearConflicts, Generate, AccountMatches;
    var last := LastBar(env, symbol, asOf);
    Positions(a, w.broker, symbol);
    HeldNonzero(env, w, symbol);
    var qty := a.positions[symbol].qty;
    ZoneSignal(env, w.attempts, symbol, last.value, asOf, Some(qty), env.oracle(n, symbol));
    FlatApproved(env.risk, symbol, a, QuoteOf(env, last.value));
    var verdict := Assess(env.risk, symbol, Flat, a, QuoteOf(env, last.value));
    var open := OpenRows(w.rows, symbol);
    if open != [] {
      SameSide(env, w, symbol, verdict.side, verdict.qty);
      NothingToClear(w.broker, open, verdict.side);
    } else {
      SubmitSelf(env, w, Request(symbol, verdict.side, verdict.qty));
    }
  }

  /** The open orders of a held symbol already close it. */
  lemma {:induction false} SameSide(env: Env, w: World, symbol: string, side: Side, qty: real)
    requires ReplayInv(env, w) && InStep(w, symbol) && symbol in w.broker.holdings
    requires qty > 0.0 && w.broker.holdings[symbol].qty + Signed(side, qty) == 0.0
    ensures forall o :: o in OpenRows(w.rows, symbol) ==> o.side == side
    ensures OpenRows(w.rows, symbol) != [] ==> PendingOf(w.broker.pending, symbol)
  {
    hide Inv, FillsExact, OneOpen, InStep;
    RowIds(env, w);
    OpenRowsPend(w, symbol);
    forall o | o in OpenRows(w.rows, symbol) ensures o.side == side && PendingOf(w.broker.pending, symbol) {
      var t :| t in w.broker.pending && t.id == o.id && t.request.symbol == symbol;
      TicketSide(env, w, t);
    }
    if OpenRows(w.rows, symbol) != [] {
      assert OpenRows(w.rows, symbol)[0] in OpenRows(w.rows, symbol);
    }
  }

  lemma {:induction false} TicketSide(env: Env, w: World, t: Ticket)
    requires ReplayInv(env, w) && t in w.broker.pending
    ensures t.id < |w.rows| && w.rows[t.id].side == t.request.side && t.request.qty > 0.0
  {
    hide Solvent, FillsExact, OneOpen;
    TicketRow(env, w, t);
    assert RowOk(w.rows[t.id], w.broker.orders[t.id]);
    assert OrderOk(w.broker.orders[t.id], t.id, w.broker.asOf);
  }

  lemma {:induction false} SubmitSelf(env: Env, w: World, r: Request)
    requires ReplayInv(env, w) && InStep(w, r.symbol) && r.symbol in w.broker.holdings
    requires r.qty > 0.0 && r.symbol in w.broker.closes && w.broker.asOf.Some?
    ensures Closing(SubmitAndSave(w, r), r.symbol) && InStep(SubmitAndSave(w, r), r.symbol)
  {
    hide ReplayInv;
    RowIds(env, w);
    var w' := SubmitAndSave(w, r);
    var t := Ticket(|w.broker.orders|, r);
    assert w'.broker.pending == w.broker.pending + [t];
    assert t in w'.broker.pending;
    forall k | 0 <= k < |w'.rows| && w'.rows[k].symbol == r.symbol && !Terminal(w'.rows[k].status)
      ensures PendsFor(w'.broker.pending, k, r.symbol)
    {
      if k < |w.rows| { assert PendsFor(w.broker.pending, k, r.symbol); }
    }
  }

  lemma {:induction false} ProcessAllFor(
    env: Env, w: World, symbols: seq<string>, a: Account, asOf: int, n: nat, symbol: string)
    requires ReplayInv(env, w) && CaughtUp(w) && ValidRisk(env.risk) && ValidPolicy(env.policy) && AccountMatches(a, w.broker)
    requires LastBar(env, symbol, asOf).Some? && InZone(env, LastBar(env, symbol, asOf).value.at)
    requires NoEntry(w, symbol) && InStep(w, symbol)
    requires symbol in w.broker.closes && w.broker.asOf.Some?
    requires symbol in symbols || Closing(w, symbol)
    ensures Closing(ProcessAll(env, w, symbols, a, asOf, n), symbol)
    decreases |symbols|
  {
    hide ReplayInv, CaughtUp, Process, LastBar, InStep, AccountMatches;
    if symbols != [] {
      ProcessKeepsReplay(env, w, symbols[0], a, asOf, n);
      var w1 := Process(env, w, symbols[0], a, asOf, n);
      AccountStillMatches(a, w.broker, w1.broker);
      if symbols[0] == symbol {
        ProcessSelf(env, w, symbol, a, asOf, n);
      } else {
        ProcessOther(env, w, symbols[0], a, asOf, n, symbol);
      }
      ProcessAllFor(env, w1, symbols[1..], a, asOf, n, symbol);
    }
  }

  lemma {:induction false} AccountStillMatches(a: Account, b: Ledger, b': Ledger)
    requires AccountMatches(a, b) && b'.holdings == b.holdings
    ensures AccountMatches(a, b')
  {}

  /** After reconciling, every open row is pending. */
  lemma {:induction false} ReconciledInStep(env: Env, w: World, symbol: string)
    requires ReplayInv(env, w)
    ensures InStep(Reconciled(w), symbol)
  {
    hide ReplayInv, Reconciled;
    ReconcileKeepsReplay(env, w);
    ReconcileTouches(w);
    ReplayHasInv(env, w);
    InvPending(env.cfg.capital, w.broker);
    InvDecisive(env.cfg.capital, w.broker);
    var b := w.broker;
    forall k | 0 <= k < |b.orders| && b.orders[k].symbol == symbol && !Terminal(b.orders[k].status)
      ensures PendsFor(b.pending, k, symbol)
    {
      assert Pends(b.pending, k);
      var j :| 0 <= j < |b.pending| && b.pending[j].id == k;
      assert TicketOk(b.pending[j], b.orders);
      assert b.pending[j] in b.pending;
    }
  }

  lemma {:induction false} TickFor(env: Env, w: World, asOf: int, n: nat, symbol: string)
    requires ReplayInv(env, w) && ValidRisk(env.risk) && ValidPolicy(env.policy)
    requires LastBar(env, symbol, asOf).Some? && InZone(env, LastBar(env, symbol, asOf).value.at)
    requires NoEntry(w, symbol) && symbol in w.broker.closes && w.broker.asOf.Some?
    requires symbol in env.symbols
    ensures Closing(Tick(env, w, asOf, n), symbol)
  {
    hide ReplayInv, CaughtUp, Reconciled, Equity, BuyingPower, LastBar, InStep, ProcessAll;
    ReconcileKeepsReplay(env, w);
    ReconcileTouches(w);
    ReconciledInStep(env, w, symbol);
    ProcessAllFor(env, Reconciled(w), env.symbols, AccountOf(env.cfg, w.broker), asOf, n, symbol);
  }

  // ----------------------------------------------------------------- runs

  /** Some bar of the symbol after tick `i`, up to tick `k`, opened at a usable price. */
  ghost predicate Reopened(env: Env, grid: seq<int>, i: nat, k: nat, symbol: string)
    requires i <= k < |grid|
  {
    exists j :: i < j <= k && Opens(LatestBars(env, grid[j]), symbol)
  }

  lemma {:induction false} LatestIsLast(env: Env, a: int, symbol: string)
    requires symbol in LatestBars(env, a)
    ensures LastBar(env, symbol, a).Some? && LastBar(env, symbol, a).value.at == a
  {
    hide LastBar;
  }

  lemma {:induction false} NewestBar(env: Env, a: int, b: int, symbol: string)
    requires ValidMarket(env) && symbol in LatestBars(env, a) && a <= b
    ensures LastBar(env, symbol, b).Some? && a <= LastBar(env, symbol, b).value.at <= b
    ensures Regular(env.zone, LastBar(env, symbol, b).value.at)
  {
    hide Regular, BisectRight, SortedBars, LatestBars, ValidMarket, BarsOf;
    var bars := BarsOf(env, symbol);
    assert LastBar(env, symbol, a).Some? && LastBar(env, symbol, a).value.at == a by { LatestIsLast(env, a, symbol); }
    MarketBars(env, symbol);
    LaterIndex(bars, a, b);
    assert bars[BisectRight(bars, b) - 1] in bars;
  }

  lemma {:induction false} MarketBars(env: Env, symbol: string)
    requires ValidMarket(env)
    ensures SortedBars(BarsOf(env, symbol)) && forall bar :: bar in BarsOf(env, symbol) ==> Regular(env.zone, bar.at)
  {
    hide Regular;
  }

  lemma {:induction false} LaterIndex(bars: seq<Bar>, a: int, b: int)
    requires SortedBars(bars) && a <= b
    requires BisectRight(bars, a) > 0 && bars[BisectRight(bars, a) - 1].at == a
    ensures BisectRight(bars, a) <= BisectRight(bars, b) && a <= bars[BisectRight(bars, b) - 1].at <= b
  {}

  /** Once a symbol has had a bar in the zone, its newest bar stays in the zone until the session ends. */
  lemma {:induction false} ZoneStays(env: Env, a: int, b: int, symbol: string)
    requires ValidMarket(env) && SteadySessions(env.zone) && Regular(env.zone, a) && Regular(env.zone, b)
    requires symbol in LatestBars(env, a) && InZone(env, a)
    requires a <= b && LocalDate(env.zone, a) == LocalDate(env.zone, b)
    ensures LastBar(env, symbol, b).Some? && InZone(env, LastBar(env, symbol, b).value.at)
  {
    hide Regular, LocalDate, UntilClose, SteadySessions, LastBar, LatestBars, ValidMarket;
    NewestBar(env, a, b, symbol);
    var u := LastBar(env, symbol, b).value.at;
    DatesIncrease(env.zone, a, u);
    DatesIncrease(env.zone, u, b);
    CloseApproaches(env.zone, a, u);
  }

  /** One bar of a session after the symbol's first bar in the zone. */
  lemma {:induction false} BarFor(env: Env, w: World, at: int, n: nat, symbol: string)
    requires ReplayInv(env, w) && Later(w.broker, at) && ValidRisk(env.risk) && ValidPolicy(env.policy)
    requires LastBar(env, symbol, at).Some? && InZone(env, LastBar(env, symbol, at).value.at)
    requires symbol in env.symbols
    requires symbol in LatestBars(env, at) || (Closing(w, symbol) && symbol in w.broker.closes)
    ensures TicketsKnown(w.broker)
    ensures
      var m := MarkBar(env, w, at);
      var w' := Tick(env, m, at, n);
      && Closing(w', symbol) && symbol in w'.broker.closes
      && w'.broker.holdings == m.broker.holdings
      && (Closing(w, symbol) ==>
            (symbol in m.broker.holdings <==> symbol in w.broker.holdings && !Opens(LatestBars(env, at), symbol)))
  {
    hide ReplayInv, CaughtUp, Tick, LastBar, LatestBars, MarkedToMarket, InZone;
    MarkKeepsReplay(env, w, at);
    ReplayHasInv(env, w);
    MarkKeeps(env.cfg, w.broker, at, LocalDate(env.zone, at), LatestBars(env, at));
    MarkFor(env, w, at, symbol);
    var m := MarkBar(env, w, at);
    TickFor(env, m, at, n, symbol);
    TickKeepsReplay(env, m, at, n);
  }

  lemma {:induction false} ZoneRun(env: Env, grid: seq<int>, worlds: seq<World>, i: nat, k: nat, symbol: string)
    requires IsReplay(env, grid, worlds) && i <= k < |grid|
    requires ValidMarket(env) && ValidPolicy(env.policy) && SteadySessions(env.zone) && symbol in env.symbols
    requires symbol in LatestBars(env, grid[i]) && InZone(env, grid[i])
    requires LocalDate(env.zone, grid[i]) == LocalDate(env.zone, grid[k])
    ensures Closing(worlds[k + 1], symbol) && symbol in worlds[k + 1].broker.closes
    ensures symbol in worlds[k + 1].broker.holdings <==>
              symbol in MarkBar(env, worlds[i], grid[i]).broker.holdings && !Reopened(env, grid, i, k, symbol)
  {
    hide ReplayInv, CaughtUp, Tick, LastBar, LatestBars, MarkBar, InZone, LocalDate, Regular, SteadySessions, Closing, Opens, ValidMarket;
    EveryReplayKeeps(env, grid, worlds, k);
    ZoneStays(env, grid[i], grid[k], symbol);
    if i < k {
      DatesIncrease(env.zone, grid[i], grid[k - 1]);
      DatesIncrease(env.zone, grid[k - 1], grid[k]);
      ZoneRun(env, grid, worlds, i, k - 1, symbol);
    }
    BarFor(env, worlds[k], grid[k], k, symbol);
    if i < k {
      assert Reopened(env, grid, i, k, symbol) <==>
        Reopened(env, grid, i, k - 1, symbol) || Opens(LatestBars(env, grid[k]), symbol);
    }
  }

  /**
   * When a session ends flat, exactly: after the symbol's first (or any) bar in the zone, at every
   * later bar of that session it has neither a position nor a pending order if and only if it was not
   * held once that bar was marked, or some later bar of the session opened at a usable price.
   */
  lemma {:induction false} FlatExactly(env: Env, grid: seq<int>, worlds: seq<World>, i: nat, k: nat, symbol: string)
    requires IsReplay(env, grid, worlds) && i <= k < |grid|
    requires ValidMarket(env) && ValidPolicy(env.policy) && SteadySessions(env.zone) && symbol in env.symbols
    requires symbol in LatestBars(env, grid[i]) && InZone(env, grid[i])
    requires LocalDate(env.zone, grid[i]) == LocalDate(env.zone, grid[k])
    ensures !HeldOrPending(worlds[k + 1], symbol) <==>
              symbol !in MarkBar(env, worlds[i], grid[i]).broker.holdings || Reopened(env, grid, i, k, symbol)
  {
    hide ReplayInv, MarkBar, LatestBars, InZone, LocalDate, Tick, SteadySessions, Reopened;
    ZoneRun(env, grid, worlds, i, k, symbol);
  }

  /**
   * Flat by close: with a bar in the zone and a later one of the same session that opens at a positive
   * price, the session ends with no position and no pending order, whatever the model predicts or raises.
   */
  lemma {:induction false} FlatByClose(env: Env, grid: seq<int>, worlds: seq<World>, i: nat, j: nat, k: nat, symbol: string)
    requires IsReplay(env, grid, worlds) && i < j <= k < |grid|
    requires ValidMarket(env) && ValidPolicy(env.policy) && SteadySessions(env.zone) && symbol in env.symbols
    requires symbol in LatestBars(env, grid[i]) && InZone(env, grid[i])
    requires Opens(LatestBars(env, grid[j]), symbol)
    requires LocalDate(env.zone, grid[i]) == LocalDate(env.zone, grid[k])
    ensures !HeldOrPending(worlds[k + 1], symbol)
  {
    hide ReplayInv, MarkBar, LatestBars, InZone, LocalDate, Tick, SteadySessions, HeldOrPending, Opens;
    FlatExactly(env, grid, worlds, i, k, symbol);
  }
}
