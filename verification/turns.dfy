/** What one symbol's turn in a tick does to the orders: it rests, clears the other side, or sends one order. */
module Turns {
  import opened Wrappers
  import opened Trading
  import opened DecisionPolicy
  import opened Risk
  import opened Broker
  import opened BrokerLaws
  import opened Replay
  import opened ReplayLaws
  import opened Evaluation

  /** The generator's target, where it has one and the symbol has a bar. */
  function TargetOf(env: Env, w: World, symbol: string, a: Account, asOf: int, n: nat): Option<Exposure> {
    var target := SignalOf(env, w, symbol, a, asOf, n).target;
    if LastBar(env, symbol, asOf).Some? && target.Success? then Some(target.value) else None
  }

  /** A quote half the spread below and above a price. */
  function Around(price: real, spread: real): Quote {
    Quote(price * (1.0 - spread / 2.0), price * (1.0 + spread / 2.0))
  }

  /** The order that the target asks for and the risk rules permit, against the account and the newest close. */
  ghost predicate Wants(env: Env, w: World, symbol: string, a: Account, asOf: int, n: nat, side: Side, qty: real) {
    var target := TargetOf(env, w, symbol, a, asOf, n);
    && target.Some?
    && Permitted(env.risk, symbol, target.value, a, Around(LastBar(env, symbol, asOf).value.close, env.quoteSpread), side, qty)
  }

  ghost predicate HasOpen(rows: seq<Order>, symbol: string) {
    exists i: nat :: OpenRow(rows, i, symbol)
  }

  lemma {:induction false} OpenRowsAre(rows: seq<Order>, symbol: string)
    ensures forall o :: o in OpenRows(rows, symbol) <==> exists i: nat :: OpenRow(rows, i, symbol) && rows[i] == o
  {
    if rows != [] {
      var front, last := rows[..|rows| - 1], rows[|rows| - 1];
      OpenRowsAre(front, symbol);
      assert forall i: nat :: i < |front| ==> (OpenRow(rows, i, symbol) <==> OpenRow(front, i, symbol));
    }
  }

  // --------------------------------------------------------------- clearing

  predicate Clears(open: seq<Order>, side: Side, id: nat) {
    exists k :: 0 <= k < |open| && open[k].id == id && open[k].side != side
  }

  lemma {:induction false} ClearsTail(open: seq<Order>, side: Side, id: nat)
    requires open != []
    ensures Clears(open, side, id) <==> (open[0].id == id && open[0].side != side) || Clears(open[1..], side, id)
  {
    if Clears(open[1..], side, id) {
      var k :| 0 <= k < |open[1..]| && open[1..][k].id == id && open[1..][k].side != side;
      assert open[k + 1].id == id;
    }
    if Clears(open, side, id) && !(open[0].id == id && open[0].side != side) {
      var k :| 0 <= k < |open| && open[k].id == id && open[k].side != side;
      assert open[1..][k - 1].id == id;
    }
  }

  /** An ACCEPTED order on the list and on the other side is cancelled; nothing else changes. */
  lemma {:induction false} ClearIs(b: Ledger, open: seq<Order>, side: Side, i: nat)
    requires OrdersOk(b) && i < |b.orders|
    ensures |ClearConflicts(b, open, side).orders| == |b.orders|
    ensures ClearConflicts(b, open, side).orders[i] ==
              if b.orders[i].status == Accepted && Clears(open, side, i) then b.orders[i].(status := Canceled) else b.orders[i]
    decreases |open|
  {
    hide Clears, Without;
    if open == [] {
      NothingClears(side, i);
    } else {
      ClearsTail(open, side, i);
      assert OrderOk(b.orders[i], i, b.asOf);
      var next := if open[0].side != side && Cancelled(b, open[0].id).Success? then Cancelled(b, open[0].id).value else b;
      CancelledOk(b, open[0].id);
      ClearIs(next, open[1..], side, i);
    }
  }

  lemma {:induction false} NothingClears(side: Side, i: nat)
    ensures !Clears([], side, i)
  {}

  lemma {:induction false} CancelledOk(b: Ledger, id: nat)
    requires OrdersOk(b)
    ensures Cancelled(b, id).Success? ==> OrdersOk(Cancelled(b, id).value) && |Cancelled(b, id).value.orders| == |b.orders|
  {
    hide Without;
    if Cancelled(b, id).Success? {
      var b' := Cancelled(b, id).value;
      forall i | 0 <= i < |b'.orders| ensures OrderOk(b'.orders[i], i, b'.asOf) {
        assert OrderOk(b.orders[i], i, b.asOf);
      }
    }
  }

  /** The list is the symbol's open rows, which share number and side with the broker's orders. */
  lemma {:induction false} OpenRowsClear(rows: seq<Order>, orders: seq<Order>, symbol: string, side: Side, i: nat)
    requires RowsTrack(rows, orders) && Decisive(orders) && i < |orders|
    ensures Clears(OpenRows(rows, symbol), side, i) <==> OpenRow(rows, i, symbol) && orders[i].side != side
  {
    hide OpenRows;
    OpenRowsAre(rows, symbol);
    assert RowOk(rows[i], orders[i]) && orders[i].id == i;
    var open := OpenRows(rows, symbol);
    if Clears(open, side, i) {
      var k :| 0 <= k < |open| && open[k].id == i && open[k].side != side;
      assert open[k] in open;
      var j: nat :| OpenRow(rows, j, symbol) && rows[j] == open[k];
      assert RowOk(rows[j], orders[j]) && orders[j].id == j;
    }
    if OpenRow(rows, i, symbol) && orders[i].side != side {
      assert rows[i] in open;
      var k :| 0 <= k < |open| && open[k] == rows[i];
    }
  }

  // ------------------------------------------------------------------ turns

  /** What the turn decides, with the verdict spelled out as the permitted order. */
  lemma {:induction false} VerdictIs(env: Env, w: World, symbol: string, a: Account, asOf: int, n: nat, side: Side, qty: real)
    requires ValidRisk(env.risk) && TargetOf(env, w, symbol, a, asOf, n).Some?
    ensures
      var target, quote := TargetOf(env, w, symbol, a, asOf, n).value, QuoteOf(env, LastBar(env, symbol, asOf).value);
      Wants(env, w, symbol, a, asOf, n, side, qty) <==> Assess(env.risk, symbol, target, a, quote) == Approved(side, qty)
  {
    hide Assess, Permitted, LastBar, SignalOf;
    var last := LastBar(env, symbol, asOf).value;
    QuoteIsAround(env, last);
    ApprovedIsPermitted(env.risk, symbol, TargetOf(env, w, symbol, a, asOf, n).value, a, QuoteOf(env, last), side, qty);
    hide QuoteOf, Around;
  }

  lemma {:induction false} QuoteIsAround(env: Env, bar: Bar)
    ensures QuoteOf(env, bar) == Around(bar.close, env.quoteSpread)
  {
    assert QuoteOf(env, bar).bid == bar.close * (1.0 - env.quoteSpread / 2.0) == Around(bar.close, env.quoteSpread).bid;
    assert QuoteOf(env, bar).ask == bar.close * (1.0 + env.quoteSpread / 2.0) == Around(bar.close, env.quoteSpread).ask;
  }

  /** With nothing wanted, the turn leaves every order and every row as it was. */
  lemma {:induction false} TurnRests(env: Env, w: World, symbol: string, a: Account, asOf: int, n: nat)
    requires ValidRisk(env.risk)
    requires forall side, qty :: !Wants(env, w, symbol, a, asOf, n, side, qty)
    ensures
      var next := Process(env, w, symbol, a, asOf, n);
      next.broker == w.broker && next.rows == w.rows && next.fills == w.fills
  {
    hide Assess, Wants, LastBar, QuoteOf, OpenRows, ClearConflicts, Submitted, Generate;
    var target := TargetOf(env, w, symbol, a, asOf, n);
    if target.Some? {
      var v := Assess(env.risk, symbol, target.value, a, QuoteOf(env, LastBar(env, symbol, asOf).value));
      if v.Approved? {
        VerdictIs(env, w, symbol, a, asOf, n, v.side, v.qty);
        assert false;
      }
    }
  }

  lemma {:induction false} WantsSome(env: Env, w: World, symbol: string, a: Account, asOf: int, n: nat, side: Side, qty: real)
    requires Wants(env, w, symbol, a, asOf, n, side, qty)
    ensures TargetOf(env, w, symbol, a, asOf, n).Some? && LastBar(env, symbol, asOf).Some?
    ensures qty > 0.0 && TargetOf(env, w, symbol, a, asOf, n).value != Unchanged
  {
    hide LastBar, SignalOf;
  }

  /** The branch of the turn that a wanted order takes. */
  lemma {:induction false} TurnBranch(env: Env, w: World, symbol: string, a: Account, asOf: int, n: nat, side: Side, qty: real)
    requires ValidRisk(env.risk) && Wants(env, w, symbol, a, asOf, n, side, qty)
    ensures
      var w1 := w.(attempts := SignalOf(env, w, symbol, a, asOf, n).attempts);
      Process(env, w, symbol, a, asOf, n) ==
        if OpenRows(w.rows, symbol) != [] then w1.(broker := ClearConflicts(w.broker, OpenRows(w.rows, symbol), side))
        else SubmitAndSave(w1, Request(symbol, side, qty))
  {
    WantsSome(env, w, symbol, a, asOf, n, side, qty);
    VerdictIs(env, w, symbol, a, asOf, n, side, qty);
    hide Assess, Wants, LastBar, QuoteOf, OpenRows, ClearConflicts, Submitted, Generate;
  }

  /**
   * What a wanted order leads to. While the symbol has an open row, its ACCEPTED orders on the other
   * side are cancelled and nothing is sent. With none open, the order is sent as wanted, once, provided
   * that the symbol has ever had a price.
   */
  lemma {:induction false} TurnActs(env: Env, w: World, symbol: string, a: Account, asOf: int, n: nat, side: Side, qty: real)
    requires ReplayInv(env, w) && ValidRisk(env.risk) && Wants(env, w, symbol, a, asOf, n, side, qty)
    ensures
      var was, now := w.broker.orders, Process(env, w, symbol, a, asOf, n).broker.orders;
      if HasOpen(w.rows, symbol) then
        && |now| == |was|
        && forall i :: 0 <= i < |was| ==>
             now[i] == if OpenRow(w.rows, i, symbol) && was[i].status == Accepted && was[i].side != side
                       then was[i].(status := Canceled) else was[i]
      else if w.broker.asOf.Some? && symbol in w.broker.closes then
        now == was + [Order(|was|, symbol, side, qty, Accepted, 0.0, None, w.broker.asOf.value, None)]
      else now == was
  {
    WantsSome(env, w, symbol, a, asOf, n, side, qty);
    TurnBranch(env, w, symbol, a, asOf, n, side, qty);
    NoneOpen(w.rows, symbol);
    ClearedOrders(env, w, symbol, side);
    hide Wants, Process, OpenRows, OpenRow, ReplayInv, SignalOf, ClearConflicts, HasOpen, TargetOf;
  }

  /** Clearing cancels the symbol's ACCEPTED orders on the other side, and nothing else. */
  lemma {:induction false} ClearedOrders(env: Env, w: World, symbol: string, side: Side)
    requires ReplayInv(env, w)
    ensures
      var was, now := w.broker.orders, ClearConflicts(w.broker, OpenRows(w.rows, symbol), side).orders;
      && |now| == |was|
      && forall i :: 0 <= i < |was| ==>
           now[i] == if OpenRow(w.rows, i, symbol) && was[i].status == Accepted && was[i].side != side
                     then was[i].(status := Canceled) else was[i]
  {
    InvPending(env.cfg.capital, w.broker);
    InvDecisive(env.cfg.capital, w.broker);
    hide Clears, OpenRow, OpenRows, Inv, OrdersOk, Decisive, OneOpen, FillsExact, ClosesOnly;
    ClearLength(w.broker, OpenRows(w.rows, symbol), side);
    forall i | 0 <= i < |w.broker.orders|
      ensures ClearConflicts(w.broker, OpenRows(w.rows, symbol), side).orders[i] ==
                if OpenRow(w.rows, i, symbol) && w.broker.orders[i].status == Accepted && w.broker.orders[i].side != side
                then w.broker.orders[i].(status := Canceled) else w.broker.orders[i]
    {
      ClearIs(w.broker, OpenRows(w.rows, symbol), side, i);
      OpenRowsClear(w.rows, w.broker.orders, symbol, side, i);
    }
  }

  /** The orders still name their symbols, and at most one more names this one. */
  predicate SendsOne(was: seq<Order>, now: seq<Order>, symbol: string) {
    && |was| <= |now| <= |was| + 1 && (forall i :: 0 <= i < |was| ==> now[i].symbol == was[i].symbol)
    && (|now| > |was| ==> now[|was|].symbol == symbol)
  }

  lemma {:induction false} TurnSends(env: Env, w: World, symbol: string, a: Account, asOf: int, n: nat)
    requires ReplayInv(env, w) && ValidRisk(env.risk)
    ensures SendsOne(w.broker.orders, Process(env, w, symbol, a, asOf, n).broker.orders, symbol)
  {
    hide Process, Wants, ReplayInv, HasOpen, OpenRow;
    if side, qty :| Wants(env, w, symbol, a, asOf, n, side, qty) {
      TurnActs(env, w, symbol, a, asOf, n, side, qty);
    } else {
      TurnRests(env, w, symbol, a, asOf, n);
    }
  }

  /** The orders past `from` are those of the symbols at these positions, in their order. */
  predicate SentFor(symbols: seq<string>, orders: seq<Order>, from: nat, at: seq<nat>) {
    && |orders| == from + |at|
    && (forall k :: 0 <= k < |at| ==> at[k] < |symbols| && orders[from + k].symbol == symbols[at[k]])
    && forall j, k :: 0 <= j < k < |at| ==> at[j] < at[k]
  }

  /**
   * One tick sends at most one order per place in the list of symbols, in the list's order, which is
   * the order they fill in.
   */
  lemma {:induction false} TickSendsInOrder(env: Env, w: World, symbols: seq<string>, a: Account, asOf: int, n: nat)
    returns (at: seq<nat>)
    requires ReplayInv(env, w) && CaughtUp(w) && ValidRisk(env.risk) && AccountMatches(a, w.broker)
    ensures SentFor(symbols, ProcessAll(env, w, symbols, a, asOf, n).broker.orders, |w.broker.orders|, at)
    ensures forall i :: 0 <= i < |w.broker.orders| ==>
              ProcessAll(env, w, symbols, a, asOf, n).broker.orders[i].symbol == w.broker.orders[i].symbol
    decreases |symbols|
  {
    hide Process, ReplayInv, CaughtUp, SentFor;
    if symbols == [] {
      at := [];
      NothingSent(w.broker.orders);
    } else {
      var next := Process(env, w, symbols[0], a, asOf, n);
      ProcessKeepsReplay(env, w, symbols[0], a, asOf, n);
      TurnSends(env, w, symbols[0], a, asOf, n);
      var rest := TickSendsInOrder(env, next, symbols[1..], a, asOf, n);
      var orders := ProcessAll(env, w, symbols, a, asOf, n).broker.orders;
      at := FirstThenRest(symbols, w.broker.orders, next.broker.orders, orders, rest);
    }
  }

  lemma {:induction false} NothingSent(orders: seq<Order>)
    ensures SentFor([], orders, |orders|, [])
  {}

  lemma {:induction false} FirstThenRest(symbols: seq<string>, was: seq<Order>, mid: seq<Order>, now: seq<Order>, rest: seq<nat>)
    returns (at: seq<nat>)
    requires symbols != [] && SendsOne(was, mid, symbols[0]) && SentFor(symbols[1..], now, |mid|, rest)
    requires forall i :: 0 <= i < |mid| && i < |now| ==> now[i].symbol == mid[i].symbol
    ensures SentFor(symbols, now, |was|, at)
  {
    var later := seq(|rest|, k requires 0 <= k < |rest| => rest[k] + 1);
    assert forall k :: 0 <= k < |rest| ==> symbols[1..][rest[k]] == symbols[later[k]];
    at := (if |mid| > |was| then [0] else []) + later;
  }

  lemma {:induction false} ClearLength(b: Ledger, open: seq<Order>, side: Side)
    ensures |ClearConflicts(b, open, side).orders| == |b.orders|
    decreases |open|
  {
    hide Without;
    if open != [] {
      var next := if open[0].side != side && Cancelled(b, open[0].id).Success? then Cancelled(b, open[0].id).value else b;
      ClearLength(next, open[1..], side);
    }
  }

  lemma {:induction false} NoneOpen(rows: seq<Order>, symbol: string)
    ensures OpenRows(rows, symbol) == [] <==> !HasOpen(rows, symbol)
  {
    hide OpenRows, OpenRow;
    OpenRowsAre(rows, symbol);
    var open := OpenRows(rows, symbol);
    if open != [] {
      assert open[0] in open;
    }
    if HasOpen(rows, symbol) {
      var i: nat :| OpenRow(rows, i, symbol);
      assert i < |rows| by { OpenInRange(rows, i, symbol); }
      assert rows[i] in open;
    }
  }

  lemma {:induction false} OpenInRange(rows: seq<Order>, i: nat, symbol: string)
    requires OpenRow(rows, i, symbol)
    ensures i < |rows|
  {}
}
