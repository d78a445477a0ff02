/** What the broker keeps over every sequence of operations, whoever calls it. */
module BrokerLaws {
  import opened Wrappers
  import opened Collections
  import opened Trading
  import opened RoundTripLaws
  import opened Broker

  function PaidPrice(o: Order): real {
    if o.filledPrice.Some? then o.filledPrice.value else 0.0
  }

  /** Cash spent on each filled order. */
  ghost function Spent(orders: seq<Order>): map<nat, real> {
    map i: nat | i < |orders| && orders[i].status == Filled :: Worth(Signed(orders[i].side, orders[i].qty), PaidPrice(orders[i]))
  }

  /** Signed shares of one symbol that each filled order brought. */
  ghost function Bought(orders: seq<Order>, symbol: string): map<nat, real> {
    map i: nat | i < |orders| && orders[i].status == Filled && orders[i].symbol == symbol :: Signed(orders[i].side, orders[i].qty)
  }

  predicate OrderOk(o: Order, i: nat, asOf: Option<int>) {
    && o.id == i && o.qty > 0.0
    && (o.status == Accepted || o.status == Filled || o.status == Canceled || o.status == Rejected)
    && asOf.Some? && o.submittedAt <= asOf.value
    && (if o.status == Filled then
          o.filledQty == o.qty && o.filledPrice.Some? && o.filledAt.Some? && o.submittedAt < o.filledAt.value <= asOf.value
        else o.filledQty == 0.0 && o.filledPrice.None? && o.filledAt.None?)
  }

  predicate OrdersOk(b: Ledger) {
    forall i :: 0 <= i < |b.orders| ==> OrderOk(b.orders[i], i, b.asOf)
  }

  predicate Increasing(pending: seq<Ticket>) {
    forall i, j :: 0 <= i < j < |pending| ==> pending[i].id < pending[j].id
  }

  predicate Pends(pending: seq<Ticket>, id: nat) {
    exists k :: 0 <= k < |pending| && pending[k].id == id
  }

  predicate TicketOk(t: Ticket, orders: seq<Order>) {
    t.id < |orders| && orders[t.id].status == Accepted && t.request == Request(orders[t.id].symbol, orders[t.id].side, orders[t.id].qty)
  }

  /** The pending dictionary is exactly the ACCEPTED orders, oldest first. */
  predicate PendingExact(b: Ledger) {
    && Increasing(b.pending)
    && (forall k :: 0 <= k < |b.pending| ==> TicketOk(b.pending[k], b.orders))
    && (forall i :: 0 <= i < |b.orders| && b.orders[i].status == Accepted ==> Pends(b.pending, i))
  }

  /** Cash and holdings are what the filled orders add up to; no holding is empty. */
  ghost predicate Solvent(capital: real, b: Ledger) {
    && b.cash == capital - Sum(Spent(b.orders))
    && (forall s :: Held(b, s) == Sum(Bought(b.orders, s)))
    && (forall s :: s in b.holdings ==> b.holdings[s].qty != 0.0)
  }

  ghost predicate Inv(capital: real, b: Ledger) {
    OrdersOk(b) && PendingExact(b) && Solvent(capital, b)
  }

  /** Orders are only appended, keep their identity, and never change once terminal. */
  predicate History(before: seq<Order>, after: seq<Order>) {
    && |before| <= |after|
    && forall i :: 0 <= i < |before| ==>
         && after[i].id == before[i].id && after[i].symbol == before[i].symbol && after[i].side == before[i].side
         && after[i].qty == before[i].qty && after[i].submittedAt == before[i].submittedAt
         && (Terminal(before[i].status) ==> after[i] == before[i])
  }

  lemma {:induction false} HistoryTransitive(a: seq<Order>, b: seq<Order>, c: seq<Order>)
    requires History(a, b) && History(b, c)
    ensures History(a, c)
  {}

  // -------------------------------------------------------------- pending

  lemma {:induction false} WithoutIs(pending: seq<Ticket>, id: nat)
    requires Increasing(pending)
    ensures Increasing(Without(pending, id))
    ensures forall t :: t in Without(pending, id) <==> t in pending && t.id != id
  {
    hide Increasing;
    if pending != [] {
      var first, rest := pending[0], pending[1..];
      assert pending == [first] + rest;
      TailIncreases(first, rest);
      WithoutIs(rest, id);
      if first.id != id { HeadIncreases(first, Without(rest, id)); }
    }
  }

  lemma {:induction false} TailIncreases(first: Ticket, rest: seq<Ticket>)
    requires Increasing([first] + rest)
    ensures Increasing(rest) && forall t :: t in rest ==> first.id < t.id
  {
    var all := [first] + rest;
    assert all[0] == first && forall i :: 0 <= i < |rest| ==> all[i + 1] == rest[i];
  }

  lemma {:induction false} HeadIncreases(first: Ticket, rest: seq<Ticket>)
    requires Increasing(rest) && forall t :: t in rest ==> first.id < t.id
    ensures Increasing([first] + rest)
  {}

  /** Taking an order out of ACCEPTED together with its ticket keeps the two in step. */
  lemma {:induction false} SettleKeepsPending(b: Ledger, id: nat, o: Order, b': Ledger)
    requires PendingExact(b) && id < |b.orders| && o.status != Accepted
    requires b'.orders == b.orders[id := o] && b'.pending == Without(b.pending, id)
    ensures PendingExact(b')
  {
    WithoutIs(b.pending, id);
    forall k | 0 <= k < |b'.pending| ensures TicketOk(b'.pending[k], b'.orders) {
      assert b'.pending[k] in b.pending;
    }
    forall i | 0 <= i < |b'.orders| && b'.orders[i].status == Accepted ensures Pends(b'.pending, i) {
      assert Pends(b.pending, i);
      var k :| 0 <= k < |b.pending| && b.pending[k].id == i;
      assert b.pending[k] in b'.pending;
    }
  }

  // ---------------------------------------------------------------- money

  /** A status change that fills nothing moves no money. */
  lemma {:induction false} NothingFilled(b: Ledger, id: nat, o: Order)
    requires id < |b.orders| && b.orders[id].status != Filled && o.status != Filled
    ensures Spent(b.orders[id := o]) == Spent(b.orders)
    ensures forall s :: Bought(b.orders[id := o], s) == Bought(b.orders, s)
  {}

  lemma {:induction false} NothingAppended(orders: seq<Order>, o: Order)
    requires o.status != Filled
    ensures Spent(orders + [o]) == Spent(orders)
    ensures forall s :: Bought(orders + [o], s) == Bought(orders, s)
  {}

  lemma {:induction false} FillMovesMoney(orders: seq<Order>, id: nat, o: Order)
    requires id < |orders| && orders[id].status != Filled && o.status == Filled
    ensures Sum(Spent(orders[id := o])) == Sum(Spent(orders)) + Worth(Signed(o.side, o.qty), PaidPrice(o))
    ensures forall s :: Sum(Bought(orders[id := o], s)) ==
                          Sum(Bought(orders, s)) + (if s == o.symbol then Signed(o.side, o.qty) else 0.0)
  {
    hide Sum, Worth, Signed;
    var after := orders[id := o];
    var value := Worth(Signed(o.side, o.qty), PaidPrice(o));
    assert Spent(after) == Spent(orders)[id := value];
    SumAssign(Spent(orders), id, value);
    forall s ensures Sum(Bought(after, s)) == Sum(Bought(orders, s)) + (if s == o.symbol then Signed(o.side, o.qty) else 0.0) {
      if s == o.symbol {
        assert Bought(after, s) == Bought(orders, s)[id := Signed(o.side, o.qty)];
        SumAssign(Bought(orders, s), id, Signed(o.side, o.qty));
      } else {
        assert Bought(after, s) == Bought(orders, s);
      }
    }
  }

  /** Whatever branch the fill takes, the held quantity moves by the signed quantity and none is empty. */
  lemma {:induction false} HoldingsMove(holdings: map<string, Holding>, symbol: string, delta: real, price: real)
    requires delta != 0.0 && forall s :: s in holdings ==> holdings[s].qty != 0.0
    ensures
      var after := HoldingsAfter(holdings, symbol, delta, price);
      && (forall s :: s in after ==> after[s].qty != 0.0)
      && (forall s :: s != symbol ==> (s in after <==> s in holdings) && (s in after ==> after[s] == holdings[s]))
      && (if symbol in after then after[symbol].qty else 0.0) ==
           (if symbol in holdings then holdings[symbol].qty else 0.0) + delta
  {
    hide Average;
  }

  // ----------------------------------------------------------- operations

  /** Pending orders were submitted before the bar that may fill them. */
  predicate Older(b: Ledger, at: int) {
    forall k :: 0 <= k < |b.pending| && b.pending[k].id < |b.orders| ==> b.orders[b.pending[k].id].submittedAt < at
  }

  /** The ledger after an order settles: filled at a price, or rejected with nothing else touched. */
  function Settled(b: Ledger, t: Ticket, price: Option<real>, at: int): Ledger
    requires t.id < |b.orders|
  {
    var o := if price.Some? then FilledOrder(b.orders[t.id], t.request, price.value, at) else Closed(b.orders[t.id], Rejected);
    var delta := Signed(t.request.side, t.request.qty);
    b.(cash := if price.Some? then b.cash - Worth(delta, price.value) else b.cash,
       holdings := if price.Some? then HoldingsAfter(b.holdings, t.request.symbol, delta, price.value) else b.holdings,
       orders := b.orders[t.id := o],
       pending := Without(b.pending, t.id))
  }

  /** What `FillOne` decides: the price at which the order fills, if it does. */
  ghost function Decided(cfg: Config, b: Ledger, t: Ticket, bar: Bar): Option<real> {
    var price := FillPrice(cfg, t.request.side, bar.open);
    if price.Some? && Affordable(cfg, b, t.request, price.value) then price else None
  }

  lemma {:induction false} FillOneSettles(cfg: Config, b: Ledger, t: Ticket, bars: map<string, Bar>, at: int)
    requires t.id < |b.orders| && t.request.symbol in bars
    ensures FillOne(cfg, b, t, bars, at) == Settled(b, t, Decided(cfg, b, t, bars[t.request.symbol]), at)
  {
    hide Affordable, FillPrice, HoldingsAfter;
  }

  lemma {:induction false} SettledKeeps(capital: real, b: Ledger, t: Ticket, price: Option<real>, at: int)
    requires Inv(capital, b) && t in b.pending && b.asOf == Some(at) && Older(b, at)
    ensures t.id < |b.orders|
    ensures Inv(capital, Settled(b, t, price, at)) && Older(Settled(b, t, price, at), at)
    ensures History(b.orders, Settled(b, t, price, at).orders)
    ensures forall u :: u in Settled(b, t, price, at).pending <==> u in b.pending && u != t
  {
    var k :| 0 <= k < |b.pending| && b.pending[k] == t;
    assert TicketOk(t, b.orders);
    assert OrderOk(b.orders[t.id], t.id, b.asOf);
    var b' := Settled(b, t, price, at);
    SettledMoney(capital, b, t, price, at);
    SettleKeepsPending(b, t.id, b'.orders[t.id], b');
    SettledOrders(b, t, price, at);
    WithoutIs(b.pending, t.id);
    SameTicket(b.pending, t);
    OlderWithout(b, b', t.id, at);
  }

  lemma {:induction false} OlderWithout(b: Ledger, b': Ledger, id: nat, at: int)
    requires Older(b, at) && Increasing(b.pending) && id < |b.orders| == |b'.orders|
    requires b'.pending == Without(b.pending, id)
    requires forall i :: 0 <= i < |b.orders| ==> b'.orders[i].submittedAt == b.orders[i].submittedAt
    ensures Older(b', at)
  {
    WithoutIs(b.pending, id);
    forall j | 0 <= j < |b'.pending| && b'.pending[j].id < |b'.orders|
      ensures b'.orders[b'.pending[j].id].submittedAt < at
    {
      assert b'.pending[j] in b.pending;
    }
  }

  lemma {:induction false} SettledOrders(b: Ledger, t: Ticket, price: Option<real>, at: int)
    requires OrdersOk(b) && TicketOk(t, b.orders) && b.asOf == Some(at) && b.orders[t.id].submittedAt < at
    ensures OrdersOk(Settled(b, t, price, at))
    ensures History(b.orders, Settled(b, t, price, at).orders)
  {
    hide HoldingsAfter, Without, Worth;
    assert OrderOk(b.orders[t.id], t.id, b.asOf);
  }

  lemma {:induction false} SettledMoney(capital: real, b: Ledger, t: Ticket, price: Option<real>, at: int)
    requires Solvent(capital, b) && TicketOk(t, b.orders) && b.orders[t.id].qty > 0.0
    ensures Solvent(capital, Settled(b, t, price, at))
  {
    hide Sum, Worth, HoldingsAfter, Spent, Bought, Without;
    var b' := Settled(b, t, price, at);
    var o := b'.orders[t.id];
    if price.Some? {
      FillMovesMoney(b.orders, t.id, o);
      HoldingsMove(b.holdings, t.request.symbol, Signed(t.request.side, t.request.qty), price.value);
      forall s ensures Held(b', s) == Sum(Bought(b'.orders, s)) {
        assert Held(b, s) == Sum(Bought(b.orders, s));
      }
    } else {
      NothingFilled(b, t.id, o);
      forall s ensures Held(b', s) == Sum(Bought(b'.orders, s)) {
        assert Held(b, s) == Sum(Bought(b.orders, s));
      }
    }
  }

  lemma {:induction false} FillOneKeeps(cfg: Config, b: Ledger, t: Ticket, bars: map<string, Bar>, at: int)
    requires Inv(cfg.capital, b) && t in b.pending && b.asOf == Some(at) && Older(b, at)
    ensures t.id < |b.orders|
    ensures Inv(cfg.capital, FillOne(cfg, b, t, bars, at)) && Older(FillOne(cfg, b, t, bars, at), at)
    ensures FillOne(cfg, b, t, bars, at) ==
              b.(cash := FillOne(cfg, b, t, bars, at).cash, holdings := FillOne(cfg, b, t, bars, at).holdings,
                 orders := FillOne(cfg, b, t, bars, at).orders, pending := FillOne(cfg, b, t, bars, at).pending)
    ensures History(b.orders, FillOne(cfg, b, t, bars, at).orders)
    ensures forall u :: u in FillOne(cfg, b, t, bars, at).pending <==>
              u in b.pending && (u != t || t.request.symbol !in bars)
  {
    hide Inv, Older, Affordable, FillPrice, HoldingsAfter;
    TicketsHaveOrders(cfg.capital, b, [t]);
    assert [t][0].id < |b.orders|;
    if t.request.symbol in bars {
      FillOneSettles(cfg, b, t, bars, at);
      SettledKeeps(cfg.capital, b, t, Decided(cfg, b, t, bars[t.request.symbol]), at);
    }
  }

  lemma {:induction false} SameTicket(pending: seq<Ticket>, t: Ticket)
    requires Increasing(pending) && t in pending
    ensures forall u :: u in pending && u.id == t.id ==> u == t
  {}

  lemma {:induction false} FillAllKeeps(cfg: Config, b: Ledger, tickets: seq<Ticket>, bars: map<string, Bar>, at: int)
    requires Inv(cfg.capital, b) && b.asOf == Some(at) && Older(b, at)
    requires Increasing(tickets) && forall i :: 0 <= i < |tickets| ==> tickets[i] in b.pending
    ensures forall i :: 0 <= i < |tickets| ==> tickets[i].id < |b.orders|
    ensures Inv(cfg.capital, FillAll(cfg, b, tickets, bars, at)) && Older(FillAll(cfg, b, tickets, bars, at), at)
    ensures FillAll(cfg, b, tickets, bars, at) ==
              b.(cash := FillAll(cfg, b, tickets, bars, at).cash, holdings := FillAll(cfg, b, tickets, bars, at).holdings,
                 orders := FillAll(cfg, b, tickets, bars, at).orders, pending := FillAll(cfg, b, tickets, bars, at).pending)
    ensures History(b.orders, FillAll(cfg, b, tickets, bars, at).orders)
    ensures forall u :: u in FillAll(cfg, b, tickets, bars, at).pending <==>
              u in b.pending && (u !in tickets || u.request.symbol !in bars)
    decreases |tickets|
  {
    hide Inv, FillOne, Older, TicketOk;
    TicketsHaveOrders(cfg.capital, b, tickets);
    if tickets != [] {
      FillOneKeeps(cfg, b, tickets[0], bars, at);
      var b1 := FillOne(cfg, b, tickets[0], bars, at);
      forall i | 0 <= i < |tickets[1..]| ensures tickets[1..][i] in b1.pending {
        assert tickets[1..][i] == tickets[i + 1];
      }
      FillAllKeeps(cfg, b1, tickets[1..], bars, at);
      HistoryTransitive(b.orders, b1.orders, FillAll(cfg, b, tickets, bars, at).orders);
      assert forall u :: u in tickets <==> u == tickets[0] || u in tickets[1..];
    }
  }

  lemma {:induction false} TicketsHaveOrders(capital: real, b: Ledger, tickets: seq<Ticket>)
    requires Inv(capital, b) && forall i :: 0 <= i < |tickets| ==> tickets[i] in b.pending
    ensures forall i :: 0 <= i < |tickets| ==> tickets[i].id < |b.orders|
    ensures TicketsKnown(b)
  {
    forall i | 0 <= i < |tickets| ensures tickets[i].id < |b.orders| {
      var k :| 0 <= k < |b.pending| && b.pending[k] == tickets[i];
      assert TicketOk(b.pending[k], b.orders);
    }
    forall i | 0 <= i < |b.pending| ensures b.pending[i].id < |b.orders| {
      assert TicketOk(b.pending[i], b.orders);
    }
  }

  /** A mark is legal when bar times strictly increase. */
  predicate Later(b: Ledger, at: int) {
    b.asOf.None? || b.asOf.value < at
  }

  lemma {:induction false} InvIncreasing(capital: real, b: Ledger)
    requires Inv(capital, b)
    ensures Increasing(b.pending)
  {}

  lemma {:induction false} MarkKeeps(cfg: Config, b: Ledger, at: int, session: int, bars: map<string, Bar>)
    requires Inv(cfg.capital, b) && Later(b, at)
    ensures TicketsKnown(b)
    ensures Inv(cfg.capital, MarkedToMarket(cfg, b, at, session, bars))
    ensures MarkedToMarket(cfg, b, at, session, bars).asOf == Some(at)
    ensures MarkedToMarket(cfg, b, at, session, bars).closes == b.closes + Closes(bars)
    ensures History(b.orders, MarkedToMarket(cfg, b, at, session, bars).orders)
    ensures forall u :: u in MarkedToMarket(cfg, b, at, session, bars).pending <==>
              u in b.pending && u.request.symbol !in bars
  {
    hide Inv, Later, Older, History, FillAll, Equity, Closes;
    TicketsHaveOrders(cfg.capital, b, []);
    var timed := Timed(b, at, session);
    TimedKeeps(cfg.capital, b, at, session);
    assert Increasing(b.pending) by { InvIncreasing(cfg.capital, b); }
    FillAllKeeps(cfg, timed, b.pending, bars, at);
    ReclosedKeeps(cfg.capital, FillAll(cfg, timed, b.pending, bars, at), Closes(bars));
  }

  ghost function Timed(b: Ledger, at: int, session: int): Ledger {
    (if b.session.Some? && session != b.session.value then b.(lastEquity := Equity(b)) else b)
      .(session := Some(session), asOf := Some(at))
  }

  lemma {:induction false} TimedKeeps(capital: real, b: Ledger, at: int, session: int)
    requires Inv(capital, b) && Later(b, at)
    ensures Inv(capital, Timed(b, at, session)) && Older(Timed(b, at, session), at)
  {
    hide Equity, Sum, Spent, Bought;
    var b' := Timed(b, at, session);
    forall i | 0 <= i < |b'.orders| ensures OrderOk(b'.orders[i], i, b'.asOf) {
      assert OrderOk(b.orders[i], i, b.asOf);
    }
    forall s ensures Held(b', s) == Sum(Bought(b'.orders, s)) {
      assert Held(b, s) == Sum(Bought(b.orders, s));
    }
    forall k | 0 <= k < |b'.pending| && b'.pending[k].id < |b'.orders| ensures b'.orders[b'.pending[k].id].submittedAt < at {
      assert OrderOk(b.orders[b.pending[k].id], b.pending[k].id, b.asOf);
    }
  }

  lemma {:induction false} ReclosedKeeps(capital: real, b: Ledger, closes: map<string, real>)
    requires Inv(capital, b)
    ensures Inv(capital, b.(closes := b.closes + closes))
  {
    hide Sum, Spent, Bought;
    var b' := b.(closes := b.closes + closes);
    forall s ensures Held(b', s) == Sum(Bought(b'.orders, s)) {
      assert Held(b, s) == Sum(Bought(b.orders, s));
    }
  }

  lemma {:induction false} SubmitKeeps(capital: real, b: Ledger, r: Request)
    requires Inv(capital, b) && Submitted(b, r).Success?
    ensures Inv(capital, Submitted(b, r).value)
    ensures History(b.orders, Submitted(b, r).value.orders)
  {
    hide Sum, Spent, Bought;
    var b' := Submitted(b, r).value;
    var o := b'.orders[|b.orders|];
    NothingAppended(b.orders, o);
    forall s ensures Held(b', s) == Sum(Bought(b'.orders, s)) {
      assert Held(b, s) == Sum(Bought(b.orders, s));
    }
    SubmitPends(b, r);
  }

  lemma {:induction false} SubmitPends(b: Ledger, r: Request)
    requires PendingExact(b) && Submitted(b, r).Success?
    ensures PendingExact(Submitted(b, r).value)
  {
    hide Pends;
    var b' := Submitted(b, r).value;
    var ticket := b'.pending[|b.pending|];
    forall k | 0 <= k < |b'.pending| ensures TicketOk(b'.pending[k], b'.orders) {
      if k < |b.pending| { assert TicketOk(b.pending[k], b.orders); }
    }
    forall i | 0 <= i < |b'.orders| && b'.orders[i].status == Accepted ensures Pends(b'.pending, i) {
      if i < |b.orders| { assert Pends(b.pending, i); }
      StillPends(b.pending, ticket, i);
    }
  }

  lemma {:induction false} StillPends(pending: seq<Ticket>, t: Ticket, id: nat)
    ensures Pends(pending, id) || t.id == id ==> Pends(pending + [t], id)
  {
    var more := pending + [t];
    assert more[|pending|] == t && forall k :: 0 <= k < |pending| ==> more[k] == pending[k];
  }

  lemma {:induction false} CancelKeeps(capital: real, b: Ledger, id: nat)
    requires Inv(capital, b) && id < |b.orders|
    ensures Inv(capital, Cancelled(b, id).value)
    ensures History(b.orders, Cancelled(b, id).value.orders)
    ensures forall t :: t in Cancelled(b, id).value.pending <==> t in b.pending && t.id != id
    ensures Cancelled(b, id).value == b.(orders := Cancelled(b, id).value.orders, pending := Cancelled(b, id).value.pending)
  {
    hide Solvent, Without, PendingExact;
    assert OrderOk(b.orders[id], id, b.asOf);
    if b.orders[id].status == Accepted {
      CancelSettles(capital, b, id);
    } else {
      NotPending(b, id);
    }
  }

  lemma {:induction false} CancelSettles(capital: real, b: Ledger, id: nat)
    requires Inv(capital, b) && id < |b.orders| && b.orders[id].status == Accepted
    ensures
      var b' := Cancelled(b, id).value;
      && Solvent(capital, b') && PendingExact(b')
      && forall t :: t in b'.pending <==> t in b.pending && t.id != id
  {
    hide Sum, Spent, Bought, OrdersOk;
    var b' := Cancelled(b, id).value;
    WithoutIs(b.pending, id);
    SettleKeepsPending(b, id, b'.orders[id], b');
    NothingFilled(b, id, b'.orders[id]);
    forall s ensures Held(b', s) == Sum(Bought(b'.orders, s)) {
      assert Held(b, s) == Sum(Bought(b.orders, s));
    }
  }

  lemma {:induction false} NotPending(b: Ledger, id: nat)
    requires PendingExact(b) && id < |b.orders| && b.orders[id].status != Accepted
    ensures forall t :: t in b.pending ==> t.id != id
  {
    forall t | t in b.pending ensures t.id != id {
      var k :| 0 <= k < |b.pending| && b.pending[k] == t;
      assert TicketOk(b.pending[k], b.orders);
    }
  }

  lemma {:induction false} CancelAllKeeps(capital: real, b: Ledger, tickets: seq<Ticket>)
    requires Inv(capital, b) && forall i :: 0 <= i < |tickets| ==> tickets[i].id < |b.orders|
    ensures Inv(capital, CancelledAll(b, tickets))
    ensures History(b.orders, CancelledAll(b, tickets).orders)
    ensures forall t :: t in CancelledAll(b, tickets).pending ==> t in b.pending && t !in tickets
    ensures CancelledAll(b, tickets) ==
              b.(orders := CancelledAll(b, tickets).orders, pending := CancelledAll(b, tickets).pending)
    decreases |tickets|
  {
    hide Inv;
    if tickets != [] {
      CancelKeeps(capital, b, tickets[0].id);
      var b1 := Cancelled(b, tickets[0].id).value;
      CancelAllKeeps(capital, b1, tickets[1..]);
      HistoryTransitive(b.orders, b1.orders, CancelledAll(b, tickets).orders);
    }
  }

  /** After `cancel_pending` nothing is pending and no order is ACCEPTED. */
  lemma {:induction false} CancelPendingEmpties(capital: real, b: Ledger)
    requires Inv(capital, b)
    ensures TicketsKnown(b)
    ensures CancelledAll(b, b.pending).pending == []
    ensures forall i :: 0 <= i < |CancelledAll(b, b.pending).orders| ==>
              CancelledAll(b, b.pending).orders[i].status != Accepted
  {
    TicketsHaveOrders(capital, b, []);
    CancelAllKeeps(capital, b, b.pending);
    var b' := CancelledAll(b, b.pending);
    HasMember(b'.pending);
  }

  lemma {:induction false} NewKeeps(cfg: Config)
    ensures Inv(cfg.capital, NewLedger(cfg))
  {
    assert Spent([]) == map[];
    SumEmpty<nat>();
    forall s ensures Sum(Bought([], s)) == 0.0 {
      assert Bought([], s) == map[];
    }
  }

  // ----------------------------------------------------------------- runs

  datatype Op =
    | Mark(at: int, session: int, bars: map<string, Bar>)
    | Submit(request: Request)
    | Cancel(id: nat)
    | CancelAll

  /** One client call; a refused call leaves the broker as it was. */
  ghost function After(cfg: Config, b: Ledger, op: Op): Ledger
    requires TicketsKnown(b)
  {
    match op
    case Mark(at, session, bars) => MarkedToMarket(cfg, b, at, session, bars)
    case Submit(r) => if Submitted(b, r).Success? then Submitted(b, r).value else b
    case Cancel(id) => if Cancelled(b, id).Success? then Cancelled(b, id).value else b
    case CancelAll => CancelledAll(b, b.pending)
  }

  ghost predicate Run(cfg: Config, states: seq<Ledger>, ops: seq<Op>) {
    && |states| == |ops| + 1 && states[0] == NewLedger(cfg)
    && forall i :: 0 <= i < |ops| ==>
         && TicketsKnown(states[i])
         && (ops[i].Mark? ==> Later(states[i], ops[i].at))
         && states[i + 1] == After(cfg, states[i], ops[i])
  }

  lemma {:induction false} AfterKeeps(cfg: Config, b: Ledger, op: Op)
    requires Inv(cfg.capital, b) && (op.Mark? ==> Later(b, op.at)) && TicketsKnown(b)
    ensures Inv(cfg.capital, After(cfg, b, op)) && History(b.orders, After(cfg, b, op).orders)
  {
    hide Inv, MarkedToMarket;
    match op
    case Mark(at, session, bars) => MarkKeeps(cfg, b, at, session, bars);
    case Submit(r) => if Submitted(b, r).Success? { SubmitKeeps(cfg.capital, b, r); }
    case Cancel(id) => if Cancelled(b, id).Success? { CancelKeeps(cfg.capital, b, id); }
    case CancelAll => CancelAllKeeps(cfg.capital, b, b.pending);
  }

  /**
   * Order lifecycle and conservation over every run of any client: the pending set is exactly the
   * ACCEPTED orders, terminal orders never change, fills are strictly later than submissions, and
   * cash and holdings are what the filled orders add up to, through averaging and crossing alike.
   */
  lemma {:induction false} EveryRunKeeps(cfg: Config, states: seq<Ledger>, ops: seq<Op>, i: nat, j: nat)
    requires Run(cfg, states, ops) && i <= j < |states|
    ensures Inv(cfg.capital, states[j])
    ensures History(states[i].orders, states[j].orders)
    decreases j
  {
    hide Inv, After, NewLedger;
    if j == 0 {
      NewKeeps(cfg);
    } else {
      EveryRunKeeps(cfg, states, ops, if i < j then i else j - 1, j - 1);
      AfterKeeps(cfg, states[j - 1], ops[j - 1]);
      if i < j {
        HistoryTransitive(states[i].orders, states[j - 1].orders, states[j].orders);
      }
    }
  }
}
