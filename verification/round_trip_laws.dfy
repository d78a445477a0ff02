/** Conservation laws of FIFO matching, and its agreement with a share-by-share simulation. */
module RoundTripLaws {
  import opened Wrappers
  import opened Trading
  import opened Collections
  import opened RoundTrips

  // --------------------------------------------------------- conservation

  /** Quantity times price, kept abstract where only its linearity in the quantity matters. */
  function Worth(qty: real, price: real): real {
    qty * price
  }

  lemma {:induction false} WorthSplits(a: real, b: real, price: real)
    ensures Worth(a + b, price) == Worth(a, price) + Worth(b, price)
    ensures Worth(a - b, price) == Worth(a, price) - Worth(b, price)
    ensures Worth(0.0, price) == 0.0
  {}

  lemma {:induction false} PnlIsWorth(entry: real, exit: real, qty: real)
    ensures Pnl(Long, entry, exit, qty) == Worth(qty, exit) - Worth(qty, entry)
    ensures Pnl(Short, entry, exit, qty) == Worth(qty, entry) - Worth(qty, exit)
  {}

  function LotQty(lots: seq<Lot>): real {
    if lots == [] then 0.0 else lots[0].qty + LotQty(lots[1..])
  }

  function LotCost(lots: seq<Lot>): real {
    if lots == [] then 0.0 else Worth(lots[0].qty, lots[0].price) + LotCost(lots[1..])
  }

  /** What a list of lots has gained at a given mark, lot by lot. */
  function LotGain(lots: seq<Lot>, mark: real): real {
    if lots == [] then 0.0 else lots[0].qty * (mark - lots[0].price) + LotGain(lots[1..], mark)
  }

  function NetQty(b: Book): real {
    LotQty(b.longs) - LotQty(b.shorts)
  }

  function Cost(b: Book): real {
    LotCost(b.longs) - LotCost(b.shorts)
  }

  /** Signed quantity times (mark minus lot price), over all open lots of a symbol. */
  function Gain(b: Book, mark: real): real {
    LotGain(b.longs, mark) - LotGain(b.shorts, mark)
  }

  function TotalPnl(trips: seq<Trip>): real {
    if trips == [] then 0.0 else trips[0].pnl + TotalPnl(trips[1..])
  }

  /** The cash a list of trades has moved. */
  function CashFlow(trades: seq<Trade>): real {
    if trades == [] then 0.0 else
      CashFlow(trades[..|trades| - 1]) - Worth(Delta(trades[|trades| - 1]), trades[|trades| - 1].price)
  }

  /** The signed quantity a list of trades has traded in one symbol. */
  function Traded(trades: seq<Trade>, symbol: string): real {
    if trades == [] then 0.0 else
      Traded(trades[..|trades| - 1], symbol) + TradedBy(trades[|trades| - 1], symbol)
  }

  function TradedBy(t: Trade, symbol: string): real {
    if t.symbol == symbol then Delta(t) else 0.0
  }

  predicate Sized(trades: seq<Trade>) {
    forall i :: 0 <= i < |trades| ==> trades[i].qty >= 0.0
  }

  lemma {:induction false} LotGainIs(lots: seq<Lot>, mark: real)
    ensures LotGain(lots, mark) == Worth(LotQty(lots), mark) - LotCost(lots)
  {
    if lots != [] {
      LotGainIs(lots[1..], mark);
      WorthSplits(lots[0].qty, LotQty(lots[1..]), mark);
      PnlIsWorth(lots[0].price, mark, lots[0].qty);
      assert lots[0].qty * (mark - lots[0].price) == Pnl(Long, lots[0].price, mark, lots[0].qty);
    }
  }

  lemma {:induction false} PnlConcat(a: seq<Trip>, b: seq<Trip>)
    ensures TotalPnl(a + b) == TotalPnl(a) + TotalPnl(b)
  {
    if a == [] {
      assert a + b == b;
    } else {
      assert (a + b)[1..] == a[1..] + b;
      PnlConcat(a[1..], b);
    }
  }

  lemma {:induction false} LotsConcat(a: seq<Lot>, b: seq<Lot>)
    ensures LotQty(a + b) == LotQty(a) + LotQty(b)
    ensures LotCost(a + b) == LotCost(a) + LotCost(b)
  {
    if a == [] {
      assert a + b == b;
    } else {
      assert (a + b)[1..] == a[1..] + b;
      LotsConcat(a[1..], b);
    }
  }

  /** Realized P&L of closing `closed` shares at `price` out of lots that cost `cost`. */
  function Realized(side: Side, closed: real, price: real, cost: real): real {
    if side == Sell then Worth(closed, price) - cost else cost - Worth(closed, price)
  }

  /** Closing moves exactly the matched quantity and its cost out of the queue, into P&L. */
  lemma {:induction false} CloseConserves(lots: seq<Lot>, remaining: real, t: Trade, d: Option<Decision>)
    requires Positive(lots) && remaining >= 0.0
    ensures Close(lots, remaining, t, d).remaining >= 0.0
    ensures LotQty(lots) - LotQty(Close(lots, remaining, t, d).lots) == remaining - Close(lots, remaining, t, d).remaining
    ensures TotalPnl(Close(lots, remaining, t, d).trips) ==
              Realized(t.side, remaining - Close(lots, remaining, t, d).remaining, t.price,
                       LotCost(lots) - LotCost(Close(lots, remaining, t, d).lots))
    decreases |lots|, remaining > 0.0
  {
    hide Worth, Close, LotQty, LotCost, TotalPnl, Realized, TripOf;
    if remaining > 0.0 && lots != [] {
      CloseUnfolds(lots, remaining, t, d);
      var lot := lots[0];
      var matched := MinReal(remaining, lot.qty);
      var left := lot.qty - matched;
      var next := if left == 0.0 then lots[1..] else [lot.(qty := left)] + lots[1..];
      CloseConserves(next, remaining - matched, t, d);
      var rest := Close(next, remaining - matched, t, d);
      NextLots(lots, left);
      PnlCons(TripOf(lot, t, matched, d), rest.trips);
      TripRealizes(lot, t, matched, d);
      RealizedAdds(t.side, t.price, matched, Worth(matched, lot.price),
                   remaining - matched - rest.remaining, LotCost(next) - LotCost(rest.lots));
    } else {
      NothingCloses(lots, remaining, t, d);
    }
  }

  lemma {:induction false} NothingCloses(lots: seq<Lot>, remaining: real, t: Trade, d: Option<Decision>)
    requires Positive(lots) && remaining >= 0.0 && !(remaining > 0.0 && lots != [])
    ensures Close(lots, remaining, t, d).lots == lots && Close(lots, remaining, t, d).remaining == remaining
    ensures TotalPnl(Close(lots, remaining, t, d).trips) == 0.0 == Realized(t.side, 0.0, t.price, 0.0)
  {
    hide Worth;
    WorthSplits(0.0, 0.0, t.price);
  }

  lemma {:induction false} TripRealizes(lot: Lot, t: Trade, matched: real, d: Option<Decision>)
    ensures TripOf(lot, t, matched, d).pnl == Realized(t.side, matched, t.price, Worth(matched, lot.price))
  {
    hide Worth, Pnl;
    PnlIsWorth(lot.price, t.price, matched);
  }

  lemma {:induction false} RealizedAdds(side: Side, price: real, a: real, costA: real, b: real, costB: real)
    ensures Realized(side, a + b, price, costA + costB) == Realized(side, a, price, costA) + Realized(side, b, price, costB)
  {
    hide Worth;
    WorthSplits(a, b, price);
  }

  lemma {:induction false} PnlCons(trip: Trip, trips: seq<Trip>)
    ensures TotalPnl([trip] + trips) == trip.pnl + TotalPnl(trips)
  {
    assert ([trip] + trips)[1..] == trips;
  }

  lemma {:induction false} NextLots(lots: seq<Lot>, left: real)
    requires lots != []
    ensures LotQty(if left == 0.0 then lots[1..] else [lots[0].(qty := left)] + lots[1..]) == LotQty(lots) - lots[0].qty + left
    ensures LotCost(if left == 0.0 then lots[1..] else [lots[0].(qty := left)] + lots[1..]) ==
              LotCost(lots) - Worth(lots[0].qty - left, lots[0].price)
  {
    hide Worth;
    WorthSplits(lots[0].qty, left, lots[0].price);
    var changed := [lots[0].(qty := left)] + lots[1..];
    assert changed[1..] == lots[1..];
  }

  /** One trade moves its symbol's position by its delta, and cost by its value plus realized P&L. */
  lemma {:induction false} ApplyConserves(s: State, t: Trade, d: Option<Decision>)
    requires forall k :: k in s.books ==> OneSided(s.books[k])
    requires t.qty >= 0.0
    ensures NetQty(BookOf(Apply(s, t, d).books, t.symbol)) == NetQty(BookOf(s.books, t.symbol)) + Delta(t)
    ensures Cost(BookOf(Apply(s, t, d).books, t.symbol)) ==
              Cost(BookOf(s.books, t.symbol)) + Worth(Delta(t), t.price) + TotalPnl(Apply(s, t, d).trips) - TotalPnl(s.trips)
  {
    hide Worth, Close, LotQty, LotCost, TotalPnl;
    var b := BookOf(s.books, t.symbol);
    assert OneSided(b);
    var closing := if t.side == Buy then b.shorts else b.longs;
    var own := if t.side == Buy then b.longs else b.shorts;
    CloseConserves(closing, t.qty, t, d);
    var c := Close(closing, t.qty, t, d);
    PnlConcat(s.trips, c.trips);
    var added := if c.remaining > 0.0 then [Lot(c.remaining, t.price, t.at, d)] else [];
    AddedLot(added, c.remaining, t.price);
    LotsConcat(own, added);
    WorthSplits(t.qty, c.remaining, t.price);
    WorthSplits(0.0, t.qty, t.price);
    assert Delta(t) == if t.side == Buy then t.qty else 0.0 - t.qty;
  }

  lemma {:induction false} AddedLot(added: seq<Lot>, remaining: real, price: real)
    requires remaining >= 0.0
    requires if remaining > 0.0 then |added| == 1 && added[0].qty == remaining && added[0].price == price else added == []
    ensures LotQty(added) == remaining && LotCost(added) == Worth(remaining, price)
  {
    assert remaining == 0.0 ==> Worth(remaining, price) == 0.0;
    assert added != [] ==> added[1..] == [];
  }

  ghost function Costs(books: map<string, Book>): map<string, real> {
    map s | s in books :: Cost(books[s])
  }

  ghost function Gains(books: map<string, Book>, mark: string -> real): map<string, real> {
    map s | s in books :: Gain(books[s], mark(s))
  }

  ghost function Values(books: map<string, Book>, mark: string -> real): map<string, real> {
    map s | s in books :: Worth(NetQty(books[s]), mark(s))
  }

  /** Leftover lots sum to what was traded, and their cost to cash spent plus realized P&L. */
  lemma {:induction false} MatchingConserves(trades: seq<Trade>, ds: seq<Decision>)
    requires Sized(trades)
    ensures forall s :: NetQty(BookOf(Matched(trades, ds).books, s)) == Traded(trades, s)
    ensures Sum(Costs(Matched(trades, ds).books)) == TotalPnl(Matched(trades, ds).trips) - CashFlow(trades)
  {
    hide Worth, Close, Sum, Cost, NetQty, DecisionBefore, OneSided, Delta;
    if trades != [] {
      var front, t := trades[..|trades| - 1], trades[|trades| - 1];
      MatchingConserves(front, ds);
      MatchedStep(Matched(front, ds), trades, ds);
    } else {
      EmptyBook();
      assert Costs(map[]) == map[];
      SumEmpty<string>();
    }
  }

  lemma {:induction false} EmptyBook()
    ensures NetQty(Book([], [])) == 0.0
    ensures Cost(Book([], [])) == 0.0
  {}

  lemma {:induction false} MatchedStep(before: State, trades: seq<Trade>, ds: seq<Decision>)
    requires trades != [] && Sized(trades) && before == Matched(trades[..|trades| - 1], ds)
    requires forall s :: NetQty(BookOf(before.books, s)) == Traded(trades[..|trades| - 1], s)
    requires Sum(Costs(before.books)) == TotalPnl(before.trips) - CashFlow(trades[..|trades| - 1])
    ensures forall s :: NetQty(BookOf(Matched(trades, ds).books, s)) == Traded(trades, s)
    ensures Sum(Costs(Matched(trades, ds).books)) == TotalPnl(Matched(trades, ds).trips) - CashFlow(trades)
  {
    hide Worth, Close, Sum, Cost, NetQty, DecisionBefore, OneSided, Delta, TotalPnl, BookOf, Costs, Apply;
    var t := trades[|trades| - 1];
    var d := DecisionBefore(ds, t.symbol, t.side, t.at);
    ApplyConserves(before, t, d);
    forall s ensures s != t.symbol ==> BookOf(Apply(before, t, d).books, s) == BookOf(before.books, s) {
      OthersStay(before, t, d, s);
    }
    CostsMove(before, t, d);
  }

  lemma {:induction false} OthersStay(s: State, t: Trade, d: Option<Decision>, symbol: string)
    requires forall k :: k in s.books ==> OneSided(s.books[k])
    ensures symbol != t.symbol ==> BookOf(Apply(s, t, d).books, symbol) == BookOf(s.books, symbol)
  {
    hide Close, OneSided;
  }

  /** Only the traded symbol's cost moves. */
  lemma {:induction false} CostsMove(s: State, t: Trade, d: Option<Decision>)
    requires forall k :: k in s.books ==> OneSided(s.books[k])
    ensures Sum(Costs(Apply(s, t, d).books)) ==
              Sum(Costs(s.books)) + Cost(BookOf(Apply(s, t, d).books, t.symbol)) - Cost(BookOf(s.books, t.symbol))
  {
    hide Close, OneSided, Sum, Cost;
    var after := Apply(s, t, d);
    SumAssign(Costs(s.books), t.symbol, Cost(after.books[t.symbol]));
    assert Costs(after.books) == Costs(s.books)[t.symbol := Cost(after.books[t.symbol])];
    EmptyBook();
  }

  lemma {:induction false} GainsAreValuesLessCosts(books: map<string, Book>, mark: string -> real)
    ensures Sum(Gains(books, mark)) == Sum(Values(books, mark)) - Sum(Costs(books))
    decreases |books|
  {
    hide Worth, Sum, Cost, NetQty, Gain;
    if books == map[] {
      assert Gains(books, mark) == map[] && Values(books, mark) == map[] && Costs(books) == map[];
      SumEmpty<string>();
    } else {
      NonEmpty(books.Keys);
      var s :| s in books;
      GainsAreValuesLessCosts(books - {s}, mark);
      SumTakeOut(Gains(books, mark), s);
      SumTakeOut(Values(books, mark), s);
      SumTakeOut(Costs(books), s);
      assert Gains(books, mark) - {s} == Gains(books - {s}, mark);
      assert Values(books, mark) - {s} == Values(books - {s}, mark);
      assert Costs(books) - {s} == Costs(books - {s});
      GainIs(books[s], mark(s));
    }
  }

  lemma {:induction false} GainIs(b: Book, mark: real)
    ensures Gain(b, mark) == Worth(NetQty(b), mark) - Cost(b)
  {
    hide Worth, LotQty, LotCost, LotGain;
    LotGainIs(b.longs, mark);
    LotGainIs(b.shorts, mark);
    WorthSplits(LotQty(b.longs), LotQty(b.shorts), mark);
  }

  /**
   * The P&L identity: cash moved by the trades plus the marked value of what they leave open equals
   * realized round-trip P&L plus the unrealized gain of the leftover lots, at any marks.
   */
  lemma {:induction false} PnlIdentity(trades: seq<Trade>, ds: seq<Decision>, mark: string -> real)
    requires Sized(trades)
    ensures CashFlow(trades) + Sum(Values(Matched(trades, ds).books, mark)) ==
              TotalPnl(Matched(trades, ds).trips) + Sum(Gains(Matched(trades, ds).books, mark))
  {
    hide Worth, Sum, NetQty, Cost, Gain, Values, Gains, Costs, Matched;
    MatchingConserves(trades, ds);
    GainsAreValuesLessCosts(Matched(trades, ds).books, mark);
  }

  // ---------------------------------------------------------------- order

  lemma {:induction false} SizedFront(trades: seq<Trade>)
    requires trades != []
    ensures Sized(trades) ==> Sized(trades[..|trades| - 1]) && trades[|trades| - 1].qty >= 0.0
  {}

  /** Sorting trades by time moves no cash and no shares. */
  lemma {:induction false} SortingConserves(trades: seq<Trade>)
    ensures CashFlow(ByTime(trades)) == CashFlow(trades)
    ensures forall s :: Traded(ByTime(trades), s) == Traded(trades, s)
    ensures Sized(trades) ==> Sized(ByTime(trades))
  {
    hide Worth, Delta, TradedBy, InsertTrade, Sized;
    if trades != [] {
      assert Sized(trades) ==> Sized(trades[..|trades| - 1]) && trades[|trades| - 1].qty >= 0.0 by { SizedFront(trades); }
      SortingConserves(trades[..|trades| - 1]);
      InsertConserves(ByTime(trades[..|trades| - 1]), trades[|trades| - 1]);
    }
  }

  lemma {:induction false} InsertConserves(ts: seq<Trade>, t: Trade)
    requires InOrder(ts)
    ensures CashFlow(InsertTrade(ts, t)) == CashFlow(ts) - Worth(Delta(t), t.price)
    ensures forall s :: Traded(InsertTrade(ts, t), s) == Traded(ts, s) + TradedBy(t, s)
    ensures Sized(ts) && t.qty >= 0.0 ==> Sized(InsertTrade(ts, t))
  {
    hide Worth, Delta, TradedBy;
    var r := InsertTrade(ts, t);
    if ts == [] || ts[|ts| - 1].at <= t.at {
      assert r[..|ts|] == ts;
    } else {
      var front := ts[..|ts| - 1];
      InsertConserves(front, t);
      assert r[..|r| - 1] == InsertTrade(front, t);
    }
  }

  /** No round trip closes before it opens, and its ends are attributed to earlier decisions only. */
  predicate Causal(trip: Trip) {
    && trip.openedAt <= trip.closedAt
    && trip.qty > 0.0
    && (trip.direction == Long || trip.direction == Short)
    && (trip.exit.Some? ==> trip.exit.value.at < trip.closedAt && trip.exit.value.symbol == trip.symbol)
    && (trip.entry.Some? ==> trip.entry.value.at < trip.openedAt && trip.entry.value.symbol == trip.symbol)
  }

  predicate AllCausal(trips: seq<Trip>) {
    forall i :: 0 <= i < |trips| ==> Causal(trips[i])
  }

  predicate LotCausal(lot: Lot, symbol: string, at: int) {
    && lot.openedAt <= at
    && (lot.decision.Some? ==> lot.decision.value.at < lot.openedAt && lot.decision.value.symbol == symbol)
  }

  predicate LotsCausal(lots: seq<Lot>, symbol: string, at: int) {
    forall i :: 0 <= i < |lots| ==> LotCausal(lots[i], symbol, at)
  }

  /** Every open lot of a symbol was opened by `at`, after the decision it is attributed to. */
  predicate BookCausal(b: Book, symbol: string, at: int) {
    LotsCausal(b.longs, symbol, at) && LotsCausal(b.shorts, symbol, at)
  }

  ghost predicate BooksCausal(books: map<string, Book>, at: int) {
    forall s :: s in books ==> BookCausal(books[s], s, at)
  }

  lemma {:induction false} CloseCausal(lots: seq<Lot>, remaining: real, t: Trade, d: Option<Decision>)
    requires Positive(lots) && LotsCausal(lots, t.symbol, t.at) && Precedes(d, t)
    ensures LotsCausal(Close(lots, remaining, t, d).lots, t.symbol, t.at)
    ensures AllCausal(Close(lots, remaining, t, d).trips)
    decreases |lots|, remaining > 0.0
  {
    if remaining > 0.0 && lots != [] {
      var lot := lots[0];
      var matched := MinReal(remaining, lot.qty);
      var left := lot.qty - matched;
      assert LotCausal(lot, t.symbol, t.at);
      CloseCausal(if left == 0.0 then lots[1..] else [lot.(qty := left)] + lots[1..], remaining - matched, t, d);
    }
  }

  /** A decision used for a trade precedes it. */
  predicate Precedes(d: Option<Decision>, t: Trade) {
    d.Some? ==> d.value.at < t.at && d.value.symbol == t.symbol
  }

  /** Over any chronological trades and any decisions, nothing is attributed to the future. */
  lemma {:induction false} MatchingIsCausal(trades: seq<Trade>, ds: seq<Decision>, at: int)
    requires InOrder(trades) && forall i :: 0 <= i < |trades| ==> trades[i].at <= at
    ensures AllCausal(Matched(trades, ds).trips)
    ensures BooksCausal(Matched(trades, ds).books, at)
  {
    hide DecisionBefore, OneSided, Causal, LotCausal;
    if trades != [] {
      var front, t := trades[..|trades| - 1], trades[|trades| - 1];
      MatchingIsCausal(front, ds, t.at);
      var before := Matched(front, ds);
      ApplyCausal(before, t, DecisionBefore(ds, t.symbol, t.side, t.at));
      LaterStillCausal(Matched(trades, ds).books, t.at, at);
    }
  }

  lemma {:induction false} LaterStillCausal(books: map<string, Book>, at: int, later: int)
    requires BooksCausal(books, at) && at <= later
    ensures BooksCausal(books, later)
  {
    forall s | s in books ensures BookCausal(books[s], s, later) {
      assert BookCausal(books[s], s, at);
    }
  }

  lemma {:induction false} ApplyCausal(s: State, t: Trade, d: Option<Decision>)
    requires forall k :: k in s.books ==> OneSided(s.books[k])
    requires BooksCausal(s.books, t.at) && Precedes(d, t) && AllCausal(s.trips)
    ensures BooksCausal(Apply(s, t, d).books, t.at) && AllCausal(Apply(s, t, d).trips)
  {
    hide Causal, LotCausal, AllCausal, Close;
    var b := BookOf(s.books, t.symbol);
    assert OneSided(b) && BookCausal(b, t.symbol, t.at);
    BookStaysCausal(s, t, d);
  }

  lemma {:induction false} BookStaysCausal(s: State, t: Trade, d: Option<Decision>)
    requires forall k :: k in s.books ==> OneSided(s.books[k])
    requires BookCausal(BookOf(s.books, t.symbol), t.symbol, t.at) && Precedes(d, t) && AllCausal(s.trips)
    ensures BookCausal(BookOf(Apply(s, t, d).books, t.symbol), t.symbol, t.at)
    ensures AllCausal(Apply(s, t, d).trips)
  {
    hide Close, Causal, LotsCausal, AllCausal;
    var b := BookOf(s.books, t.symbol);
    assert OneSided(b);
    var closing, own := if t.side == Buy then b.shorts else b.longs, if t.side == Buy then b.longs else b.shorts;
    CloseCausal(closing, t.qty, t, d);
    var c := Close(closing, t.qty, t, d);
    AppendCausal(s.trips, c.trips, own, Lot(c.remaining, t.price, t.at, d), t.symbol, t.at);
    assert own + [] == own;
  }

  lemma {:induction false} AppendCausal(a: seq<Trip>, b: seq<Trip>, lots: seq<Lot>, lot: Lot, symbol: string, at: int)
    requires AllCausal(a) && AllCausal(b) && LotsCausal(lots, symbol, at) && LotCausal(lot, symbol, at)
    ensures AllCausal(a + b) && LotsCausal(lots + [lot], symbol, at)
  {}
}
