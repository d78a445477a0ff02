/** Where every round trip comes from: the two trades it joins and the decisions behind them. */
module TripEnds {
  import opened Wrappers
  import opened Trading
  import opened RoundTrips

  // ------------------------------------------------------------ decisions

  predicate Matches(d: Decision, symbol: string, side: Side, ts: int) {
    d.symbol == symbol && d.side == Some(side) && d.at < ts
  }

  /** Decision `k` of the log is behind a fill: the latest that matches it, the last of those at one time. */
  predicate Behind(ds: seq<Decision>, k: nat, symbol: string, side: Side, ts: int) {
    && k < |ds| && Matches(ds[k], symbol, side, ts)
    && forall m :: 0 <= m < |ds| && Matches(ds[m], symbol, side, ts) ==>
         ds[m].at < ds[k].at || (ds[m].at == ds[k].at && m <= k)
  }

  predicate NothingBehind(ds: seq<Decision>, symbol: string, side: Side, ts: int) {
    forall m :: 0 <= m < |ds| ==> !Matches(ds[m], symbol, side, ts)
  }

  predicate Attributed(ds: seq<Decision>, symbol: string, side: Side, ts: int, r: Option<Decision>) {
    if r.Some? then exists k :: 0 <= k < |ds| && ds[k] == r.value && Behind(ds, k, symbol, side, ts)
    else NothingBehind(ds, symbol, side, ts)
  }

  /** A decision's place in a list: behind all that are not later. */
  predicate EntersAt(records: seq<Decision>, d: Decision, p: nat) {
    && p <= |records| && (forall i :: 0 <= i < p ==> records[i].at <= d.at)
    && forall i :: p <= i < |records| ==> d.at < records[i].at
  }

  function Entered(records: seq<Decision>, d: Decision, p: nat): seq<Decision>
    requires p <= |records|
  {
    records[..p] + [d] + records[p..]
  }

  lemma {:induction false} InsertedAt(records: seq<Decision>, d: Decision) returns (p: nat)
    requires Chronological(records)
    ensures p <= |records| && EntersAt(records, d, p) && InsertDecision(records, d) == Entered(records, d, p)
  {
    hide EntersAt, Entered, InsertDecision;
    if records == [] || records[|records| - 1].at <= d.at {
      p := |records|;
      AllBefore(records, d);
    } else {
      InsertUnfolds(records, d);
      hide Chronological;
      var front, last := records[..|records| - 1], records[|records| - 1];
      p := InsertedAt(front, d);
      EntersFront(front, last, d, p);
      assert records == front + [last];
    }
  }

  lemma {:induction false} EntersFront(front: seq<Decision>, last: Decision, d: Decision, p: nat)
    requires p <= |front| && EntersAt(front, d, p) && d.at < last.at
    ensures EntersAt(front + [last], d, p)
    ensures Entered(front, d, p) + [last] == Entered(front + [last], d, p)
  {
    assert (front + [last])[..p] == front[..p] && (front + [last])[p..] == front[p..] + [last];
  }

  lemma {:induction false} InsertUnfolds(records: seq<Decision>, d: Decision)
    requires Chronological(records) && records != [] && records[|records| - 1].at > d.at
    ensures Chronological(records[..|records| - 1])
    ensures InsertDecision(records, d) == InsertDecision(records[..|records| - 1], d) + [records[|records| - 1]]
  {}

  lemma {:induction false} AllBefore(records: seq<Decision>, d: Decision)
    requires Chronological(records) && (records == [] || records[|records| - 1].at <= d.at)
    ensures EntersAt(records, d, |records|) && InsertDecision(records, d) == Entered(records, d, |records|)
  {
    assert records[..|records|] + [d] + records[|records|..] == records + [d];
  }

  predicate Cut(records: seq<Decision>, ts: int, k: nat) {
    && k <= |records| && (forall i :: 0 <= i < k ==> records[i].at < ts)
    && forall i :: k <= i < |records| ==> ts <= records[i].at
  }

  lemma {:induction false} OneCut(records: seq<Decision>, ts: int, j: nat, k: nat)
    requires Cut(records, ts, j) && Cut(records, ts, k)
    ensures j == k
  {
    assert j < |records| ==> ts <= records[j].at;
    assert k < |records| ==> ts <= records[k].at;
  }

  /** What the decision behind the fill's time becomes when one more decision enters the list. */
  lemma {:induction false} InsertedEarlier(records: seq<Decision>, d: Decision, ts: int)
    requires Chronological(records)
    ensures
      var k, after := Earlier(records, ts), InsertDecision(records, d);
      && Earlier(after, ts) == (if d.at < ts then k + 1 else k) && |after| == |records| + 1
      && (d.at >= ts && k > 0 ==> after[k - 1] == records[k - 1])
      && (d.at < ts ==> after[k] == if k > 0 && records[k - 1].at > d.at then records[k - 1] else d)
  {
    var k, after := Earlier(records, ts), InsertDecision(records, d);
    hide Earlier, InsertDecision, Chronological, Cut, EntersAt, Entered;
    var p := InsertedAt(records, d);
    assert Cut(records, ts, k) by { EarlierCuts(records, ts); }
    assert Cut(after, ts, Earlier(after, ts)) by { EarlierCuts(after, ts); }
    CutMoves(records, d, p, ts, k);
    OneCut(after, ts, Earlier(after, ts), if d.at < ts then k + 1 else k);
  }

  lemma {:induction false} EarlierCuts(records: seq<Decision>, ts: int)
    requires Chronological(records)
    ensures Cut(records, ts, Earlier(records, ts))
  {
    hide Earlier;
  }

  lemma {:induction false} CutMoves(records: seq<Decision>, d: Decision, p: nat, ts: int, k: nat)
    requires p <= |records| && EntersAt(records, d, p) && Cut(records, ts, k)
    ensures
      var after := Entered(records, d, p);
      && Cut(after, ts, if d.at < ts then k + 1 else k)
      && (d.at >= ts && k > 0 ==> after[k - 1] == records[k - 1])
      && (d.at < ts ==> after[k] == if k > 0 && records[k - 1].at > d.at then records[k - 1] else d)
  {
    var after := Entered(records, d, p);
    assert forall i :: 0 <= i < |after| ==> after[i] == if i < p then records[i] else if i == p then d else records[i - 1];
    assert k < |records| ==> ts <= records[k].at;
    assert p < |records| ==> d.at < records[p].at;
  }

  /** One more logged decision takes over exactly when it matches and is no earlier than the one behind so far. */
  lemma {:induction false} DecisionStep(ds: seq<Decision>, symbol: string, side: Side, ts: int)
    requires ds != []
    ensures
      var before, last := DecisionBefore(ds[..|ds| - 1], symbol, side, ts), ds[|ds| - 1];
      DecisionBefore(ds, symbol, side, ts) ==
        if Matches(last, symbol, side, ts) && (before.None? || before.value.at <= last.at) then Some(last) else before
  {
    var front, last := ds[..|ds| - 1], ds[|ds| - 1];
    DecisionIsNewest(front, symbol, side, ts);
    DecisionIsNewest(ds, symbol, side, ts);
    RelevantStep(ds, symbol, side);
    NewestStep(Relevant(front, symbol, side), last, ts);
    hide *;
  }

  function Newest(records: seq<Decision>, ts: int): Option<Decision>
    requires Chronological(records)
  {
    if Earlier(records, ts) > 0 then Some(records[Earlier(records, ts) - 1]) else None
  }

  lemma {:induction false} DecisionIsNewest(ds: seq<Decision>, symbol: string, side: Side, ts: int)
    ensures DecisionBefore(ds, symbol, side, ts) == Newest(Relevant(ds, symbol, side), ts)
  {
    hide Relevant, Earlier, Chronological;
  }

  lemma {:induction false} NewestStep(records: seq<Decision>, last: Decision, ts: int)
    requires Chronological(records)
    ensures
      var before := Newest(records, ts);
      Newest(InsertDecision(records, last), ts) ==
        if last.at < ts && (before.None? || before.value.at <= last.at) then Some(last) else before
  {
    hide Earlier, InsertDecision, Chronological;
    InsertedEarlier(records, last, ts);
  }

  lemma {:induction false} RelevantStep(ds: seq<Decision>, symbol: string, side: Side)
    requires ds != []
    ensures
      var front, last := Relevant(ds[..|ds| - 1], symbol, side), ds[|ds| - 1];
      Relevant(ds, symbol, side) ==
        if last.symbol == symbol && last.side == Some(side) then InsertDecision(front, last) else front
  {
    hide InsertDecision, Chronological;
  }

  /** A fill is attributed to the latest decision of its symbol and side strictly before it, and to none if there is none. */
  lemma {:induction false} DecisionIsBehind(ds: seq<Decision>, symbol: string, side: Side, ts: int)
    ensures Attributed(ds, symbol, side, ts, DecisionBefore(ds, symbol, side, ts))
  {
    hide DecisionBefore, Attributed;
    if ds == [] {
      NoDecisions(symbol, side, ts);
    } else {
      var front := ds[..|ds| - 1];
      DecisionIsBehind(front, symbol, side, ts);
      DecisionStep(ds, symbol, side, ts);
      assert ds == front + [ds[|ds| - 1]];
      AttributedStep(front, ds[|ds| - 1], symbol, side, ts, DecisionBefore(front, symbol, side, ts));
    }
  }

  lemma {:induction false} NoDecisions(symbol: string, side: Side, ts: int)
    ensures Attributed([], symbol, side, ts, DecisionBefore([], symbol, side, ts))
  {}

  lemma {:induction false} AttributedStep(
    front: seq<Decision>, last: Decision, symbol: string, side: Side, ts: int, before: Option<Decision>)
    requires Attributed(front, symbol, side, ts, before)
    ensures
      var takes := Matches(last, symbol, side, ts) && (before.None? || before.value.at <= last.at);
      Attributed(front + [last], symbol, side, ts, if takes then Some(last) else before)
  {
    var ds := front + [last];
    assert ds[|front|] == last && forall m :: 0 <= m < |front| ==> ds[m] == front[m];
    var takes := Matches(last, symbol, side, ts) && (before.None? || before.value.at <= last.at);
    if takes {
      assert Behind(ds, |front|, symbol, side, ts);
    } else if before.Some? {
      var k :| 0 <= k < |front| && front[k] == before.value && Behind(front, k, symbol, side, ts);
      assert ds[k] == before.value && Behind(ds, k, symbol, side, ts);
    }
  }

  // -------------------------------------------------------------- sorting

  /** The trades of one time, in their given order. */
  function AtTime(trades: seq<Trade>, ts: int): seq<Trade> {
    if trades == [] then [] else
      var last := trades[|trades| - 1];
      AtTime(trades[..|trades| - 1], ts) + if last.at == ts then [last] else []
  }

  /** Sorting by time is stable: the trades of each time keep their order. */
  lemma {:induction false} SortIsStable(trades: seq<Trade>, ts: int)
    ensures AtTime(ByTime(trades), ts) == AtTime(trades, ts)
  {
    hide InsertTrade;
    if trades != [] {
      SortIsStable(trades[..|trades| - 1], ts);
      InsertIsStable(ByTime(trades[..|trades| - 1]), trades[|trades| - 1], ts);
    }
  }

  lemma {:induction false} InsertIsStable(sorted: seq<Trade>, t: Trade, ts: int)
    requires InOrder(sorted)
    ensures AtTime(InsertTrade(sorted, t), ts) == AtTime(sorted, ts) + if t.at == ts then [t] else []
  {
    if sorted == [] || sorted[|sorted| - 1].at <= t.at {
      AtTimeMore(sorted, t, ts);
    } else {
      var front, last := sorted[..|sorted| - 1], sorted[|sorted| - 1];
      InsertIsStable(front, t, ts);
      AtTimeMore(InsertTrade(front, t), last, ts);
      AtTimeMore(front, last, ts);
      hide AtTime;
      assert front + [last] == sorted && last.at != t.at;
      assert AtTime(front, ts) + [] == AtTime(front, ts);
    }
  }

  lemma {:induction false} AtTimeMore(trades: seq<Trade>, last: Trade, ts: int)
    ensures AtTime(trades + [last], ts) == AtTime(trades, ts) + if last.at == ts then [last] else []
  {
    assert (trades + [last])[..|trades|] == trades;
  }

  // ----------------------------------------------------------------- ends

  /** A lot is what a trade of its symbol and side opened. */
  ghost predicate OpenedBy(lot: Lot, t: Trade, symbol: string, side: Side, ds: seq<Decision>) {
    && t.symbol == symbol && t.side == side && t.at == lot.openedAt && t.price == lot.price
    && 0.0 < lot.qty <= t.qty && Attributed(ds, symbol, side, t.at, lot.decision)
  }

  ghost predicate LotFrom(lot: Lot, trades: seq<Trade>, symbol: string, side: Side, ds: seq<Decision>) {
    exists i :: 0 <= i < |trades| && OpenedBy(lot, trades[i], symbol, side, ds)
  }

  ghost predicate LotsFrom(lots: seq<Lot>, trades: seq<Trade>, symbol: string, side: Side, ds: seq<Decision>) {
    forall k :: 0 <= k < |lots| ==> LotFrom(lots[k], trades, symbol, side, ds)
  }

  ghost predicate BookFrom(b: Book, trades: seq<Trade>, symbol: string, ds: seq<Decision>) {
    LotsFrom(b.longs, trades, symbol, Buy, ds) && LotsFrom(b.shorts, trades, symbol, Sell, ds)
  }

  /**
   * A trip joins its entry to its exit: two trades of its symbol on opposite sides, at its times and
   * prices; it is long exactly when it was entered by buying, gains what the price moved in its
   * favour on each share, and its two decisions are the ones behind those trades.
   */
  ghost predicate Joins(trip: Trip, entry: Trade, exit: Trade, ds: seq<Decision>) {
    && entry.symbol == trip.symbol && entry.at == trip.openedAt && entry.price == trip.entryPrice
    && exit.symbol == trip.symbol && exit.at == trip.closedAt && exit.price == trip.exitPrice
    && (match entry.side
        case Buy => exit.side == Sell && trip.direction == Long && trip.pnl == (exit.price - entry.price) * trip.qty
        case Sell => exit.side == Buy && trip.direction == Short && trip.pnl == (entry.price - exit.price) * trip.qty)
    && 0.0 < trip.qty <= entry.qty && trip.qty <= exit.qty
    && Attributed(ds, trip.symbol, entry.side, entry.at, trip.entry)
    && Attributed(ds, trip.symbol, exit.side, exit.at, trip.exit)
  }

  ghost predicate TripFrom(trip: Trip, trades: seq<Trade>, ds: seq<Decision>) {
    exists i, j :: 0 <= i < j < |trades| && Joins(trip, trades[i], trades[j], ds)
  }

  ghost predicate TripsFrom(trips: seq<Trip>, trades: seq<Trade>, ds: seq<Decision>) {
    forall k :: 0 <= k < |trips| ==> TripFrom(trips[k], trades, ds)
  }

  lemma {:induction false} LotsFromMore(
    lots: seq<Lot>, trades: seq<Trade>, t: Trade, symbol: string, side: Side, ds: seq<Decision>)
    requires LotsFrom(lots, trades, symbol, side, ds)
    ensures LotsFrom(lots, trades + [t], symbol, side, ds)
  {
    hide OpenedBy;
    forall k | 0 <= k < |lots| ensures LotFrom(lots[k], trades + [t], symbol, side, ds) {
      var i :| 0 <= i < |trades| && OpenedBy(lots[k], trades[i], symbol, side, ds);
      assert (trades + [t])[i] == trades[i];
    }
  }

  lemma {:induction false} TripsFromMore(trips: seq<Trip>, trades: seq<Trade>, t: Trade, ds: seq<Decision>)
    requires TripsFrom(trips, trades, ds)
    ensures TripsFrom(trips, trades + [t], ds)
  {
    hide Joins;
    forall k | 0 <= k < |trips| ensures TripFrom(trips[k], trades + [t], ds) {
      var i, j :| 0 <= i < j < |trades| && Joins(trips[k], trades[i], trades[j], ds);
      assert (trades + [t])[i] == trades[i] && (trades + [t])[j] == trades[j];
    }
  }

  function Opposite(side: Side): Side {
    if side == Buy then Sell else Buy
  }

  lemma {:induction false} MatchJoins(lot: Lot, entry: Trade, t: Trade, matched: real, d: Option<Decision>, ds: seq<Decision>)
    requires OpenedBy(lot, entry, t.symbol, Opposite(t.side), ds) && Attributed(ds, t.symbol, t.side, t.at, d)
    requires 0.0 < matched <= lot.qty && matched <= t.qty
    ensures Joins(TripOf(lot, t, matched, d), entry, t, ds)
  {
    hide Attributed;
  }

  /** The matched part of a lot makes a trip of the trade that opened it and the one that closes it. */
  lemma {:induction false} TripFromLot(
    lot: Lot, trades: seq<Trade>, t: Trade, matched: real, d: Option<Decision>, ds: seq<Decision>)
    requires LotFrom(lot, trades, t.symbol, Opposite(t.side), ds) && Attributed(ds, t.symbol, t.side, t.at, d)
    requires 0.0 < matched <= lot.qty && matched <= t.qty
    ensures TripFrom(TripOf(lot, t, matched, d), trades + [t], ds)
  {
    hide Joins, OpenedBy, TripOf, Attributed;
    var i :| 0 <= i < |trades| && OpenedBy(lot, trades[i], t.symbol, Opposite(t.side), ds);
    MatchJoins(lot, trades[i], t, matched, d, ds);
    assert (trades + [t])[i] == trades[i] && (trades + [t])[|trades|] == t;
  }

  lemma {:induction false} ShrunkFrom(lot: Lot, left: real, trades: seq<Trade>, symbol: string, side: Side, ds: seq<Decision>)
    requires LotFrom(lot, trades, symbol, side, ds) && 0.0 < left <= lot.qty
    ensures LotFrom(lot.(qty := left), trades, symbol, side, ds)
  {
    var i :| 0 <= i < |trades| && OpenedBy(lot, trades[i], symbol, side, ds);
    assert OpenedBy(lot.(qty := left), trades[i], symbol, side, ds);
  }

  lemma {:induction false} NextFrom(
    lots: seq<Lot>, left: real, trades: seq<Trade>, symbol: string, side: Side, ds: seq<Decision>)
    requires lots != [] && LotsFrom(lots, trades, symbol, side, ds) && 0.0 <= left <= lots[0].qty
    ensures LotFrom(lots[0], trades, symbol, side, ds)
    ensures LotsFrom(if left == 0.0 then lots[1..] else [lots[0].(qty := left)] + lots[1..], trades, symbol, side, ds)
  {
    hide LotFrom;
    if left != 0.0 { ShrunkFrom(lots[0], left, trades, symbol, side, ds); }
  }

  lemma {:induction false} OneTripMore(trip: Trip, trips: seq<Trip>, trades: seq<Trade>, ds: seq<Decision>)
    requires TripFrom(trip, trades, ds) && TripsFrom(trips, trades, ds)
    ensures TripsFrom([trip] + trips, trades, ds)
  {
    hide TripFrom;
  }

  lemma {:induction false} NothingFrom(trades: seq<Trade>, ds: seq<Decision>)
    ensures TripsFrom([], trades, ds)
  {}

  lemma {:induction false} CloseJoins(
    lots: seq<Lot>, remaining: real, t: Trade, d: Option<Decision>, trades: seq<Trade>, ds: seq<Decision>)
    requires Positive(lots) && LotsFrom(lots, trades, t.symbol, Opposite(t.side), ds)
    requires remaining <= t.qty && Attributed(ds, t.symbol, t.side, t.at, d)
    ensures LotsFrom(Close(lots, remaining, t, d).lots, trades, t.symbol, Opposite(t.side), ds)
    ensures TripsFrom(Close(lots, remaining, t, d).trips, trades + [t], ds)
    ensures Close(lots, remaining, t, d).remaining <= remaining
    decreases |lots|, remaining > 0.0
  {
    hide LotFrom, TripFrom, TripOf, Attributed, Close, Opposite, LotsFrom, TripsFrom;
    if remaining > 0.0 && lots != [] {
      var lot := lots[0];
      var matched := MinReal(remaining, lot.qty);
      var left := lot.qty - matched;
      var next := if left == 0.0 then lots[1..] else [lot.(qty := left)] + lots[1..];
      CloseUnfolds(lots, remaining, t, d);
      NextFrom(lots, left, trades, t.symbol, Opposite(t.side), ds);
      TripFromLot(lot, trades, t, matched, d, ds);
      CloseJoins(next, remaining - matched, t, d, trades, ds);
      OneTripMore(TripOf(lot, t, matched, d), Close(next, remaining - matched, t, d).trips, trades + [t], ds);
    } else {
      NothingFrom(trades + [t], ds);
      CloseStops([], lots, remaining, t, d);
      PrependNothing(Close(lots, remaining, t, d));
    }
  }

  ghost predicate BooksFrom(books: map<string, Book>, trades: seq<Trade>, ds: seq<Decision>) {
    forall s :: BookFrom(BookOf(books, s), trades, s, ds)
  }

  lemma {:induction false} ApplyJoins(s: State, t: Trade, d: Option<Decision>, trades: seq<Trade>, ds: seq<Decision>)
    requires forall k :: k in s.books ==> OneSided(s.books[k])
    requires BookFrom(BookOf(s.books, t.symbol), trades, t.symbol, ds) && TripsFrom(s.trips, trades, ds)
    requires Attributed(ds, t.symbol, t.side, t.at, d)
    ensures BookFrom(BookOf(Apply(s, t, d).books, t.symbol), trades + [t], t.symbol, ds)
    ensures TripsFrom(Apply(s, t, d).trips, trades + [t], ds)
  {
    hide Close, LotsFrom, TripsFrom, Attributed;
    var b := BookOf(s.books, t.symbol);
    assert OneSided(b);
    var closing, own := if t.side == Buy then b.shorts else b.longs, if t.side == Buy then b.longs else b.shorts;
    CloseJoins(closing, t.qty, t, d, trades, ds);
    var c := Close(closing, t.qty, t, d);
    LotsFromMore(c.lots, trades, t, t.symbol, Opposite(t.side), ds);
    OpenFrom(own, c.remaining, t, d, trades, ds);
    TripsFromMore(s.trips, trades, t, ds);
    TripsConcat(s.trips, c.trips, trades + [t], ds);
  }

  lemma {:induction false} TripsConcat(a: seq<Trip>, b: seq<Trip>, trades: seq<Trade>, ds: seq<Decision>)
    requires TripsFrom(a, trades, ds) && TripsFrom(b, trades, ds)
    ensures TripsFrom(a + b, trades, ds)
  {
    hide TripFrom;
  }

  lemma {:induction false} OpenFrom(
    own: seq<Lot>, remaining: real, t: Trade, d: Option<Decision>, trades: seq<Trade>, ds: seq<Decision>)
    requires LotsFrom(own, trades, t.symbol, t.side, ds) && remaining <= t.qty
    requires Attributed(ds, t.symbol, t.side, t.at, d)
    ensures LotsFrom(own + if remaining > 0.0 then [Lot(remaining, t.price, t.at, d)] else [], trades + [t], t.symbol, t.side, ds)
  {
    hide Attributed, LotFrom;
    LotsFromMore(own, trades, t, t.symbol, t.side, ds);
    if remaining > 0.0 {
      var lot := Lot(remaining, t.price, t.at, d);
      assert LotFrom(lot, trades + [t], t.symbol, t.side, ds) by { JustOpened(lot, trades, t, ds); }
    }
  }

  lemma {:induction false} JustOpened(lot: Lot, trades: seq<Trade>, t: Trade, ds: seq<Decision>)
    requires OpenedBy(lot, t, t.symbol, t.side, ds)
    ensures LotFrom(lot, trades + [t], t.symbol, t.side, ds)
  {
    hide OpenedBy;
    assert (trades + [t])[|trades|] == t;
  }

  /** Every round trip of any trades joins two of them, and every open lot is what one of them left. */
  lemma {:induction false} TripsJoinTrades(trades: seq<Trade>, ds: seq<Decision>)
    ensures TripsFrom(Matched(trades, ds).trips, trades, ds)
    ensures BooksFrom(Matched(trades, ds).books, trades, ds)
  {
    hide DecisionBefore, OneSided, BookFrom, TripsFrom, Attributed, Apply, BookOf;
    if trades == [] {
      NothingMatched(ds);
    } else {
      var front, t := trades[..|trades| - 1], trades[|trades| - 1];
      TripsJoinTrades(front, ds);
      DecisionIsBehind(ds, t.symbol, t.side, t.at);
      var before, d := Matched(front, ds), DecisionBefore(ds, t.symbol, t.side, t.at);
      ApplyJoins(before, t, d, front, ds);
      assert trades == front + [t];
      forall s ensures BookFrom(BookOf(Matched(trades, ds).books, s), trades, s, ds) {
        if s != t.symbol {
          OtherBookStays(before, t, d, s);
          BookFromMore(BookOf(before.books, s), front, t, s, ds);
        }
      }
    }
  }

  lemma {:induction false} NothingMatched(ds: seq<Decision>)
    ensures TripsFrom(Matched([], ds).trips, [], ds) && BooksFrom(Matched([], ds).books, [], ds)
  {}

  lemma {:induction false} OtherBookStays(s: State, t: Trade, d: Option<Decision>, symbol: string)
    requires forall k :: k in s.books ==> OneSided(s.books[k])
    ensures symbol != t.symbol ==> BookOf(Apply(s, t, d).books, symbol) == BookOf(s.books, symbol)
  {
    hide Close, OneSided;
  }

  lemma {:induction false} BookFromMore(b: Book, trades: seq<Trade>, t: Trade, symbol: string, ds: seq<Decision>)
    requires BookFrom(b, trades, symbol, ds)
    ensures BookFrom(b, trades + [t], symbol, ds)
  {
    hide LotsFrom;
    LotsFromMore(b.longs, trades, t, symbol, Buy, ds);
    LotsFromMore(b.shorts, trades, t, symbol, Sell, ds);
  }

  /**
   * The reported round trips, whatever order the trades come in: each joins an earlier trade of the
   * sorted list to a later one of its symbol and the opposite side, as `Joins` says.
   */
  lemma {:induction false} ReportedTripsJoinTrades(trades: seq<Trade>, ds: seq<Decision>, k: nat)
    returns (i: nat, j: nat)
    requires k < |Matched(ByTime(trades), ds).trips|
    ensures i < j < |trades| == |ByTime(trades)| && ByTime(trades)[i].at <= ByTime(trades)[j].at
    ensures Joins(Matched(ByTime(trades), ds).trips[k], ByTime(trades)[i], ByTime(trades)[j], ds)
  {
    hide Joins, Matched, ByTime;
    var sorted := ByTime(trades);
    TripsJoinTrades(sorted, ds);
    assert TripFrom(Matched(sorted, ds).trips[k], sorted, ds);
    i, j :| 0 <= i < j < |sorted| && Joins(Matched(sorted, ds).trips[k], sorted[i], sorted[j], ds);
  }
}
