/** Batch FIFO matching is the share-by-share simulation it abbreviates. */
module UnitFifo {
  import opened Wrappers
  import opened Trading
  import opened RoundTrips

  predicate Whole(q: real) {
    q >= 0.0 && q == q.Floor as real
  }

  function Copies<T>(x: T, n: nat): (r: seq<T>)
    ensures |r| == n && forall i :: 0 <= i < n ==> r[i] == x
  {
    seq(n, i => x)
  }

  /** The book of a symbol, seen from a trade: the queue it closes and the queue it opens. */
  function Facing(side: Side, closing: seq<Lot>, own: seq<Lot>): Book {
    if side == Buy then Book(own, closing) else Book(closing, own)
  }

  function ClosingOf(b: Book, side: Side): seq<Lot> {
    if side == Buy then b.shorts else b.longs
  }

  function OwnOf(b: Book, side: Side): seq<Lot> {
    if side == Buy then b.longs else b.shorts
  }

  datatype Outcome = Outcome(book: Book, trips: seq<Trip>)

  function UnitLot(lot: Lot): Lot {
    lot.(qty := 1.0)
  }

  function UnitTrip(trip: Trip): Trip {
    trip.(qty := 1.0, pnl := if trip.direction == Long then trip.exitPrice - trip.entryPrice else trip.entryPrice - trip.exitPrice)
  }

  /** The round trip of one share: a long bought at the lot's price and sold at the trade's, or a short the other way. */
  function ShareTrip(lot: Lot, t: Trade, d: Option<Decision>): Trip {
    match t.side
    case Sell => Trip(t.symbol, Long, 1.0, lot.price, t.price, t.price - lot.price, lot.openedAt, t.at, lot.decision, d)
    case Buy => Trip(t.symbol, Short, 1.0, lot.price, t.price, lot.price - t.price, lot.openedAt, t.at, lot.decision, d)
  }

  /** The naive simulation: one share either closes the oldest opposite share or opens a new one. */
  function OneShare(b: Book, t: Trade, d: Option<Decision>): Outcome {
    var closing, own := ClosingOf(b, t.side), OwnOf(b, t.side);
    if closing != [] then Outcome(Facing(t.side, closing[1..], own), [ShareTrip(closing[0], t, d)])
    else Outcome(Facing(t.side, closing, own + [Lot(1.0, t.price, t.at, d)]), [])
  }

  function Shares(b: Book, t: Trade, d: Option<Decision>, n: nat): Outcome
    decreases n
  {
    if n == 0 then Outcome(b, []) else
      var first := OneShare(b, t, d);
      var rest := Shares(first.book, t, d, n - 1);
      Outcome(rest.book, first.trips + rest.trips)
  }

  /** All trades, one share at a time. */
  function UnitMatched(trades: seq<Trade>, ds: seq<Decision>): State {
    if trades == [] then START else
      var t := trades[|trades| - 1];
      var before := UnitMatched(trades[..|trades| - 1], ds);
      var d := DecisionBefore(ds, t.symbol, t.side, t.at);
      var o := Shares(BookOf(before.books, t.symbol), t, d, if t.qty < 0.0 then 0 else t.qty.Floor);
      State(before.books[t.symbol := o.book], before.trips + o.trips)
  }

  // ------------------------------------------------------------ expansion

  function LotUnits(lot: Lot): seq<Lot> {
    Copies(UnitLot(lot), if lot.qty < 0.0 then 0 else lot.qty.Floor)
  }

  function ExpandLots(lots: seq<Lot>): seq<Lot> {
    if lots == [] then [] else LotUnits(lots[0]) + ExpandLots(lots[1..])
  }

  function TripUnits(trip: Trip): seq<Trip> {
    Copies(UnitTrip(trip), if trip.qty < 0.0 then 0 else trip.qty.Floor)
  }

  function ExpandTrips(trips: seq<Trip>): seq<Trip> {
    if trips == [] then [] else TripUnits(trips[0]) + ExpandTrips(trips[1..])
  }

  function ExpandBook(b: Book): Book {
    Book(ExpandLots(b.longs), ExpandLots(b.shorts))
  }

  predicate WholeLots(lots: seq<Lot>) {
    forall i :: 0 <= i < |lots| ==> Whole(lots[i].qty) && lots[i].qty > 0.0
  }

  predicate WholeBook(b: Book) {
    WholeLots(b.longs) && WholeLots(b.shorts) && OneSided(b)
  }

  lemma {:induction false} ExpandTripsConcat(a: seq<Trip>, b: seq<Trip>)
    ensures ExpandTrips(a + b) == ExpandTrips(a) + ExpandTrips(b)
  {
    if a == [] {
      assert a + b == b;
    } else {
      assert (a + b)[1..] == a[1..] + b;
      ExpandTripsConcat(a[1..], b);
    }
  }

  lemma {:induction false} ExpandLotsAppend(lots: seq<Lot>, lot: Lot)
    ensures ExpandLots(lots + [lot]) == ExpandLots(lots) + LotUnits(lot)
  {
    if lots == [] {
      assert lots + [lot] == [lot];
      assert [lot][1..] == [];
    } else {
      assert (lots + [lot])[1..] == lots[1..] + [lot];
      ExpandLotsAppend(lots[1..], lot);
    }
  }

  lemma {:induction false} CopiesCons<T>(x: T, n: nat)
    requires n > 0
    ensures Copies(x, n) == [x] + Copies(x, n - 1)
  {}

  /** A trade with nothing to close opens as many equal shares as it has units. */
  lemma {:induction false} OpenUnits(own: seq<Lot>, t: Trade, d: Option<Decision>, n: nat)
    ensures Shares(Facing(t.side, [], own), t, d, n) ==
              Outcome(Facing(t.side, [], own + Copies(Lot(1.0, t.price, t.at, d), n)), [])
    decreases n
  {
    var unit := Lot(1.0, t.price, t.at, d);
    if n == 0 {
      assert own + Copies(unit, 0) == own;
    } else {
      OpenUnits(own + [unit], t, d, n - 1);
      assert own + [unit] + Copies(unit, n - 1) == own + Copies(unit, n);
    }
  }

  lemma {:induction false} CloseOne(unit: Lot, queue: seq<Lot>, own: seq<Lot>, t: Trade, d: Option<Decision>, n: nat)
    requires n > 0
    ensures
      var after := Shares(Facing(t.side, queue, own), t, d, n - 1);
      Shares(Facing(t.side, [unit] + queue, own), t, d, n) == Outcome(after.book, [ShareTrip(unit, t, d)] + after.trips)
  {
    assert ([unit] + queue)[1..] == queue;
  }

  /** Closing `m` shares against a lot of at least `m` equal shares. */
  lemma {:induction false} CloseUnits(
    unit: Lot, k: nat, rest: seq<Lot>, own: seq<Lot>, t: Trade, d: Option<Decision>, m: nat, n: nat)
    requires m <= k && m <= n
    ensures
      var after := Shares(Facing(t.side, Copies(unit, k - m) + rest, own), t, d, n - m);
      Shares(Facing(t.side, Copies(unit, k) + rest, own), t, d, n) ==
        Outcome(after.book, Copies(ShareTrip(unit, t, d), m) + after.trips)
    decreases m
  {
    hide Shares, Facing, ShareTrip, Copies;
    var trip := ShareTrip(unit, t, d);
    var after := Shares(Facing(t.side, Copies(unit, k - m) + rest, own), t, d, n - m);
    if m == 0 {
      assert Copies(trip, 0) + after.trips == after.trips;
    } else {
      CopiesCons(unit, k);
      CopiesCons(trip, m);
      assert [unit] + (Copies(unit, k - 1) + rest) == Copies(unit, k) + rest;
      CloseOne(unit, Copies(unit, k - 1) + rest, own, t, d, n);
      CloseUnits(unit, k - 1, rest, own, t, d, m - 1, n - 1);
      assert [trip] + (Copies(trip, m - 1) + after.trips) == Copies(trip, m) + after.trips;
    }
  }

  lemma {:induction false} CloseKeepsWhole(lots: seq<Lot>, remaining: real, t: Trade, d: Option<Decision>)
    requires WholeLots(lots) && Positive(lots) && Whole(remaining)
    ensures Whole(Close(lots, remaining, t, d).remaining) && WholeLots(Close(lots, remaining, t, d).lots)
    decreases |lots|, remaining > 0.0
  {
    if remaining > 0.0 && lots != [] {
      var matched := MinReal(remaining, lots[0].qty);
      var left := lots[0].qty - matched;
      WholeDifference(lots[0].qty, matched);
      WholeDifference(remaining, matched);
      CloseKeepsWhole(if left == 0.0 then lots[1..] else [lots[0].(qty := left)] + lots[1..], remaining - matched, t, d);
    }
  }

  /** What one batch closing amounts to, in units. */
  ghost predicate Refines(lots: seq<Lot>, own: seq<Lot>, remaining: real, t: Trade, d: Option<Decision>, c: Closing)
    requires Whole(remaining) && Whole(c.remaining)
  {
    Shares(Facing(t.side, ExpandLots(lots), own), t, d, remaining.Floor) ==
      Outcome(Facing(t.side, ExpandLots(c.lots), own + Copies(Lot(1.0, t.price, t.at, d), c.remaining.Floor)),
              ExpandTrips(c.trips))
  }

  /** The whole batch step of one trade, in units. */
  lemma {:induction false} CloseRefines(lots: seq<Lot>, own: seq<Lot>, remaining: real, t: Trade, d: Option<Decision>)
    requires WholeLots(lots) && Positive(lots) && Whole(remaining)
    ensures Whole(Close(lots, remaining, t, d).remaining)
    ensures Refines(lots, own, remaining, t, d, Close(lots, remaining, t, d))
    decreases |lots|, remaining > 0.0
  {
    hide Shares, Facing, Copies;
    CloseKeepsWhole(lots, remaining, t, d);
    if remaining > 0.0 && lots != [] {
      var matched := MinReal(remaining, lots[0].qty);
      var left := lots[0].qty - matched;
      var next := if left == 0.0 then lots[1..] else [lots[0].(qty := left)] + lots[1..];
      WholeDifference(lots[0].qty, matched);
      WholeDifference(remaining, matched);
      CloseRefines(next, own, remaining - matched, t, d);
      CloseFirst(lots, own, remaining, t, d);
    } else if lots == [] {
      OpenUnits(own, t, d, remaining.Floor);
    } else {
      NoShares(Facing(t.side, ExpandLots(lots), own), t, d);
      assert own + Copies(Lot(1.0, t.price, t.at, d), 0) == own;
    }
  }

  lemma {:induction false} NoShares(b: Book, t: Trade, d: Option<Decision>)
    ensures Shares(b, t, d, 0) == Outcome(b, [])
  {}

  lemma {:induction false} UnitTripIs(lot: Lot, t: Trade, matched: real, d: Option<Decision>)
    ensures UnitTrip(TripOf(lot, t, matched, d)) == ShareTrip(UnitLot(lot), t, d)
    ensures TripOf(lot, t, matched, d).qty == matched
  {
    hide Pnl;
  }

  /** The head of the batch loop: matching against the first lot is matching its units one by one. */
  lemma {:induction false} CloseFirst(lots: seq<Lot>, own: seq<Lot>, remaining: real, t: Trade, d: Option<Decision>)
    requires WholeLots(lots) && Positive(lots) && Whole(remaining) && remaining > 0.0 && lots != []
    requires
      var matched := MinReal(remaining, lots[0].qty);
      var left := lots[0].qty - matched;
      var next := if left == 0.0 then lots[1..] else [lots[0].(qty := left)] + lots[1..];
      && Positive(next) && Whole(left) && Whole(remaining - matched)
      && left.Floor == lots[0].qty.Floor - matched.Floor
      && (remaining - matched).Floor == remaining.Floor - matched.Floor
      && Whole(Close(next, remaining - matched, t, d).remaining)
      && Refines(next, own, remaining - matched, t, d, Close(next, remaining - matched, t, d))
    ensures Whole(Close(lots, remaining, t, d).remaining)
    ensures Refines(lots, own, remaining, t, d, Close(lots, remaining, t, d))
  {
    hide Shares, Facing, Copies, Positive, Close, TripOf, UnitTrip, ShareTrip;
    CloseUnfolds(lots, remaining, t, d);
    var lot := lots[0];
    var matched := MinReal(remaining, lot.qty);
    var left := lot.qty - matched;
    var next := if left == 0.0 then lots[1..] else [lot.(qty := left)] + lots[1..];
    var rest := Close(next, remaining - matched, t, d);
    CloseUnits(UnitLot(lot), lot.qty.Floor, ExpandLots(lots[1..]), own, t, d, matched.Floor, remaining.Floor);
    ExpandNext(lots, left);
    var trip := TripOf(lot, t, matched, d);
    UnitTripIs(lot, t, matched, d);
    assert ([trip] + rest.trips)[1..] == rest.trips;
  }

  lemma {:induction false} WholeDifference(a: real, b: real)
    requires Whole(a) && Whole(b) && b <= a
    ensures Whole(a - b) && (a - b).Floor == a.Floor - b.Floor
  {}

  lemma {:induction false} ExpandNext(lots: seq<Lot>, left: real)
    requires lots != [] && Whole(left)
    ensures ExpandLots(if left == 0.0 then lots[1..] else [lots[0].(qty := left)] + lots[1..]) ==
              Copies(UnitLot(lots[0]), left.Floor) + ExpandLots(lots[1..])
  {
    if left == 0.0 {
      assert Copies(UnitLot(lots[0]), 0) + ExpandLots(lots[1..]) == ExpandLots(lots[1..]);
    } else {
      var next := [lots[0].(qty := left)] + lots[1..];
      assert next[1..] == lots[1..];
    }
  }

  /** What one batch trade amounts to for its symbol's book, in units. */
  lemma {:induction false} ApplyRefines(s: State, t: Trade, d: Option<Decision>) returns (trips: seq<Trip>)
    requires forall k :: k in s.books ==> OneSided(s.books[k])
    requires WholeBook(BookOf(s.books, t.symbol)) && Whole(t.qty)
    ensures WholeBook(BookOf(Apply(s, t, d).books, t.symbol))
    ensures Apply(s, t, d).trips == s.trips + trips
    ensures Shares(ExpandBook(BookOf(s.books, t.symbol)), t, d, t.qty.Floor) ==
              Outcome(ExpandBook(BookOf(Apply(s, t, d).books, t.symbol)), ExpandTrips(trips))
  {
    hide Shares, Close, ExpandTrips, ExpandLots, Copies, LotUnits;
    var b := BookOf(s.books, t.symbol);
    var closing, own := ClosingOf(b, t.side), OwnOf(b, t.side);
    var c := Close(closing, t.qty, t, d);
    CloseRefines(closing, ExpandLots(own), t.qty, t, d);
    CloseKeepsWhole(closing, t.qty, t, d);
    ApplyOneSided(s, t, d);
    OpenRemaining(own, c.remaining, t, d);
    assert BookOf(Apply(s, t, d).books, t.symbol) == Facing(t.side, c.lots, Opened(own, c.remaining, t, d));
    trips := c.trips;
  }

  function Opened(own: seq<Lot>, remaining: real, t: Trade, d: Option<Decision>): seq<Lot> {
    own + if remaining > 0.0 then [Lot(remaining, t.price, t.at, d)] else []
  }

  lemma {:induction false} OpenRemaining(own: seq<Lot>, remaining: real, t: Trade, d: Option<Decision>)
    requires Whole(remaining) && WholeLots(own)
    ensures WholeLots(Opened(own, remaining, t, d))
    ensures ExpandLots(Opened(own, remaining, t, d)) ==
              ExpandLots(own) + Copies(Lot(1.0, t.price, t.at, d), remaining.Floor)
  {
    if remaining > 0.0 {
      ExpandLotsAppend(own, Lot(remaining, t.price, t.at, d));
    } else {
      assert own + [] == own;
      assert ExpandLots(own) + Copies(Lot(1.0, t.price, t.at, d), 0) == ExpandLots(own);
    }
  }

  predicate WholeTrades(trades: seq<Trade>) {
    forall i :: 0 <= i < |trades| ==> Whole(trades[i].qty)
  }

  /**
   * For whole quantities, expanding every round trip and every open lot into single shares gives
   * exactly the trips, in the same order, and the queues of the share-by-share simulation.
   */
  lemma {:induction false} BatchRefinesUnits(trades: seq<Trade>, ds: seq<Decision>)
    requires WholeTrades(trades)
    ensures UnitMatched(trades, ds).trips == ExpandTrips(Matched(trades, ds).trips)
    ensures forall s :: BookOf(UnitMatched(trades, ds).books, s) == ExpandBook(BookOf(Matched(trades, ds).books, s))
    ensures forall s :: WholeBook(BookOf(Matched(trades, ds).books, s))
  {
    if trades != [] {
      hide Shares, Apply, DecisionBefore, ExpandBook, WholeBook, ExpandTrips, OneSided, BookOf;
      var front, t := trades[..|trades| - 1], trades[|trades| - 1];
      BatchRefinesUnits(front, ds);
      var before := Matched(front, ds);
      var d := DecisionBefore(ds, t.symbol, t.side, t.at);
      var trips := ApplyRefines(before, t, d);
      ApplyElsewhere(before, t, d);
      ExpandTripsConcat(before.trips, trips);
      var units := UnitMatched(front, ds);
      forall s
        ensures BookOf(UnitMatched(trades, ds).books, s) == ExpandBook(BookOf(Matched(trades, ds).books, s))
        ensures WholeBook(BookOf(Matched(trades, ds).books, s))
      {
        PutBook(units.books, t.symbol, UnitMatched(trades, ds).books[t.symbol], s);
      }
    }
  }

  lemma {:induction false} ApplyElsewhere(s: State, t: Trade, d: Option<Decision>)
    requires forall k :: k in s.books ==> OneSided(s.books[k])
    ensures forall k :: k != t.symbol ==> BookOf(Apply(s, t, d).books, k) == BookOf(s.books, k)
  {}
}
