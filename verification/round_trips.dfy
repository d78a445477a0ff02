/** FIFO matching of long and short lots into round trips. */
module RoundTrips {
  import opened Wrappers
  import opened Trading

  datatype Decision = Decision(symbol: string, side: Option<Side>, at: int, model: string, reason: string)

  datatype Lot = Lot(qty: real, price: real, openedAt: int, decision: Option<Decision>)

  datatype Trip = Trip(
    symbol: string, direction: Exposure, qty: real, entryPrice: real, exitPrice: real, pnl: real,
    openedAt: int, closedAt: int, entry: Option<Decision>, exit: Option<Decision>)

  /** The open lots of one symbol, oldest first. */
  datatype Book = Book(longs: seq<Lot>, shorts: seq<Lot>)

  datatype State = State(books: map<string, Book>, trips: seq<Trip>)

  const START: State := State(map[], [])

  function BookOf(books: map<string, Book>, symbol: string): Book {
    if symbol in books then books[symbol] else Book([], [])
  }

  predicate Positive(lots: seq<Lot>) {
    forall i :: 0 <= i < |lots| ==> lots[i].qty > 0.0
  }

  /** What the whole module keeps: positive lots, and never long and short at once. */
  predicate OneSided(b: Book) {
    Positive(b.longs) && Positive(b.shorts) && (b.longs == [] || b.shorts == [])
  }

  // ------------------------------------------------------------ decisions

  predicate Chronological(ds: seq<Decision>) {
    forall i, j :: 0 <= i < j < |ds| ==> ds[i].at <= ds[j].at
  }

  function InsertDecision(ds: seq<Decision>, d: Decision): (r: seq<Decision>)
    requires Chronological(ds)
    ensures Chronological(r) && |r| == |ds| + 1
    ensures ds == [] || ds[|ds| - 1].at <= d.at ==> r == ds + [d]
    ensures ds != [] && ds[|ds| - 1].at > d.at ==> r[|r| - 1] == ds[|ds| - 1]
    ensures multiset(r) == multiset(ds) + multiset{d}
  {
    if ds == [] || ds[|ds| - 1].at <= d.at then ds + [d] else
      assert ds == ds[..|ds| - 1] + [ds[|ds| - 1]];
      InsertDecision(ds[..|ds| - 1], d) + [ds[|ds| - 1]]
  }

  /** The symbol's and side's decisions in time order, equal times in their given order. */
  function Relevant(ds: seq<Decision>, symbol: string, side: Side): (r: seq<Decision>)
    ensures Chronological(r)
    ensures forall d :: d in r <==> d in ds && d.symbol == symbol && d.side == Some(side)
  {
    if ds == [] then [] else
      var front, last := Relevant(ds[..|ds| - 1], symbol, side), ds[|ds| - 1];
      assert ds == ds[..|ds| - 1] + [last];
      if last.symbol == symbol && last.side == Some(side) then
        var r := InsertDecision(front, last);
        assert forall d :: d in r <==> d in multiset(r);
        r
      else front
  }

  /** `bisect_left(timestamps, ts)`. */
  function Earlier(ds: seq<Decision>, ts: int): (k: nat)
    requires Chronological(ds)
    ensures k <= |ds|
    ensures forall i :: 0 <= i < k ==> ds[i].at < ts
    ensures forall i :: k <= i < |ds| ==> ts <= ds[i].at
  {
    if ds == [] || ds[|ds| - 1].at < ts then |ds| else Earlier(ds[..|ds| - 1], ts)
  }

  /**
   * The decision a fill is attributed to: the latest one of its symbol and side strictly before it,
   * since a next-open fill carries the timestamp of the bar that the next decision is made on.
   */
  function DecisionBefore(ds: seq<Decision>, symbol: string, side: Side, ts: int): (r: Option<Decision>)
    ensures r.Some? ==> r.value in ds && r.value.symbol == symbol && r.value.side == Some(side) && r.value.at < ts
    ensures r.Some? ==> forall d :: d in ds && d.symbol == symbol && d.side == Some(side) && d.at < ts ==> d.at <= r.value.at
    ensures r.None? ==> forall d :: d in ds && d.symbol == symbol && d.side == Some(side) ==> ts <= d.at
  {
    hide Relevant, Earlier, Chronological;
    var records := Relevant(ds, symbol, side);
    var index := Earlier(records, ts);
    LatestEarlier(records, ts, index);
    if index > 0 then Some(records[index - 1]) else None
  }

  lemma {:induction false} LatestEarlier(records: seq<Decision>, ts: int, index: nat)
    requires Chronological(records) && index == Earlier(records, ts)
    ensures index > 0 ==> records[index - 1] in records && records[index - 1].at < ts
    ensures index > 0 ==> forall d :: d in records && d.at < ts ==> d.at <= records[index - 1].at
    ensures index == 0 ==> forall d :: d in records ==> ts <= d.at
  {}

  // ------------------------------------------------------------- matching

  function Direction(side: Side): Exposure {
    if side == Buy then Short else Long
  }

  function Pnl(direction: Exposure, entry: real, exit: real, qty: real): real {
    if direction == Short then (entry - exit) * qty else (exit - entry) * qty
  }

  function TripOf(lot: Lot, t: Trade, matched: real, exit: Option<Decision>): Trip {
    Trip(t.symbol, Direction(t.side), matched, lot.price, t.price,
         Pnl(Direction(t.side), lot.price, t.price, matched), lot.openedAt, t.at, lot.decision, exit)
  }

  datatype Closing = Closing(lots: seq<Lot>, remaining: real, trips: seq<Trip>)

  /** The inner loop: the trade consumes the oldest opposite lots first. */
  function Close(lots: seq<Lot>, remaining: real, t: Trade, exit: Option<Decision>): (c: Closing)
    requires Positive(lots)
    ensures Positive(c.lots)
    ensures c.remaining > 0.0 ==> c.lots == []
    ensures |c.lots| <= |lots|
    decreases |lots|, remaining > 0.0
  {
    if remaining > 0.0 && lots != [] then
      var lot := lots[0];
      var matched := MinReal(remaining, lot.qty);
      var left := lot.qty - matched;
      var rest := Close(if left == 0.0 then lots[1..] else [lot.(qty := left)] + lots[1..], remaining - matched, t, exit);
      rest.(trips := [TripOf(lot, t, matched, exit)] + rest.trips)
    else Closing(lots, remaining, [])
  }

  /** One turn of the loop: the front lot is matched, and shrinks or leaves. */
  lemma {:induction false} CloseUnfolds(lots: seq<Lot>, remaining: real, t: Trade, exit: Option<Decision>)
    requires Positive(lots) && remaining > 0.0 && lots != []
    ensures
      var matched := MinReal(remaining, lots[0].qty);
      var left := lots[0].qty - matched;
      var next := if left == 0.0 then lots[1..] else [lots[0].(qty := left)] + lots[1..];
      && Positive(next)
      && Close(lots, remaining, t, exit) ==
           Close(next, remaining - matched, t, exit).(trips := [TripOf(lots[0], t, matched, exit)] +
                                                              Close(next, remaining - matched, t, exit).trips)
  {}

  /** One trade: close the opposite side, then open with whatever remains. */
  function Apply(s: State, t: Trade, d: Option<Decision>): State
    requires forall k :: k in s.books ==> OneSided(s.books[k])
  {
    var book := BookOf(s.books, t.symbol);
    assert OneSided(book);
    var c := Close(if t.side == Buy then book.shorts else book.longs, t.qty, t, d);
    var added := if c.remaining > 0.0 then [Lot(c.remaining, t.price, t.at, d)] else [];
    var book' := if t.side == Buy then Book(book.longs + added, c.lots) else Book(c.lots, book.shorts + added);
    State(s.books[t.symbol := book'], s.trips + c.trips)
  }

  lemma {:induction false} ApplyOneSided(s: State, t: Trade, d: Option<Decision>)
    requires forall k :: k in s.books ==> OneSided(s.books[k])
    ensures forall k :: k in Apply(s, t, d).books ==> OneSided(Apply(s, t, d).books[k])
  {
    hide Close, OneSided;
    var book := BookOf(s.books, t.symbol);
    assert OneSided(book) by { NoLots(); }
    var closable := if t.side == Buy then book.shorts else book.longs;
    LotsPositive(book);
    var c := Close(closable, t.qty, t, d);
    var added := if c.remaining > 0.0 then [Lot(c.remaining, t.price, t.at, d)] else [];
    ClosedBook(book, t.side, c, added);
  }

  lemma {:induction false} NoLots()
    ensures OneSided(Book([], []))
  {}

  lemma {:induction false} LotsPositive(b: Book)
    requires OneSided(b)
    ensures Positive(b.longs) && Positive(b.shorts)
  {}

  /** A trade's remainder opens only when the opposite side is used up. */
  lemma {:induction false} ClosedBook(b: Book, side: Side, c: Closing, added: seq<Lot>)
    requires OneSided(b) && Positive(c.lots) && Positive(added) && (added != [] ==> c.lots == [])
    requires |c.lots| <= |if side == Buy then b.shorts else b.longs|
    ensures OneSided(if side == Buy then Book(b.longs + added, c.lots) else Book(c.lots, b.shorts + added))
  {}

  /** All trades in the given order. */
  function Matched(trades: seq<Trade>, ds: seq<Decision>): (s: State)
    ensures forall k :: k in s.books ==> OneSided(s.books[k])
  {
    if trades == [] then START else
      var t := trades[|trades| - 1];
      var before := Matched(trades[..|trades| - 1], ds);
      var d := DecisionBefore(ds, t.symbol, t.side, t.at);
      ApplyOneSided(before, t, d);
      Apply(before, t, d)
  }

  predicate InOrder(trades: seq<Trade>) {
    forall i, j :: 0 <= i < j < |trades| ==> trades[i].at <= trades[j].at
  }

  function InsertTrade(ts: seq<Trade>, t: Trade): (r: seq<Trade>)
    requires InOrder(ts)
    ensures InOrder(r) && |r| == |ts| + 1
    ensures ts == [] || ts[|ts| - 1].at <= t.at ==> r == ts + [t]
    ensures ts != [] && ts[|ts| - 1].at > t.at ==> r[|r| - 1] == ts[|ts| - 1]
  {
    if ts == [] || ts[|ts| - 1].at <= t.at then ts + [t]
    else InsertTrade(ts[..|ts| - 1], t) + [ts[|ts| - 1]]
  }

  /** `sorted(trades, key=timestamp)`. */
  function ByTime(trades: seq<Trade>): (r: seq<Trade>)
    ensures InOrder(r) && |r| == |trades|
    ensures InOrder(trades) ==> r == trades
  {
    if trades == [] then [] else
      var r := InsertTrade(ByTime(trades[..|trades| - 1]), trades[|trades| - 1]);
      assert trades == trades[..|trades| - 1] + [trades[|trades| - 1]];
      r
  }

  /** The inner `while` loop, consuming the deque from its head. */
  method CloseLots(lots: seq<Lot>, trade: Trade, decision: Option<Decision>)
    returns (closing: seq<Lot>, remaining: real, trips: seq<Trip>)
    requires Positive(lots)
    ensures Closing(closing, remaining, trips) == Close(lots, trade.qty, trade, decision)
  {
    hide TripOf, Close, Prepend;
    PrependNothing(Close(lots, trade.qty, trade, decision));
    closing, remaining, trips := lots, trade.qty, [];
    while remaining > 0.0 && closing != []
      invariant Positive(closing)
      invariant Prepend(trips, Close(closing, remaining, trade, decision)) == Close(lots, trade.qty, trade, decision)
      decreases |closing|, remaining > 0.0
    {
      CloseTurn(trips, closing, remaining, trade, decision);
      var lot := closing[0];
      var matched := MinReal(remaining, lot.qty);
      trips := trips + [TripOf(lot, trade, matched, decision)];
      remaining := remaining - matched;
      closing := if lot.qty - matched == 0.0 then closing[1..] else [lot.(qty := lot.qty - matched)] + closing[1..];
    }
    CloseStops(trips, closing, remaining, trade, decision);
  }

  function Prepend(trips: seq<Trip>, c: Closing): Closing {
    c.(trips := trips + c.trips)
  }

  lemma {:induction false} PrependNothing(c: Closing)
    ensures Prepend([], c) == c
  {
    assert [] + c.trips == c.trips;
  }

  /** One turn of the loop matches the head lot and leaves the rest to the remaining turns. */
  lemma {:induction false} CloseTurn(trips: seq<Trip>, lots: seq<Lot>, remaining: real, t: Trade, exit: Option<Decision>)
    requires Positive(lots) && remaining > 0.0 && lots != []
    ensures
      var matched := MinReal(remaining, lots[0].qty);
      var left := lots[0].qty - matched;
      var next := if left == 0.0 then lots[1..] else [lots[0].(qty := left)] + lots[1..];
      && Positive(next)
      && (|next| < |lots| || (|next| == |lots| && remaining - matched <= 0.0))
      && Prepend(trips, Close(lots, remaining, t, exit)) ==
           Prepend(trips + [TripOf(lots[0], t, matched, exit)], Close(next, remaining - matched, t, exit))
  {
    hide TripOf;
    var matched := MinReal(remaining, lots[0].qty);
    var trip := TripOf(lots[0], t, matched, exit);
    var rest := Close(lots, remaining, t, exit).trips[1..];
    assert trips + ([trip] + rest) == trips + [trip] + rest;
  }

  lemma {:induction false} CloseStops(trips: seq<Trip>, lots: seq<Lot>, remaining: real, t: Trade, exit: Option<Decision>)
    requires Positive(lots) && !(remaining > 0.0 && lots != [])
    ensures Prepend(trips, Close(lots, remaining, t, exit)) == Closing(lots, remaining, trips)
  {
    assert trips + [] == trips;
  }

  /** `match_round_trips`, with the dictionaries and deques it updates. */
  method MatchRoundTrips(trades: seq<Trade>, decisions: seq<Decision>) returns (result: seq<Trip>)
    ensures result == Matched(ByTime(trades), decisions).trips
  {
    hide Close, DecisionBefore, Apply;
    var longs: map<string, seq<Lot>> := map[];
    var shorts: map<string, seq<Lot>> := map[];
    result := [];
    var ordered := ByTime(trades);
    for i := 0 to |ordered|
      invariant Represents(longs, shorts, Matched(ordered[..i], decisions).books)
      invariant result == Matched(ordered[..i], decisions).trips
    {
      var trade := ordered[i];
      var decision := DecisionBefore(decisions, trade.symbol, trade.side, trade.at);
      ghost var before := Matched(ordered[..i], decisions);
      MatchedNext(ordered, decisions, i);
      var queue := Queue(if trade.side == Buy then shorts else longs, trade.symbol);
      QueuesPositive(longs, shorts, before.books, trade.symbol);
      var closing, remaining, trips := CloseLots(queue, trade, decision);
      ApplyQueues(longs, shorts, before, trade, decision, Closing(closing, remaining, trips));
      result := result + trips;
      if trade.side == Buy {
        shorts := shorts[trade.symbol := closing];
        longs := Open(longs, trade, remaining, decision);
      } else {
        longs := longs[trade.symbol := closing];
        shorts := Open(shorts, trade, remaining, decision);
      }
    }
    assert ordered[..|ordered|] == ordered;
  }

  lemma {:induction false} MatchedNext(trades: seq<Trade>, ds: seq<Decision>, i: nat)
    requires i < |trades|
    ensures Matched(trades[..i + 1], ds) ==
              Apply(Matched(trades[..i], ds), trades[i], DecisionBefore(ds, trades[i].symbol, trades[i].side, trades[i].at))
  {
    assert trades[..i + 1][..i] == trades[..i];
  }

  lemma {:induction false} QueuesPositive(
    longs: map<string, seq<Lot>>, shorts: map<string, seq<Lot>>, books: map<string, Book>, symbol: string)
    requires Represents(longs, shorts, books) && forall k :: k in books ==> OneSided(books[k])
    ensures Positive(Queue(longs, symbol)) && Positive(Queue(shorts, symbol))
  {
    assert OneSided(BookOf(books, symbol));
  }

  /** Updating the two deques is applying the trade to the symbol's book. */
  lemma {:induction false} ApplyQueues(
    longs: map<string, seq<Lot>>, shorts: map<string, seq<Lot>>, s: State, t: Trade, d: Option<Decision>, c: Closing)
    requires Represents(longs, shorts, s.books) && forall k :: k in s.books ==> OneSided(s.books[k])
    requires Positive(Queue(longs, t.symbol)) && Positive(Queue(shorts, t.symbol))
    requires c == Close(Queue(if t.side == Buy then shorts else longs, t.symbol), t.qty, t, d)
    ensures Apply(s, t, d).trips == s.trips + c.trips
    ensures t.side == Buy ==>
              Represents(Open(longs, t, c.remaining, d), shorts[t.symbol := c.lots], Apply(s, t, d).books)
    ensures t.side == Sell ==>
              Represents(longs[t.symbol := c.lots], Open(shorts, t, c.remaining, d), Apply(s, t, d).books)
  {
    hide Close, Positive, OneSided, Queue, BookOf, Open;
    var book := BookOf(s.books, t.symbol);
    assert book.longs == Queue(longs, t.symbol) && book.shorts == Queue(shorts, t.symbol);
    var books := Apply(s, t, d).books;
    forall k
      ensures t.side == Buy ==> Queue(Open(longs, t, c.remaining, d), k) == BookOf(books, k).longs
      ensures t.side == Buy ==> Queue(shorts[t.symbol := c.lots], k) == BookOf(books, k).shorts
      ensures t.side == Sell ==> Queue(longs[t.symbol := c.lots], k) == BookOf(books, k).longs
      ensures t.side == Sell ==> Queue(Open(shorts, t, c.remaining, d), k) == BookOf(books, k).shorts
    {
      PutBook(s.books, t.symbol, books[t.symbol], k);
      PutQueue(longs, t.symbol, c.lots, k);
      PutQueue(shorts, t.symbol, c.lots, k);
      OpenQueue(longs, t, c.remaining, d, k);
      OpenQueue(shorts, t, c.remaining, d, k);
    }
  }

  lemma {:induction false} PutBook(books: map<string, Book>, symbol: string, book: Book, s: string)
    ensures BookOf(books[symbol := book], s) == if s == symbol then book else BookOf(books, s)
  {}

  lemma {:induction false} PutQueue(queues: map<string, seq<Lot>>, symbol: string, lots: seq<Lot>, s: string)
    ensures Queue(queues[symbol := lots], s) == if s == symbol then lots else Queue(queues, s)
  {}

  lemma {:induction false} OpenQueue(queues: map<string, seq<Lot>>, t: Trade, remaining: real, d: Option<Decision>, s: string)
    ensures
      var added := if remaining > 0.0 then [Lot(remaining, t.price, t.at, d)] else [];
      Queue(Open(queues, t, remaining, d), s) == if s == t.symbol then Queue(queues, s) + added else Queue(queues, s)
  {
    assert Queue(queues, s) + [] == Queue(queues, s);
  }

  /** What remains of a trade after closing opens a lot at the tail of its own side's deque. */
  function Open(queues: map<string, seq<Lot>>, t: Trade, remaining: real, d: Option<Decision>): map<string, seq<Lot>> {
    if remaining > 0.0 then queues[t.symbol := Queue(queues, t.symbol) + [Lot(remaining, t.price, t.at, d)]] else queues
  }

  /** `defaultdict(deque)` lookup. */
  function Queue(queues: map<string, seq<Lot>>, symbol: string): seq<Lot> {
    if symbol in queues then queues[symbol] else []
  }

  ghost predicate Represents(longs: map<string, seq<Lot>>, shorts: map<string, seq<Lot>>, books: map<string, Book>) {
    forall s :: Queue(longs, s) == BookOf(books, s).longs && Queue(shorts, s) == BookOf(books, s).shorts
  }
}
