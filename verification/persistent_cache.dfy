/** The monthly read-through bars cache, together with whatever other clients do to its store. */
module PersistentCache {
  import opened Wrappers
  import opened Calendar
  import opened Intervals
  import opened BarsCodec

  const BATCH_SIZE := 16

  datatype Bar = Bar(symbol: string, row: Row)

  /** The rows behind bars that a provider returned. */
  function Rows(bars: seq<Bar>): seq<Row> {
    seq(|bars|, i requires 0 <= i < |bars| => bars[i].row)
  }

  function Tagged(symbol: string, rows: seq<Row>): seq<Bar> {
    seq(|rows|, i requires 0 <= i < |rows| => Bar(symbol, rows[i]))
  }

  /** `fetched.get(symbol, [])`. */
  function Of(bars: map<string, seq<Bar>>, symbol: string): seq<Bar> {
    if symbol in bars then bars[symbol] else []
  }

  predicate AllOf(bars: seq<Bar>, symbol: string) {
    forall i :: 0 <= i < |bars| ==> bars[i].symbol == symbol
  }

  /** Bars of one symbol, strictly ascending, holding exactly the given timeline. */
  ghost predicate Normal(bars: seq<Bar>, symbol: string, tl: Timeline) {
    AllOf(bars, symbol) && Ascending(Rows(bars)) && LastWins(Rows(bars)) == tl
  }

  /** The answer of a fetch, or the exception it raised. */
  type Answer = Result<map<string, seq<Bar>>>

  /** What a provider answers to its n-th call; it may answer equal questions differently. */
  type Fetcher = (nat, seq<string>, Timeframe, int, int) -> Answer

  /** What really happened, per resolution and symbol. */
  type Upstream = (Timeframe, string) -> Timeline

  /**
   * Whenever an answer passes the symbol check, its bars inside the window are upstream's. Order,
   * superseded duplicates and rows outside the window (such as an inclusive end) are free, and a
   * call may also fail.
   */
  ghost predicate HonestFetcher(fetch: Fetcher, up: Upstream) {
    forall n: nat, symbols: seq<string>, tf, a, b :: fetch(n, symbols, tf, a, b).Success? ==>
      forall s :: s in symbols && AllOf(Of(fetch(n, symbols, tf, a, b).value, s), s) ==>
        Restrict(LastWins(Rows(Of(fetch(n, symbols, tf, a, b).value, s))), a, b) == Restrict(up(tf, s), a, b)
  }

  /** A provider that never raises and never mislabels a bar. */
  ghost predicate Reliable(fetch: Fetcher) {
    forall n: nat, symbols: seq<string>, tf, a, b :: fetch(n, symbols, tf, a, b).Success? &&
      forall s :: s in symbols ==> AllOf(Of(fetch(n, symbols, tf, a, b).value, s), s)
  }

  /**
   * A current, complete table of the key's own symbol, timeframe and month, ordered and within the month,
   * holds what upstream holds; whatever else lies under a key may say anything.
   */
  ghost predicate HonestPayload(key: Key, p: Payload, up: Upstream) {
    (&& ValidMonth(key.month)
     && p.Table? && p.version == 2 && p.schemaValid && !p.nulls
     && p.symbol == key.symbol && p.timeframe == key.timeframe && p.month == key.month
     && WellFormed(Chunk(p.rows, p.coverage))
     && forall i :: 0 <= i < |p.coverage| ==>
          MonthStart(key.month) <= p.coverage[i].lo < p.coverage[i].hi <= MonthStart(NextMonth(key.month)))
    ==> Honest(Chunk(p.rows, p.coverage), up(key.timeframe, key.symbol))
  }

  ghost predicate HonestStore(data: map<Key, Payload>, up: Upstream) {
    forall key :: key in data ==> HonestPayload(key, data[key], up)
  }

  /** The store can answer for this instant without a fetch. */
  ghost predicate CachedAt(data: map<Key, Payload>, tf: Timeframe, symbol: string, t: int) {
    && MIN_TIME <= t
    && Key(tf, symbol, MonthOf(t)) in data
    && Readable(data[Key(tf, symbol, MonthOf(t))], Key(tf, symbol, MonthOf(t)))
    && Covered(data[Key(tf, symbol, MonthOf(t))].coverage, t)
  }

  ghost predicate CoverageBefore(p: Payload, today: int) {
    p.Table? ==> forall t :: Covered(p.coverage, t) ==> t < today
  }

  // ------------------------------------------------------------- normalize

  method SortedRows(dict: Timeline) returns (rows: seq<Row>)
    ensures Ascending(rows) && LastWins(rows) == dict
  {
    rows := [];
    var left := dict.Keys;
    while left != {}
      invariant left <= dict.Keys
      invariant Ascending(rows)
      invariant LastWins(rows) == map ts | ts in dict && ts !in left :: dict[ts]
      decreases left
    {
      SomeTimestamp(left);
      var ts :| ts in left;
      InsertNew(rows, Row(ts, dict[ts]));
      rows := InsertRow(rows, Row(ts, dict[ts]));
      left := left - {ts};
    }
  }

  lemma {:induction false} SomeTimestamp(left: set<int>)
    requires left != {}
    ensures exists ts :: ts in left
  {
    assert (forall ts :: ts !in left) ==> left == {};
  }

  lemma {:induction false} InsertNew(rows: seq<Row>, r: Row)
    requires Ascending(rows) && r.ts !in LastWins(rows)
    ensures Ascending(InsertRow(rows, r))
    ensures LastWins(InsertRow(rows, r)) == LastWins(rows)[r.ts := r.values]
  {
    InsertOverwrites(rows, r);
    LastWinsKeys(rows);
    InsertKeepsAscending(rows, r);
  }

  lemma {:induction false} InsertKeepsAscending(rows: seq<Row>, r: Row)
    requires Ascending(rows) && !Stamped(rows, r.ts)
    ensures Ascending(InsertRow(rows, r))
  {
    if rows != [] {
      var front, last := rows[..|rows| - 1], rows[|rows| - 1];
      assert Stamped(rows, last.ts);
      if last.ts > r.ts {
        assert forall ts :: Stamped(front, ts) ==> Stamped(rows, ts) by {
          forall ts | Stamped(front, ts) ensures Stamped(rows, ts) {
            var i :| 0 <= i < |front| && front[i].ts == ts;
            assert rows[i].ts == ts;
          }
        }
        InsertKeepsAscending(front, r);
      }
    }
  }

  lemma {:induction false} NothingYet(start: int, end: int)
    ensures Restrict(LastWins(Rows([])), start, end) == map[]
  {}

  lemma {:induction false} RowsOfTagged(symbol: string, rows: seq<Row>)
    ensures Rows(Tagged(symbol, rows)) == rows && AllOf(Tagged(symbol, rows), symbol)
  {}

  lemma {:induction false} OneMoreBar(bars: seq<Bar>, bar: Bar, start: int, end: int)
    ensures
      var before := Restrict(LastWins(Rows(bars)), start, end);
      Restrict(LastWins(Rows(bars + [bar])), start, end) ==
        if start <= bar.row.ts < end then before[bar.row.ts := bar.row.values] else before
  {
    hide LastWins;
    assert Rows(bars + [bar]) == Rows(bars) + [bar.row];
    LastWinsAppend(Rows(bars), bar.row);
  }

  /** `_normalize`: one symbol's bars inside the window, deduplicated, oldest first. */
  method Normalize(bars: seq<Bar>, symbol: string, start: int, end: int) returns (r: Result<seq<Bar>>)
    ensures r.Success? <==> AllOf(bars, symbol)
    ensures r.Success? ==> Normal(r.value, symbol, Restrict(LastWins(Rows(bars)), start, end))
  {
    hide LastWins, Rows, Restrict, Ascending;
    var rows: Timeline := map[];
    NothingYet(start, end);
    for i := 0 to |bars|
      invariant AllOf(bars[..i], symbol)
      invariant rows == Restrict(LastWins(Rows(bars[..i])), start, end)
    {
      if bars[i].symbol != symbol {
        return Failure("upstream bar symbol mismatch");
      }
      assert bars[..i + 1] == bars[..i] + [bars[i]];
      OneMoreBar(bars[..i], bars[i], start, end);
      if start <= bars[i].row.ts < end {
        rows := rows[bars[i].row.ts := bars[i].row.values];
      }
    }
    assert bars[..|bars|] == bars;
    var ordered := SortedRows(rows);
    RowsOfTagged(symbol, ordered);
    r := Success(Tagged(symbol, ordered));
  }

  /** Two normal forms of the same timeline are the same list: a cached answer equals a direct one. */
  lemma {:induction false} NormalUnique(a: seq<Bar>, b: seq<Bar>, symbol: string, tl: Timeline)
    requires Normal(a, symbol, tl) && Normal(b, symbol, tl)
    ensures a == b
  {
    AscendingUnique(Rows(a), Rows(b));
    assert |a| == |Rows(a)| == |b|;
    forall i | 0 <= i < |a| ensures a[i] == b[i] {
      assert Rows(a)[i] == Rows(b)[i];
    }
  }

  // ----------------------------------------------------------------- store

  /**
   * A shared byte store. Before our n-th operation other clients may have removed keys and written
   * whole keys of their own, and our n-th operation may be lost if it is a write.
   */
  class ByteStore {
    var data: map<Key, Payload>
    var clock: nat
    const others: nat -> map<Key, Payload>
    const evicted: nat -> set<Key>
    const lost: nat -> bool

    constructor (data: map<Key, Payload>, others: nat -> map<Key, Payload>, evicted: nat -> set<Key>, lost: nat -> bool)
      ensures this.data == data && this.clock == 0
      ensures this.others == others && this.evicted == evicted && this.lost == lost
    {
      this.data, this.clock := data, 0;
      this.others, this.evicted, this.lost := others, evicted, lost;
    }

    function Interfered(): map<Key, Payload>
      reads this
    {
      (data - evicted(clock)) + others(clock)
    }

    ghost predicate OthersHonest(up: Upstream) {
      forall n: nat :: HonestStore(others(n), up)
    }

    /** Nobody else touches the store and no write is lost. */
    ghost predicate Quiet() {
      forall n: nat :: others(n) == map[] && evicted(n) == {} && !lost(n)
    }

    method Mget(keys: seq<Key>) returns (payloads: seq<Option<Payload>>)
      modifies this
      ensures clock == old(clock) + 1 && data == old(Interfered())
      ensures |payloads| == |keys|
      ensures forall i :: 0 <= i < |keys| ==>
                payloads[i] == if keys[i] in data then Some(data[keys[i]]) else None
    {
      data := Interfered();
      clock := clock + 1;
      var now := data;
      payloads := seq(|keys|, i requires 0 <= i < |keys| => if keys[i] in now then Some(now[keys[i]]) else None);
    }

    method Mset(items: map<Key, Payload>)
      modifies this
      ensures clock == old(clock) + 1
      ensures data == if lost(old(clock)) then old(Interfered()) else old(Interfered()) + items
    {
      data := Interfered();
      if !lost(clock) {
        data := data + items;
      }
      clock := clock + 1;
    }
  }

  // -------------------------------------------------------------- planning

  datatype Request = Request(symbol: string, month: YearMonth)

  datatype Window = Window(start: int, end: int)

  /** The part of a request's month that the call needs from the cache. */
  function Lo(r: Request, w: Window): int
    requires ValidMonth(r.month)
  {
    Max(MonthStart(r.month), w.start)
  }

  function Hi(r: Request, w: Window): int
    requires ValidMonth(r.month)
  {
    Min(MonthStart(NextMonth(r.month)), w.end)
  }

  predicate Planned(requests: seq<Request>, symbols: seq<string>, w: Window) {
    forall i :: 0 <= i < |requests| ==>
      && ValidMonth(requests[i].month)
      && requests[i].symbol in symbols
      && Lo(requests[i], w) < Hi(requests[i], w)
  }

  /** Some request of this symbol needs this instant. */
  predicate Served(requests: seq<Request>, w: Window, symbol: string, t: int)
    requires forall i :: 0 <= i < |requests| ==> ValidMonth(requests[i].month)
  {
    exists i :: 0 <= i < |requests| && requests[i].symbol == symbol && Lo(requests[i], w) <= t < Hi(requests[i], w)
  }

  /** The requests planned so far answer every symbol up to the given month. */
  ghost predicate PlannedUpTo(requests: seq<Request>, symbols: seq<string>, w: Window, month: YearMonth) {
    && ValidMonth(month)
    && Planned(requests, symbols, w)
    && w.start < MonthStart(NextMonth(month))
    && (MonthStart(month) <= w.start || (w.start < w.end && w.start < MonthStart(month)))
    && forall s, t :: s in symbols ==>
         (Served(requests, w, s, t) <==> w.start <= t < Min(MonthStart(month), w.end))
  }

  method PlanRequests(symbols: seq<string>, w: Window) returns (requests: seq<Request>)
    requires MIN_TIME <= w.start
    ensures Planned(requests, symbols, w)
    ensures forall s, t :: s in symbols ==> (Served(requests, w, s, t) <==> w.start <= t < w.end)
  {
    requests := [];
    var month := MonthOf(w.start);
    while w.start < w.end && MonthStart(month) < w.end
      invariant PlannedUpTo(requests, symbols, w, month)
      decreases w.end - MonthStart(month)
    {
      var next := NextMonth(month);
      var added := seq(|symbols|, i requires 0 <= i < |symbols| => Request(symbols[i], month));
      PlanStep(requests, added, symbols, month, w);
      MonthsTile(month);
      requests := requests + added;
      month := next;
    }
  }

  lemma {:induction false} PlanStep(
    requests: seq<Request>, added: seq<Request>, symbols: seq<string>, month: YearMonth, w: Window)
    requires PlannedUpTo(requests, symbols, w, month)
    requires w.start < w.end && MonthStart(month) < w.end
    requires |added| == |symbols| && forall i :: 0 <= i < |added| ==> added[i] == Request(symbols[i], month)
    ensures PlannedUpTo(requests + added, symbols, w, NextMonth(month))
  {
    hide Served, Planned, MonthStart, NextMonth;
    MonthsTile(month);
    MonthsTile(NextMonth(month));
    AddedPlanned(requests, added, symbols, month, w);
    PlannedValid(requests, symbols, w);
    PlannedValid(requests + added, symbols, w);
    forall s, t | s in symbols
      ensures Served(requests + added, w, s, t) <==> w.start <= t < Min(MonthStart(NextMonth(month)), w.end)
    {
      ServedConcat(requests, added, w, s, t);
      AddedServe(added, symbols, month, w, s, t);
    }
  }

  lemma {:induction false} PlannedValid(requests: seq<Request>, symbols: seq<string>, w: Window)
    requires Planned(requests, symbols, w)
    ensures forall i :: 0 <= i < |requests| ==> ValidMonth(requests[i].month)
  {}

  lemma {:induction false} AddedPlanned(
    requests: seq<Request>, added: seq<Request>, symbols: seq<string>, month: YearMonth, w: Window)
    requires Planned(requests, symbols, w) && ValidMonth(month)
    requires Max(MonthStart(month), w.start) < Min(MonthStart(NextMonth(month)), w.end)
    requires |added| == |symbols| && forall i :: 0 <= i < |added| ==> added[i] == Request(symbols[i], month)
    ensures Planned(requests + added, symbols, w)
  {
    hide MonthStart, NextMonth;
    assert forall i :: 0 <= i < |added| ==> symbols[i] in symbols;
  }

  /** A month asked for on behalf of every symbol serves each of them its part of the window. */
  lemma {:induction false} AddedServe(added: seq<Request>, symbols: seq<string>, month: YearMonth, w: Window, s: string, t: int)
    requires ValidMonth(month) && s in symbols
    requires |added| == |symbols| && forall i :: 0 <= i < |added| ==> added[i] == Request(symbols[i], month)
    ensures Served(added, w, s, t) <==> Max(MonthStart(month), w.start) <= t < Min(MonthStart(NextMonth(month)), w.end)
  {
    hide MonthStart, NextMonth;
    var k :| 0 <= k < |symbols| && symbols[k] == s;
    assert added[k].symbol == s;
  }

  lemma {:induction false} ServedConcat(a: seq<Request>, b: seq<Request>, w: Window, symbol: string, t: int)
    requires forall i :: 0 <= i < |a| ==> ValidMonth(a[i].month)
    requires forall i :: 0 <= i < |b| ==> ValidMonth(b[i].month)
    ensures Served(a + b, w, symbol, t) <==> Served(a, w, symbol, t) || Served(b, w, symbol, t)
  {
    if Served(a, w, symbol, t) {
      var i :| 0 <= i < |a| && a[i].symbol == symbol && Lo(a[i], w) <= t < Hi(a[i], w);
      assert (a + b)[i] == a[i];
    }
    if Served(b, w, symbol, t) {
      var i :| 0 <= i < |b| && b[i].symbol == symbol && Lo(b[i], w) <= t < Hi(b[i], w);
      assert (a + b)[|a| + i] == b[i];
    }
  }

  // -------------------------------------------------------------- one batch

  /** A working entry: honest, inside its month, and nothing at or past today's midnight. */
  ghost predicate EntryOk(c: Chunk, r: Request, tf: Timeframe, up: Upstream, today: int) {
    && ValidMonth(r.month)
    && Honest(c, up(tf, r.symbol))
    && forall t :: Covered(c.coverage, t) ==> MonthStart(r.month) <= t < MonthStart(NextMonth(r.month)) && t < today
  }

  ghost predicate EntriesOk(entries: seq<Chunk>, batch: seq<Request>, tf: Timeframe, up: Upstream, today: int) {
    |entries| == |batch| && forall i :: 0 <= i < |batch| ==> EntryOk(entries[i], batch[i], tf, up, today)
  }

  function Gaps(missing: map<string, seq<Interval>>, symbol: string): seq<Interval> {
    if symbol in missing then missing[symbol] else []
  }

  /** Request `r` needs `t` and its entry does not have it. */
  predicate Lacks(entry: Chunk, r: Request, w: Window, t: int)
    requires ValidMonth(r.month)
  {
    Lo(r, w) <= t < Hi(r, w) && !Covered(entry.coverage, t)
  }

  /** The gaps of each symbol are exactly what the first `n` entries of that symbol lack. */
  ghost predicate GapsExact(
    missing: map<string, seq<Interval>>, entries: seq<Chunk>, batch: seq<Request>, w: Window)
    requires |entries| <= |batch|
    requires forall i :: 0 <= i < |batch| ==> ValidMonth(batch[i].month)
  {
    && (forall i, t :: 0 <= i < |entries| && Lacks(entries[i], batch[i], w, t) ==>
          Covered(Gaps(missing, batch[i].symbol), t))
    && (forall s, t :: Covered(Gaps(missing, s), t) ==>
          exists i :: 0 <= i < |entries| && batch[i].symbol == s && Lacks(entries[i], batch[i], w, t))
  }

  function KeyOf(r: Request, tf: Timeframe): Key {
    Key(tf, r.symbol, r.month)
  }

  /** An entry covers exactly what the readable payload of its key covers before today. */
  ghost predicate Retains(entry: Chunk, payload: Option<Payload>, key: Key, today: int)
    requires ValidMonth(key.month)
  {
    forall t :: Covered(entry.coverage, t) <==>
      payload.Some? && Readable(payload.value, key) && Covered(payload.value.coverage, t) && t < today
  }

  ghost predicate AllRetained(loaded: seq<Chunk>, payloads: seq<Option<Payload>>, batch: seq<Request>, tf: Timeframe, today: int)
  {
    |loaded| == |payloads| == |batch| && forall i :: 0 <= i < |batch| ==>
      ValidMonth(batch[i].month) && Retains(loaded[i], payloads[i], KeyOf(batch[i], tf), today)
  }

  function BatchKeys(batch: seq<Request>, tf: Timeframe): (keys: seq<Key>)
    requires forall i :: 0 <= i < |batch| ==> ValidMonth(batch[i].month)
    ensures KeysOf(keys, batch, tf) && |keys| == |batch|
  {
    seq(|batch|, i requires 0 <= i < |batch| => KeyOf(batch[i], tf))
  }

  ghost predicate KeysOf(keys: seq<Key>, batch: seq<Request>, tf: Timeframe) {
    |keys| == |batch| && forall i :: 0 <= i < |batch| ==> keys[i] == KeyOf(batch[i], tf)
  }

  /** Decodes one payload; anything unreadable counts as an empty chunk. */
  method LoadEntry(payload: Option<Payload>, r: Request, tf: Timeframe, today: int, ghost up: Upstream)
    returns (entry: Chunk)
    requires ValidMonth(r.month)
    requires payload.Some? ==> HonestPayload(KeyOf(r, tf), payload.value, up)
    ensures EntryOk(entry, r, tf, up, today)
    ensures Retains(entry, payload, KeyOf(r, tf), today)
  {
    entry := EMPTY;
    if payload.Some? {
      var decoded := Decode(payload.value, KeyOf(r, tf));
      if decoded.Success? {
        entry := Before(decoded.value, today);
        BeforeStaysHonest(decoded.value, today, entry, up(tf, r.symbol));
        InMonthPoints(decoded.value.coverage, r.month);
      }
    }
  }

  lemma {:induction false} InMonthPoints(coverage: seq<Interval>, m: YearMonth)
    requires ValidMonth(m) && InMonth(coverage, MonthStart(m), MonthStart(NextMonth(m)))
    ensures forall t :: Covered(coverage, t) ==> MonthStart(m) <= t < MonthStart(NextMonth(m))
  {}

  method LoadBatch(
    batch: seq<Request>, payloads: seq<Option<Payload>>, tf: Timeframe, w: Window, today: int, ghost up: Upstream)
    returns (entries: seq<Chunk>, missing: map<string, seq<Interval>>, order: seq<string>)
    requires |payloads| == |batch|
    requires forall i :: 0 <= i < |batch| ==> ValidMonth(batch[i].month)
    requires forall i :: 0 <= i < |batch| && payloads[i].Some? ==>
               HonestPayload(KeyOf(batch[i], tf), payloads[i].value, up)
    ensures EntriesOk(entries, batch, tf, up, today)
    ensures AllRetained(entries, payloads, batch, tf, today)
    ensures GapsExact(missing, entries, batch, w)
    ensures forall s :: s in missing <==> s in order
  {
    hide Covered, GapsExact, EntriesOk, AllRetained;
    entries, missing, order := [], map[], [];
    NoEntries(batch, w);
    NoneLoaded(tf, today, up);
    for i := 0 to |batch|
      invariant |entries| == i && EntriesOk(entries, batch[..i], tf, up, today)
      invariant AllRetained(entries, payloads[..i], batch[..i], tf, today)
      invariant GapsExact(missing, entries, batch, w)
      invariant forall s :: s in missing <==> s in order
    {
      var symbol := batch[i].symbol;
      var chunk := LoadEntry(payloads[i], batch[i], tf, today, up);
      var gaps := Missing(chunk.coverage, Lo(batch[i], w), Hi(batch[i], w));
      LoadStep(entries, payloads, batch, chunk, tf, today, up);
      GapsStep(missing, entries, batch, w, chunk, gaps);
      if symbol !in missing {
        order := order + [symbol];
      }
      missing := missing[symbol := Gaps(missing, symbol) + gaps];
      entries := entries + [chunk];
    }
    assert batch[..|batch|] == batch && payloads[..|batch|] == payloads;
  }

  lemma {:induction false} NoneLoaded(tf: Timeframe, today: int, up: Upstream)
    ensures EntriesOk([], [], tf, up, today) && AllRetained([], [], [], tf, today)
  {}

  lemma {:induction false} LoadStep(
    entries: seq<Chunk>, payloads: seq<Option<Payload>>, batch: seq<Request>, chunk: Chunk, tf: Timeframe, today: int, up: Upstream)
    requires |entries| < |batch| == |payloads|
    requires EntriesOk(entries, batch[..|entries|], tf, up, today)
    requires AllRetained(entries, payloads[..|entries|], batch[..|entries|], tf, today)
    requires EntryOk(chunk, batch[|entries|], tf, up, today)
    requires Retains(chunk, payloads[|entries|], KeyOf(batch[|entries|], tf), today)
    ensures EntriesOk(entries + [chunk], batch[..|entries| + 1], tf, up, today)
    ensures AllRetained(entries + [chunk], payloads[..|entries| + 1], batch[..|entries| + 1], tf, today)
  {
    hide Honest, Covered, Retains;
  }

  lemma {:induction false} NoEntries(batch: seq<Request>, w: Window)
    requires forall i :: 0 <= i < |batch| ==> ValidMonth(batch[i].month)
    ensures GapsExact(map[], [], batch, w)
  {}

  lemma {:induction false} GapsStep(
    missing: map<string, seq<Interval>>, entries: seq<Chunk>, batch: seq<Request>, w: Window,
    chunk: Chunk, gaps: seq<Interval>)
    requires |entries| < |batch|
    requires forall i :: 0 <= i < |batch| ==> ValidMonth(batch[i].month)
    requires GapsExact(missing, entries, batch, w)
    requires Complement(gaps, chunk.coverage, Lo(batch[|entries|], w), Hi(batch[|entries|], w))
    ensures GapsExact(
      missing[batch[|entries|].symbol := Gaps(missing, batch[|entries|].symbol) + gaps],
      entries + [chunk], batch, w)
  {
    hide Covered, Lacks, Lo, Hi;
    var n := |entries|;
    var symbol := batch[n].symbol;
    var after := missing[symbol := Gaps(missing, symbol) + gaps];
    var all := entries + [chunk];
    forall t ensures Covered(Gaps(after, symbol), t) <==> Covered(Gaps(missing, symbol), t) || Lacks(chunk, batch[n], w, t) {
      CoveredConcat(Gaps(missing, symbol), gaps, t);
      LacksIs(gaps, chunk, batch[n], w, t);
    }
    forall i, t | 0 <= i < |all| && Lacks(all[i], batch[i], w, t)
      ensures Covered(Gaps(after, batch[i].symbol), t)
    {
      if i < n { assert Lacks(entries[i], batch[i], w, t); }
    }
    forall s, t | Covered(Gaps(after, s), t)
      ensures exists i :: 0 <= i < |all| && batch[i].symbol == s && Lacks(all[i], batch[i], w, t)
    {
      if s == symbol && Lacks(chunk, batch[n], w, t) {
        assert Lacks(all[n], batch[n], w, t);
      } else {
        assert Covered(Gaps(missing, s), t);
        var i :| 0 <= i < |entries| && batch[i].symbol == s && Lacks(entries[i], batch[i], w, t);
        assert Lacks(all[i], batch[i], w, t);
      }
    }
  }

  lemma {:induction false} LacksIs(gaps: seq<Interval>, chunk: Chunk, r: Request, w: Window, t: int)
    requires ValidMonth(r.month) && Complement(gaps, chunk.coverage, Lo(r, w), Hi(r, w))
    ensures Covered(gaps, t) <==> Lacks(chunk, r, w, t)
  {
    hide Covered, Lo, Hi;
  }

  /** Symbol `s` is fetched for an interval containing `t`. */
  predicate Grouped(order: seq<Interval>, groups: map<Interval, seq<string>>, s: string, t: int) {
    exists k :: 0 <= k < |order| && Inside(t, order[k]) && order[k] in groups && s in groups[order[k]]
  }

  ghost predicate GroupsExact(
    order: seq<Interval>, groups: map<Interval, seq<string>>, missing: map<string, seq<Interval>>, done: seq<string>)
  {
    && (forall k :: 0 <= k < |order| ==> order[k] in groups && order[k].lo < order[k].hi)
    && (forall g :: g in groups ==> g in order && groups[g] != [])
    && (forall s, t :: Grouped(order, groups, s, t) <==> s in done && Covered(Gaps(missing, s), t))
  }

  /** Symbols sharing a coalesced gap are fetched together. */
  method GroupGaps(missing: map<string, seq<Interval>>, symbols: seq<string>)
    returns (order: seq<Interval>, groups: map<Interval, seq<string>>)
    ensures GroupsExact(order, groups, missing, symbols)
  {
    order, groups := [], map[];
    for i := 0 to |symbols|
      invariant GroupsExact(order, groups, missing, symbols[..i])
    {
      var gaps := Union(Gaps(missing, symbols[i]));
      ghost var order0, groups0 := order, groups;
      for j := 0 to |gaps|
        invariant forall k :: 0 <= k < |order| ==> order[k] in groups && order[k].lo < order[k].hi
        invariant forall g :: g in groups ==> g in order && groups[g] != []
        invariant forall s, t :: Grouped(order, groups, s, t) <==>
                    Grouped(order0, groups0, s, t) || (s == symbols[i] && Covered(gaps[..j], t))
      {
        var gap := gaps[j];
        GroupStep(order, groups, gap, symbols[i]);
        CoveredAppend(gaps[..j], gap);
        assert gaps[..j + 1] == gaps[..j] + [gap];
        if gap !in groups {
          order := order + [gap];
        }
        groups := groups[gap := (if gap in groups then groups[gap] else []) + [symbols[i]]];
      }
      assert gaps[..|gaps|] == gaps;
      assert forall s :: s in symbols[..i + 1] <==> s in symbols[..i] || s == symbols[i];
    }
    assert symbols[..|symbols|] == symbols;
  }

  lemma {:induction false} GroupStep(
    order: seq<Interval>, groups: map<Interval, seq<string>>, gap: Interval, symbol: string)
    requires forall k :: 0 <= k < |order| ==> order[k] in groups
    requires forall g :: g in groups ==> g in order
    ensures forall s, t ::
              Grouped(if gap in groups then order else order + [gap],
                      groups[gap := (if gap in groups then groups[gap] else []) + [symbol]], s, t)
              <==> Grouped(order, groups, s, t) || (s == symbol && Inside(t, gap))
  {
    var order' := if gap in groups then order else order + [gap];
    var groups' := groups[gap := (if gap in groups then groups[gap] else []) + [symbol]];
    forall s, t
      ensures Grouped(order', groups', s, t) <==> Grouped(order, groups, s, t) || (s == symbol && Inside(t, gap))
    {
      if Grouped(order, groups, s, t) {
        var k :| 0 <= k < |order| && Inside(t, order[k]) && order[k] in groups && s in groups[order[k]];
        assert order'[k] == order[k] && s in groups'[order'[k]];
      }
      if s == symbol && Inside(t, gap) {
        assert gap in order';
        var k :| 0 <= k < |order'| && order'[k] == gap;
        assert s in groups'[order'[k]];
      }
      if Grouped(order', groups', s, t) {
        var k :| 0 <= k < |order'| && Inside(t, order'[k]) && order'[k] in groups' && s in groups'[order'[k]];
        if !(s == symbol && Inside(t, gap)) {
          assert s in groups[order'[k]];
          assert order'[k] in order;
          var l :| 0 <= l < |order| && order[l] == order'[k];
          assert Inside(t, order[l]);
        }
      }
    }
  }

  /** Every point an entry still lacks belongs to a group that has yet to be fetched. */
  ghost predicate Outstanding(
    entries: seq<Chunk>, batch: seq<Request>, w: Window, order: seq<Interval>, groups: map<Interval, seq<string>>)
    requires |entries| == |batch|
    requires forall i :: 0 <= i < |batch| ==> ValidMonth(batch[i].month)
  {
    forall i, t :: 0 <= i < |batch| && Lacks(entries[i], batch[i], w, t) ==>
      Grouped(order, groups, batch[i].symbol, t)
  }

  /** Fetches only ever ask for what lies before the end of the cached window. */
  predicate Bounded(order: seq<Interval>, bound: int) {
    forall k :: 0 <= k < |order| ==> order[k].lo < order[k].hi <= bound
  }

  /** A group's fetch answers this request at `t`. */
  predicate Answers(r: Request, group: seq<string>, gap: Interval, t: int)
    requires ValidMonth(r.month)
  {
    r.symbol in group && Inside(t, gap) && MonthStart(r.month) <= t < MonthStart(NextMonth(r.month))
  }

  /** The first `n` entries cover whatever the group's fetch answers for them. */
  ghost predicate AnsweredUpTo(entries: seq<Chunk>, batch: seq<Request>, group: seq<string>, gap: Interval, n: nat)
    requires n <= |entries| == |batch|
    requires forall i :: 0 <= i < |batch| ==> ValidMonth(batch[i].month)
  {
    forall i, t :: 0 <= i < n && Answers(batch[i], group, gap, t) ==> Covered(entries[i].coverage, t)
  }

  ghost predicate Extends(after: seq<Chunk>, before: seq<Chunk>, changed: set<int>) {
    && |after| == |before|
    && (forall i :: i in changed ==> 0 <= i < |after|)
    && (forall i :: 0 <= i < |after| && i !in changed ==> after[i] == before[i])
    && (forall i, t :: 0 <= i < |after| && Covered(before[i].coverage, t) ==> Covered(after[i].coverage, t))
  }

  /** The last interval a coalesced gap list reaches lies within the window that was asked for. */
  lemma {:induction false} GroupsBounded(
    order: seq<Interval>, groups: map<Interval, seq<string>>, missing: map<string, seq<Interval>>,
    entries: seq<Chunk>, batch: seq<Request>, w: Window, done: seq<string>)
    requires |entries| == |batch|
    requires forall i :: 0 <= i < |batch| ==> ValidMonth(batch[i].month)
    requires GapsExact(missing, entries, batch, w)
    requires GroupsExact(order, groups, missing, done)
    requires forall s :: s in missing <==> s in done
    ensures Bounded(order, w.end)
    ensures Outstanding(entries, batch, w, order, groups)
    ensures (forall i, t :: 0 <= i < |batch| ==> !Lacks(entries[i], batch[i], w, t)) ==> order == []
  {
    forall k | 0 <= k < |order|
      ensures order[k].hi <= w.end
      ensures exists i, t :: 0 <= i < |batch| && Lacks(entries[i], batch[i], w, t)
    {
      var s, t := groups[order[k]][0], order[k].hi - 1;
      assert Inside(t, order[k]) && Grouped(order, groups, s, t);
      assert Covered(Gaps(missing, s), t);
      var i :| 0 <= i < |entries| && batch[i].symbol == s && Lacks(entries[i], batch[i], w, t);
    }
    assert order != [] ==> order[0].hi <= w.end;
    forall i, t | 0 <= i < |batch| && Lacks(entries[i], batch[i], w, t)
      ensures Grouped(order, groups, batch[i].symbol, t)
    {
      assert Covered(Gaps(missing, batch[i].symbol), t);
    }
  }

  /** `BarsFetcher` with half-open UTC ranges and bounded monthly decode batches. */
  class PersistentBarsCache {
    const store: ByteStore
    const fetch: Fetcher
    const encodable: Chunk -> bool
    var calls: nat

    constructor (store: ByteStore, fetch: Fetcher, encodable: Chunk -> bool)
      ensures this.store == store && this.fetch == fetch && this.encodable == encodable && calls == 0
    {
      this.store, this.fetch, this.encodable, this.calls := store, fetch, encodable, 0;
    }

    method CallFetch(symbols: seq<string>, tf: Timeframe, a: int, b: int) returns (answer: Answer)
      modifies this`calls
      ensures calls == old(calls) + 1
      ensures answer == fetch(old(calls), symbols, tf, a, b)
    {
      answer := fetch(calls, symbols, tf, a, b);
      calls := calls + 1;
    }

    /** Merges one group's answer into the batch entries it concerns. */
    method MergeGroup(
      entries0: seq<Chunk>, changed0: set<int>, batch: seq<Request>, group: seq<string>, gap: Interval,
      answer: map<string, seq<Bar>>, tf: Timeframe, today: int, ghost up: Upstream)
      returns (ok: bool, entries: seq<Chunk>, changed: set<int>)
      requires EntriesOk(entries0, batch, tf, up, today)
      requires gap.hi <= today
      requires forall i :: i in changed0 ==> 0 <= i < |batch|
      requires forall s :: s in group && AllOf(Of(answer, s), s) ==>
                 Restrict(LastWins(Rows(Of(answer, s))), gap.lo, gap.hi) == Restrict(up(tf, s), gap.lo, gap.hi)
      ensures (forall s :: s in group ==> AllOf(Of(answer, s), s)) ==> ok
      ensures ok ==> EntriesOk(entries, batch, tf, up, today) && changed0 <= changed
      ensures ok ==> Extends(entries, entries0, changed)
      ensures ok ==> AnsweredUpTo(entries, batch, group, gap, |batch|)
    {
      hide LastWins, Restrict, EntriesOk, Extends, AnsweredUpTo, EntryOk, Covered;
      ok, entries, changed := true, entries0, changed0;
      MergeStart(entries, changed, batch, group, gap, tf, up, today);
      for i := 0 to |batch|
        invariant |entries| == |batch| && (forall k :: 0 <= k < |batch| ==> ValidMonth(batch[k].month))
        invariant ok && EntriesOk(entries, batch, tf, up, today) && changed0 <= changed
        invariant Extends(entries, entries0, changed)
        invariant AnsweredUpTo(entries, batch, group, gap, i)
      {
        EntryAt(entries, batch, tf, up, today, i);
        var symbol := batch[i].symbol;
        var left := Max(gap.lo, MonthStart(batch[i].month));
        var right := Min(gap.hi, MonthStart(NextMonth(batch[i].month)));
        if symbol in group && left < right {
          if AllOf(Of(answer, symbol), symbol) {
            NarrowAnswer(LastWins(Rows(Of(answer, symbol))), up(tf, symbol), gap, Interval(left, right));
          }
          var merged := MergeAnswer(entries[i], Of(answer, symbol), batch[i], Interval(left, right), tf, today, up);
          if merged.Failure? {
            ok := false;
            return;
          }
          MergeStep(entries0, entries, changed, batch, group, gap, i, merged.value, tf, up, today);
          entries := entries[i := merged.value];
          changed := changed + {i};
        } else {
          SkipStep(entries, batch, group, gap, i);
        }
      }
    }

    /** Merges the normalized part of an answer that falls into one entry's month. */
    static method MergeAnswer(
      entry: Chunk, bars: seq<Bar>, r: Request, part: Interval, tf: Timeframe, today: int, ghost up: Upstream)
      returns (merged: Result<Chunk>)
      requires EntryOk(entry, r, tf, up, today)
      requires MonthStart(r.month) <= part.lo < part.hi <= Min(MonthStart(NextMonth(r.month)), today)
      requires AllOf(bars, r.symbol) ==>
                 Restrict(LastWins(Rows(bars)), part.lo, part.hi) == Restrict(up(tf, r.symbol), part.lo, part.hi)
      ensures merged.Success? <==> AllOf(bars, r.symbol)
      ensures merged.Success? ==> EntryOk(merged.value, r, tf, up, today)
      ensures merged.Success? ==> forall t ::
                Covered(merged.value.coverage, t) <==> Covered(entry.coverage, t) || Inside(t, part)
    {
      var added := Normalize(bars, r.symbol, part.lo, part.hi);
      if added.Failure? {
        return Failure(added.error);
      }
      RowsInside(Rows(added.value), up(tf, r.symbol), part.lo, part.hi);
      var chunk := Merge(entry, Rows(added.value), part);
      MergeStaysHonest(entry, Rows(added.value), part, chunk, up(tf, r.symbol));
      merged := Success(chunk);
    }

    /** Fetches every group of missing intervals and merges the answers. */
    method FetchGroups(
      entries0: seq<Chunk>, batch: seq<Request>, order: seq<Interval>, groups: map<Interval, seq<string>>,
      tf: Timeframe, w: Window, today: int, ghost up: Upstream)
      returns (r: Result<(seq<Chunk>, set<int>)>)
      requires HonestFetcher(fetch, up)
      requires EntriesOk(entries0, batch, tf, up, today)
      requires Outstanding(entries0, batch, w, order, groups)
      requires Bounded(order, w.end) && w.end <= today
      requires forall k :: 0 <= k < |order| ==> order[k] in groups
      modifies this`calls
      ensures Reliable(fetch) ==> r.Success?
      ensures r.Success? ==> calls == old(calls) + |order|
      ensures r.Success? ==> EntriesOk(r.value.0, batch, tf, up, today)
      ensures r.Success? ==> Extends(r.value.0, entries0, r.value.1)
      ensures r.Success? ==> forall i, t :: 0 <= i < |batch| ==> !Lacks(r.value.0[i], batch[i], w, t)
    {
      var entries, changed: set<int> := entries0, {};
      for k := 0 to |order|
        invariant calls == old(calls) + k
        invariant EntriesOk(entries, batch, tf, up, today)
        invariant Extends(entries, entries0, changed)
        invariant Outstanding(entries, batch, w, order[k..], groups)
      {
        var group := groups[order[k]];
        var answer := CallFetch(group, tf, order[k].lo, order[k].hi);
        if answer.Failure? {
          return Failure(answer.error);
        }
        ghost var before := entries;
        var ok, merged, touched := MergeGroup(entries, changed, batch, group, order[k], answer.value, tf, today, up);
        if !ok {
          return Failure("upstream bar symbol mismatch");
        }
        entries, changed := merged, touched;
        GroupDone(before, entries, batch, w, order[k..], groups);
        assert order[k..][1..] == order[k + 1..];
      }
      r := Success((entries, changed));
    }

    /** Stores the changed entries; one that cannot be encoded is skipped. */
    method WriteBack(entries: seq<Chunk>, keys: seq<Key>, changed: set<int>)
      returns (items: map<Key, Payload>)
      requires |keys| == |entries|
      requires forall i :: i in changed ==> 0 <= i < |entries|
      modifies store
      ensures Written(items, entries, keys, changed)
      ensures forall i :: i in changed && encodable(entries[i]) ==> keys[i] in items
      ensures items == map[] ==> store.data == old(store.data)
      ensures items != map[] ==>
                store.data == if store.lost(old(store.clock)) then old(store.Interfered())
                              else old(store.Interfered()) + items
    {
      items := map[];
      var left := changed;
      while left != {}
        invariant unchanged(store)
        invariant left <= changed
        invariant forall key :: key in items ==>
                    exists i :: i in changed && keys[i] == key && items[key] == Encode(entries[i], key)
        invariant forall i :: i in changed && i !in left && encodable(entries[i]) ==> keys[i] in items
        decreases left
      {
        SomeTimestamp(left);
        var i :| i in left;
        if encodable(entries[i]) {
          items := items[keys[i] := Encode(entries[i], keys[i])];
        }
        left := left - {i};
      }
      if items != map[] {
        store.Mset(items);
      }
    }

    /** Decodes what was read for a batch and fetches what is missing from it. */
    method CompleteBatch(
      batch: seq<Request>, payloads: seq<Option<Payload>>, tf: Timeframe, w: Window, today: int,
      ghost data: map<Key, Payload>, ghost up: Upstream)
      returns (r: Result<(seq<Chunk>, set<int>)>, ghost loaded: seq<Chunk>)
      requires HonestFetcher(fetch, up) && HonestStore(data, up) && ReadFrom(payloads, batch, tf, data)
      requires forall i :: 0 <= i < |batch| ==> ValidMonth(batch[i].month)
      requires w.end <= today && MIN_TIME <= w.start
      modifies this`calls
      ensures Reliable(fetch) ==> r.Success?
      ensures AllRetained(loaded, payloads, batch, tf, today)
      ensures r.Success? ==> Complete(r.value.0, batch, tf, w, up, today) && Extends(r.value.0, loaded, r.value.1)
      ensures r.Success? && BatchCached(data, batch, tf, w) ==> calls == old(calls)
    {
      var chunks, missing, names := LoadBatch(batch, payloads, tf, w, today, up);
      loaded := chunks;
      var order, groups := GroupGaps(missing, names);
      GroupsBounded(order, groups, missing, chunks, batch, w, names);
      CachedLacksNothing(chunks, payloads, batch, data, tf, w, today, up);
      r := FetchGroups(chunks, batch, order, groups, tf, w, today, up);
    }

    /** Reads, completes and writes back one batch of monthly chunks. */
    method ProcessBatch(batch: seq<Request>, tf: Timeframe, w: Window, today: int, ghost up: Upstream)
      returns (r: Result<seq<Chunk>>)
      requires HonestFetcher(fetch, up) && HonestStore(store.data, up) && store.OthersHonest(up)
      requires forall i :: 0 <= i < |batch| ==> ValidMonth(batch[i].month)
      requires w.end <= today && MIN_TIME <= w.start
      modifies this`calls, store
      ensures HonestStore(store.data, up)
      ensures Reliable(fetch) ==> r.Success?
      ensures r.Success? ==> Complete(r.value, batch, tf, w, up, today)
      ensures AllAttributed(store, old(store.data), store.data, today)
      ensures store.Quiet() ==> Grows(old(store.data), store.data, today)
      ensures store.Quiet() && r.Success? && (forall c :: encodable(c)) ==> BatchCached(store.data, batch, tf, w)
      ensures store.Quiet() && r.Success? && BatchCached(old(store.data), batch, tf, w) ==> calls == old(calls)
    {
      hide HonestStore, AllAttributed, Grows, BatchCached, HonestFetcher, Reliable, EntriesOk, AllRetained, Lacks, Written, KeysOf, ReadFrom, BatchKeys;
      Unchanged(store, store.data, today);
      Interference(store, store.clock, store.data, store.data, up, today);
      var keys := BatchKeys(batch, tf);
      var payloads := store.Mget(keys);
      ReadIs(keys, payloads, batch, tf, store.data);
      ghost var seen := store.data;
      var completed, loaded := CompleteBatch(batch, payloads, tf, w, today, seen, up);
      if completed.Failure? {
        return Failure(completed.error);
      }
      var entries, changed := completed.value.0, completed.value.1;
      ghost var n := store.clock;
      var items := WriteBack(entries, keys, changed);
      BatchWritten(store, n, old(store.data), seen, store.data, items, entries, loaded, payloads, batch, keys, changed,
                   tf, w, up, today);
      r := Success(entries);
    }

    /** Appends what each entry serves of its own window to its symbol's result. */
    method Gather(
      result0: map<string, seq<Bar>>, batch: seq<Request>, entries: seq<Chunk>, ghost done: seq<Request>,
      symbols: seq<string>, tf: Timeframe, w: Window, today: int, ghost up: Upstream)
      returns (result: map<string, seq<Bar>>)
      requires Planned(done, symbols, w) && Planned(batch, symbols, w)
      requires Complete(entries, batch, tf, w, up, today)
      requires Gathered(result0, done, symbols, tf, w, up)
      ensures Gathered(result, done + batch, symbols, tf, w, up)
    {
      hide Gathered, Complete, Slice, LastWins, Restrict, Honest;
      result := result0;
      assert done + batch[..0] == done;
      for i := 0 to |batch|
        invariant Gathered(result, done + batch[..i], symbols, tf, w, up)
      {
        EntryServes(entries, batch, tf, w, up, today, i);
        var symbol := batch[i].symbol;
        var rows := Slice(entries[i].rows, Lo(batch[i], w), Hi(batch[i], w));
        GatherStep(result, done + batch[..i], batch[i], rows, symbols, tf, w, up);
        result := result[symbol := result[symbol] + Tagged(symbol, rows)];
        assert done + batch[..i + 1] == (done + batch[..i]) + [batch[i]];
      }
      assert batch[..|batch|] == batch;
    }

    /** One turn of the batch loop. */
    method ServeBatch(
      result0: map<string, seq<Bar>>, batch: seq<Request>, ghost done: seq<Request>,
      symbols: seq<string>, tf: Timeframe, w: Window, today: int, ghost up: Upstream)
      returns (r: Answer)
      requires HonestFetcher(fetch, up) && HonestStore(store.data, up) && store.OthersHonest(up)
      requires w.end <= today && MIN_TIME <= w.start
      requires Planned(done, symbols, w) && Planned(batch, symbols, w)
      requires Gathered(result0, done, symbols, tf, w, up)
      modifies this`calls, store
      ensures HonestStore(store.data, up)
      ensures Reliable(fetch) ==> r.Success?
      ensures r.Success? ==> Gathered(r.value, done + batch, symbols, tf, w, up)
      ensures AllAttributed(store, old(store.data), store.data, today)
      ensures store.Quiet() ==> Grows(old(store.data), store.data, today)
      ensures store.Quiet() && r.Success? && (forall c :: encodable(c)) ==> BatchCached(store.data, batch, tf, w)
      ensures store.Quiet() && r.Success? && BatchCached(old(store.data), batch, tf, w) ==> calls == old(calls)
    {
      var entries := ProcessBatch(batch, tf, w, today, up);
      if entries.Failure? {
        return Failure(entries.error);
      }
      var result := Gather(result0, batch, entries.value, done, symbols, tf, w, today, up);
      r := Success(result);
    }

    /** Serves the cached part of the window, batch by batch. */
    method CallCached(
      symbols: seq<string>, tf: Timeframe, w: Window, today: int, ghost up: Upstream)
      returns (r: Answer)
      requires HonestFetcher(fetch, up) && HonestStore(store.data, up) && store.OthersHonest(up)
      requires w.end <= today && MIN_TIME <= w.start
      modifies this`calls, store
      ensures HonestStore(store.data, up)
      ensures Reliable(fetch) ==> r.Success?
      ensures r.Success? ==> ServesWindow(r.value, symbols, tf, w, up)
      ensures AllAttributed(store, old(store.data), store.data, today)
      ensures store.Quiet() ==> Grows(old(store.data), store.data, today)
      ensures store.Quiet() && r.Success? && (forall c :: encodable(c)) ==> WindowCached(store.data, symbols, tf, w)
      ensures store.Quiet() && r.Success? && WindowCached(old(store.data), symbols, tf, w) ==> calls == old(calls)
    {
      hide CachedAt, Grows, AllAttributed, HonestStore, HonestFetcher, Reliable, BatchCached, WindowCached, Gathered, Served;
      NothingGathered(symbols, tf, w, up);
      Unchanged(store, store.data, today);
      var result: map<string, seq<Bar>> := map s | s in symbols :: [];
      var requests := PlanRequests(symbols, w);
      PlanCached(store.data, requests, symbols, tf, w);
      NothingPlanned(store.data, requests[..0], tf, w);
      var offset := 0;
      while offset < |requests|
        invariant 0 <= offset <= |requests|
        invariant HonestStore(store.data, up)
        invariant AllAttributed(store, old(store.data), store.data, today)
        invariant Gathered(result, requests[..offset], symbols, tf, w, up)
        invariant store.Quiet() ==> Grows(old(store.data), store.data, today)
        invariant store.Quiet() && (forall c :: encodable(c)) ==> BatchCached(store.data, requests[..offset], tf, w)
        invariant store.Quiet() && BatchCached(old(store.data), requests, tf, w) ==> calls == old(calls)
      {
        var next := Min(offset + BATCH_SIZE, |requests|);
        var batch := requests[offset..next];
        SliceOnward(requests, offset, next);
        ghost var before := store.data;
        var served := ServeBatch(result, batch, requests[..offset], symbols, tf, w, today, up);
        AttributedTransitive(store, old(store.data), before, store.data, today);
        CachedStep(old(store.data), before, store.data, requests, offset, next, tf, w, today);
        if served.Failure? {
          return Failure(served.error);
        }
        result := served.value;
        offset := next;
      }
      assert requests[..|requests|] == requests;
      PlanCached(store.data, requests, symbols, tf, w);
      WholePlanGathered(result, requests, symbols, tf, w, up);
      r := Success(result);
    }

    /** `__call__`: the bars of `[start, end)` for every symbol, at the time `now`. */
    method Call(symbols0: seq<string>, tf: Timeframe, start: int, end: int, now: int, ghost up: Upstream)
      returns (r: Answer)
      requires HonestFetcher(fetch, up) && HonestStore(store.data, up) && store.OthersHonest(up)
      requires MIN_TIME <= start
      modifies this`calls, store
      // Whatever happens, including a fetch that fails half-way, the store stays honest ...
      ensures HonestStore(store.data, up)
      // ... and we never store coverage past today's midnight.
      ensures AllAttributed(store, old(store.data), store.data, Midnight(now))
      // An inverted window is refused; otherwise only a failing or mislabelling provider makes the call fail.
      ensures end < start ==> r.Failure?
      ensures start <= end && Reliable(fetch) ==> r.Success?
      // Transparency: one entry per symbol, exactly upstream's rows of the window in order.
      ensures r.Success? ==> r.value.Keys == set s | s in symbols0
      ensures r.Success? ==> forall s :: s in symbols0 ==> Normal(r.value[s], s, Restrict(up(tf, s), start, end))
      // With the store to itself, a call loses nothing that was cached, caches its whole completed
      // window, and on a fully cached window fetches nothing but the uncached tail.
      ensures store.Quiet() ==> Grows(old(store.data), store.data, Midnight(now))
      ensures store.Quiet() && r.Success? && start < end && (forall c :: encodable(c)) ==>
                WindowCached(store.data, symbols0, tf, Window(start, Min(end, Midnight(now))))
      ensures store.Quiet() && r.Success? && WindowCached(old(store.data), symbols0, tf, Window(start, Min(end, Midnight(now)))) ==>
                calls <= old(calls) + (if end > Midnight(now) then 1 else 0)
    {
      hide CachedAt, Grows, AllAttributed, HonestStore, HonestFetcher, Reliable, WindowCached, ServesWindow, Restrict;
      Unchanged(store, store.data, Midnight(now));
      if end < start {
        return Failure("bars cache end precedes start");
      }
      var symbols := Distinct(symbols0);
      NoSymbols(store.data, symbols0, tf, Window(start, Min(end, Midnight(now))));
      if symbols == [] || start == end {
        forall s | s in symbols0 && start == end ensures Normal([], s, Restrict(up(tf, s), start, end)) {
          EmptyWindow(s, up(tf, s), start);
        }
        return Success(map s | s in symbols :: []);
      }
      var today := Midnight(now);
      var cacheEnd := Min(end, today);
      var w := Window(start, cacheEnd);
      var cached := CallCached(symbols, tf, w, today, up);
      SameSymbols(old(store.data), symbols, symbols0, tf, w);
      SameSymbols(store.data, symbols, symbols0, tf, w);
      if cached.Failure? {
        return Failure(cached.error);
      }
      r := Finish(cached.value, symbols, tf, w, end, up);
    }

    /** Adds the uncached tail, if there is one, and puts every symbol's rows in order. */
    method Finish(
      cached: map<string, seq<Bar>>, symbols: seq<string>, tf: Timeframe, w: Window, end: int, ghost up: Upstream)
      returns (r: Answer)
      requires HonestFetcher(fetch, up) && ServesWindow(cached, symbols, tf, w, up)
      requires NoRepeats(symbols)
      requires w.start < end && w.end <= end
      modifies this`calls
      ensures calls <= old(calls) + (if end > w.end then 1 else 0)
      ensures Reliable(fetch) ==> r.Success?
      ensures r.Success? ==> r.value.Keys == set s | s in symbols
      ensures r.Success? ==> forall s :: s in symbols ==> Normal(r.value[s], s, Restrict(up(tf, s), w.start, end))
    {
      hide HonestFetcher, Reliable, ServesSymbol, Normal, Restrict;
      var result := cached;
      var tailStart := Max(w.start, w.end);
      if end > tailStart {
        var joined := CallTail(result, symbols, tf, w, tailStart, end, up);
        if joined.Failure? {
          return Failure(joined.error);
        }
        result := joined.value;
      }
      r := NormalizeAll(result, symbols, tf, w.start, end, up);
    }

    /** Appends the part of the window that is never cached. */
    method CallTail(
      cached: map<string, seq<Bar>>, symbols: seq<string>, tf: Timeframe, w: Window, tailStart: int, end: int,
      ghost up: Upstream)
      returns (r: Answer)
      requires HonestFetcher(fetch, up) && ServesWindow(cached, symbols, tf, w, up)
      requires NoRepeats(symbols)
      requires tailStart == Max(w.start, w.end) < end
      modifies this`calls
      ensures calls == old(calls) + 1
      ensures Reliable(fetch) ==> r.Success?
      ensures r.Success? ==> ServesWindow(r.value, symbols, tf, Window(w.start, end), up)
    {
      var tail := CallFetch(symbols, tf, tailStart, end);
      if tail.Failure? {
        return Failure(tail.error);
      }
      r := JoinAll(cached, tail.value, symbols, tf, w, tailStart, end, up);
    }

    /** Normalizes and appends each symbol's part of the tail's answer. */
    static method JoinAll(
      cached: map<string, seq<Bar>>, tail: map<string, seq<Bar>>, symbols: seq<string>, tf: Timeframe, w: Window,
      tailStart: int, end: int, ghost up: Upstream)
      returns (r: Answer)
      requires ServesWindow(cached, symbols, tf, w, up)
      requires NoRepeats(symbols)
      requires tailStart == Max(w.start, w.end) < end
      requires forall s :: s in symbols && AllOf(Of(tail, s), s) ==>
                 Restrict(LastWins(Rows(Of(tail, s))), tailStart, end) == Restrict(up(tf, s), tailStart, end)
      ensures r.Success? <==> forall s :: s in symbols ==> AllOf(Of(tail, s), s)
      ensures r.Success? ==> ServesWindow(r.value, symbols, tf, Window(w.start, end), up)
    {
      hide LastWins, Restrict, Rows, ServesSymbol, AllOf, Ascending, Joined, ServesWindow;
      var result := cached;
      NothingJoined(cached, tail, symbols, tf, w, end, up);
      for i := 0 to |symbols|
        invariant Joined(result, cached, tail, symbols, i, tf, w, end, up)
      {
        NotYetJoined(result, cached, tail, symbols, i, tf, w, end, up);
        var s := symbols[i];
        var rest := Normalize(Of(tail, s), s, tailStart, end);
        if rest.Failure? {
          return Failure(rest.error);
        }
        JoinTail(result[s], rest.value, s, up(tf, s), w, tailStart, end);
        JoinStep(result, cached, tail, symbols, i, result[s] + rest.value, tf, w, end, up);
        result := result[s := result[s] + rest.value];
      }
      AllJoined(result, cached, tail, symbols, tf, w, end, up);
      r := Success(result);
    }

    /** The final `_normalize` of every symbol's accumulated rows. */
    static method NormalizeAll(
      result: map<string, seq<Bar>>, symbols: seq<string>, tf: Timeframe, start: int, end: int, ghost up: Upstream)
      returns (r: Answer)
      requires forall s :: s in symbols ==> s in result && ServesSymbol(result[s], s, up(tf, s), start, end)
      ensures r.Success? && r.value.Keys == set s | s in symbols
      ensures forall s :: s in symbols ==> Normal(r.value[s], s, Restrict(up(tf, s), start, end))
    {
      var out: map<string, seq<Bar>> := map[];
      for i := 0 to |symbols|
        invariant out.Keys == set s | s in symbols[..i]
        invariant forall s :: s in symbols[..i] ==> Normal(out[s], s, Restrict(up(tf, s), start, end))
      {
        var s := symbols[i];
        var bars := Normalize(result[s], s, start, end);
        assert symbols[..i + 1] == symbols[..i] + [s];
        out := out[s := bars.value];
      }
      assert symbols[..|symbols|] == symbols;
      r := Success(out);
    }
  }

  lemma {:induction false} MergeStart(
    entries: seq<Chunk>, changed: set<int>, batch: seq<Request>, group: seq<string>, gap: Interval,
    tf: Timeframe, up: Upstream, today: int)
    requires EntriesOk(entries, batch, tf, up, today) && forall i :: i in changed ==> 0 <= i < |batch|
    ensures |entries| == |batch| && forall i :: 0 <= i < |batch| ==> ValidMonth(batch[i].month)
    ensures Extends(entries, entries, changed) && AnsweredUpTo(entries, batch, group, gap, 0)
  {
    hide Covered, Honest;
  }

  lemma {:induction false} EntryAt(
    entries: seq<Chunk>, batch: seq<Request>, tf: Timeframe, up: Upstream, today: int, i: nat)
    requires EntriesOk(entries, batch, tf, up, today) && i < |batch|
    ensures |entries| == |batch| && EntryOk(entries[i], batch[i], tf, up, today) && ValidMonth(batch[i].month)
  {
    hide Covered, Honest;
  }

  /** Where the group's fetch has nothing for an entry, it counts as answered. */
  lemma {:induction false} SkipStep(
    entries: seq<Chunk>, batch: seq<Request>, group: seq<string>, gap: Interval, i: nat)
    requires |entries| == |batch| && i < |batch| && forall k :: 0 <= k < |batch| ==> ValidMonth(batch[k].month)
    requires AnsweredUpTo(entries, batch, group, gap, i)
    requires !(batch[i].symbol in group &&
               Max(gap.lo, MonthStart(batch[i].month)) < Min(gap.hi, MonthStart(NextMonth(batch[i].month))))
    ensures AnsweredUpTo(entries, batch, group, gap, i + 1)
  {
    hide Covered;
  }

  lemma {:induction false} MergeStep(
    entries0: seq<Chunk>, entries: seq<Chunk>, changed: set<int>, batch: seq<Request>, group: seq<string>,
    gap: Interval, i: nat, merged: Chunk, tf: Timeframe, up: Upstream, today: int)
    requires EntriesOk(entries, batch, tf, up, today) && i < |batch|
    requires Extends(entries, entries0, changed)
    requires AnsweredUpTo(entries, batch, group, gap, i)
    requires EntryOk(merged, batch[i], tf, up, today)
    requires forall t :: Covered(merged.coverage, t) <==>
               (Covered(entries[i].coverage, t) ||
                Inside(t, Interval(Max(gap.lo, MonthStart(batch[i].month)), Min(gap.hi, MonthStart(NextMonth(batch[i].month))))))
    ensures EntriesOk(entries[i := merged], batch, tf, up, today)
    ensures Extends(entries[i := merged], entries0, changed + {i})
    ensures AnsweredUpTo(entries[i := merged], batch, group, gap, i + 1)
  {
    var after := entries[i := merged];
    forall k, t | 0 <= k < |after| && Covered(entries0[k].coverage, t) ensures Covered(after[k].coverage, t) {
      assert Covered(entries[k].coverage, t);
    }
    forall k, t | 0 <= k < i + 1 && Answers(batch[k], group, gap, t) ensures Covered(after[k].coverage, t) {
      if k < i { assert Covered(entries[k].coverage, t); }
    }
  }

  predicate NoRepeats(symbols: seq<string>) {
    forall i, j :: 0 <= i < j < |symbols| ==> symbols[i] != symbols[j]
  }

  /** `list(dict.fromkeys(symbols))`. */
  function Distinct(symbols: seq<string>): (r: seq<string>)
    ensures forall s :: s in r <==> s in symbols
    ensures NoRepeats(r)
  {
    if symbols == [] then [] else
      var front := Distinct(symbols[..|symbols| - 1]);
      var last := symbols[|symbols| - 1];
      assert forall s :: s in symbols <==> s in symbols[..|symbols| - 1] || s == last;
      if last in front then front else front + [last]
  }

  /** Upstream's rows at the instants that some request of the symbol needs. */
  ghost function ServedRows(tl: Timeline, requests: seq<Request>, w: Window, symbol: string): Timeline
    requires forall i :: 0 <= i < |requests| ==> ValidMonth(requests[i].month)
  {
    map ts | ts in tl && Served(requests, w, symbol, ts) :: tl[ts]
  }

  ghost predicate Gathered(
    result: map<string, seq<Bar>>, requests: seq<Request>, symbols: seq<string>, tf: Timeframe, w: Window, up: Upstream)
  {
    && Planned(requests, symbols, w)
    && result.Keys == (set s | s in symbols)
    && forall s :: s in symbols ==>
         AllOf(result[s], s) && LastWins(Rows(result[s])) == ServedRows(up(tf, s), requests, w, s)
  }

  /** Rows of one symbol that amount to upstream's rows of the window. */
  ghost predicate ServesSymbol(bars: seq<Bar>, symbol: string, tl: Timeline, start: int, end: int) {
    AllOf(bars, symbol) && LastWins(Rows(bars)) == Restrict(tl, start, end)
  }

  ghost predicate ServesWindow(
    result: map<string, seq<Bar>>, symbols: seq<string>, tf: Timeframe, w: Window, up: Upstream)
  {
    && result.Keys == (set s | s in symbols)
    && forall s :: s in symbols ==> ServesSymbol(result[s], s, up(tf, s), w.start, w.end)
  }

  /** Every instant of the window is cached for every symbol. */
  ghost predicate WindowCached(data: map<Key, Payload>, symbols: seq<string>, tf: Timeframe, w: Window) {
    forall s, t :: s in symbols && w.start <= t < w.end ==> CachedAt(data, tf, s, t)
  }

  lemma {:induction false} SameSymbols(data: map<Key, Payload>, a: seq<string>, b: seq<string>, tf: Timeframe, w: Window)
    requires forall s :: s in a <==> s in b
    ensures WindowCached(data, a, tf, w) <==> WindowCached(data, b, tf, w)
  {}

  lemma {:induction false} NothingGathered(symbols: seq<string>, tf: Timeframe, w: Window, up: Upstream)
    ensures Gathered(map s | s in symbols :: [], [], symbols, tf, w, up)
  {
    assert Rows([]) == [];
  }

  lemma {:induction false} GatherStep(
    result: map<string, seq<Bar>>, done: seq<Request>, r: Request, rows: seq<Row>, symbols: seq<string>,
    tf: Timeframe, w: Window, up: Upstream)
    requires Gathered(result, done, symbols, tf, w, up)
    requires ValidMonth(r.month) && r.symbol in symbols && Lo(r, w) < Hi(r, w)
    requires LastWins(rows) == Restrict(up(tf, r.symbol), Lo(r, w), Hi(r, w))
    ensures r.symbol in result
    ensures Gathered(result[r.symbol := result[r.symbol] + Tagged(r.symbol, rows)], done + [r], symbols, tf, w, up)
  {
    hide Served, ServedRows, Restrict, LastWins, AllOf, Lo, Hi;
    var after := result[r.symbol := result[r.symbol] + Tagged(r.symbol, rows)];
    assert Planned(done + [r], symbols, w);
    forall s | s in symbols
      ensures AllOf(after[s], s) && LastWins(Rows(after[s])) == ServedRows(up(tf, s), done + [r], w, s)
    {
      ServedOneMore(up(tf, s), done, r, w, s);
      AppendTagged(result[r.symbol], r.symbol, rows);
    }
  }

  lemma {:induction false} AppendTagged(bars: seq<Bar>, symbol: string, rows: seq<Row>)
    requires AllOf(bars, symbol)
    ensures AllOf(bars + Tagged(symbol, rows), symbol)
    ensures LastWins(Rows(bars + Tagged(symbol, rows))) == LastWins(Rows(bars)) + LastWins(rows)
  {
    hide LastWins;
    assert Rows(bars + Tagged(symbol, rows)) == Rows(bars) + rows;
    LastWinsConcat(Rows(bars), rows);
  }

  /** One more request adds its own window of upstream's rows to its symbol, and nothing to others. */
  lemma {:induction false} ServedOneMore(tl: Timeline, done: seq<Request>, r: Request, w: Window, s: string)
    requires forall i :: 0 <= i < |done| ==> ValidMonth(done[i].month)
    requires ValidMonth(r.month)
    ensures ServedRows(tl, done + [r], w, s) ==
              if s == r.symbol then ServedRows(tl, done, w, s) + Restrict(tl, Lo(r, w), Hi(r, w))
              else ServedRows(tl, done, w, s)
  {
    assert [r][0] == r;
    forall t ensures Served(done + [r], w, s, t) <==> Served(done, w, s, t) || (s == r.symbol && Lo(r, w) <= t < Hi(r, w)) {
      ServedConcat(done, [r], w, s, t);
    }
  }

  lemma {:induction false} WholePlanGathered(
    result: map<string, seq<Bar>>, requests: seq<Request>, symbols: seq<string>, tf: Timeframe, w: Window, up: Upstream)
    requires Gathered(result, requests, symbols, tf, w, up)
    requires forall s, t :: s in symbols ==> (Served(requests, w, s, t) <==> w.start <= t < w.end)
    ensures ServesWindow(result, symbols, tf, w, up)
  {
    forall s | s in symbols ensures ServesSymbol(result[s], s, up(tf, s), w.start, w.end) {
      assert ServedRows(up(tf, s), requests, w, s) == Restrict(up(tf, s), w.start, w.end);
    }
  }

  /** The first `n` symbols have their tail, the others still what was cached. */
  ghost predicate Joined(
    result: map<string, seq<Bar>>, cached: map<string, seq<Bar>>, tail: map<string, seq<Bar>>, symbols: seq<string>, n: nat,
    tf: Timeframe, w: Window, end: int, up: Upstream)
  {
    && result.Keys == cached.Keys == (set s | s in symbols)
    && forall k :: 0 <= k < |symbols| ==>
         if k < n then AllOf(Of(tail, symbols[k]), symbols[k]) &&
                       ServesSymbol(result[symbols[k]], symbols[k], up(tf, symbols[k]), w.start, end)
         else result[symbols[k]] == cached[symbols[k]]
  }

  lemma {:induction false} NothingJoined(
    cached: map<string, seq<Bar>>, tail: map<string, seq<Bar>>, symbols: seq<string>,
    tf: Timeframe, w: Window, end: int, up: Upstream)
    requires ServesWindow(cached, symbols, tf, w, up)
    ensures Joined(cached, cached, tail, symbols, 0, tf, w, end, up)
  {}

  lemma {:induction false} NotYetJoined(
    result: map<string, seq<Bar>>, cached: map<string, seq<Bar>>, tail: map<string, seq<Bar>>, symbols: seq<string>, i: nat,
    tf: Timeframe, w: Window, end: int, up: Upstream)
    requires Joined(result, cached, tail, symbols, i, tf, w, end, up) && i < |symbols|
    requires ServesWindow(cached, symbols, tf, w, up)
    ensures symbols[i] in symbols && symbols[i] in result
    ensures ServesSymbol(result[symbols[i]], symbols[i], up(tf, symbols[i]), w.start, w.end)
  {
    hide ServesSymbol, AllOf;
  }

  lemma {:induction false} JoinStep(
    result: map<string, seq<Bar>>, cached: map<string, seq<Bar>>, tail: map<string, seq<Bar>>, symbols: seq<string>, i: nat,
    bars: seq<Bar>, tf: Timeframe, w: Window, end: int, up: Upstream)
    requires NoRepeats(symbols) && i < |symbols| && Joined(result, cached, tail, symbols, i, tf, w, end, up)
    requires AllOf(Of(tail, symbols[i]), symbols[i])
    requires ServesSymbol(bars, symbols[i], up(tf, symbols[i]), w.start, end)
    ensures Joined(result[symbols[i] := bars], cached, tail, symbols, i + 1, tf, w, end, up)
  {
    hide ServesSymbol, AllOf;
    assert symbols[i] in symbols;
  }

  lemma {:induction false} AllJoined(
    result: map<string, seq<Bar>>, cached: map<string, seq<Bar>>, tail: map<string, seq<Bar>>, symbols: seq<string>,
    tf: Timeframe, w: Window, end: int, up: Upstream)
    requires Joined(result, cached, tail, symbols, |symbols|, tf, w, end, up)
    ensures forall s :: s in symbols ==> AllOf(Of(tail, s), s)
    ensures ServesWindow(result, symbols, tf, Window(w.start, end), up)
  {
    hide ServesSymbol, AllOf;
    forall s | s in symbols
      ensures AllOf(Of(tail, s), s) && ServesSymbol(result[s], s, up(tf, s), w.start, end)
    {
      var k :| 0 <= k < |symbols| && symbols[k] == s;
    }
  }

  lemma {:induction false} JoinTail(
    front: seq<Bar>, rest: seq<Bar>, symbol: string, tl: Timeline, w: Window, tailStart: int, end: int)
    requires ServesSymbol(front, symbol, tl, w.start, w.end)
    requires AllOf(rest, symbol) && LastWins(Rows(rest)) == Restrict(tl, tailStart, end)
    requires tailStart == Max(w.start, w.end) < end
    ensures ServesSymbol(front + rest, symbol, tl, w.start, end)
  {
    assert Rows(front + rest) == Rows(front) + Rows(rest);
    LastWinsConcat(Rows(front), Rows(rest));
  }

  /** The plan's windows together are the call's window. */
  lemma {:induction false} PlanCached(
    data: map<Key, Payload>, requests: seq<Request>, symbols: seq<string>, tf: Timeframe, w: Window)
    requires Planned(requests, symbols, w)
    requires forall s, t :: s in symbols ==> (Served(requests, w, s, t) <==> w.start <= t < w.end)
    ensures BatchCached(data, requests, tf, w) <==> WindowCached(data, symbols, tf, w)
  {
    forall s, t | BatchCached(data, requests, tf, w) && s in symbols && w.start <= t < w.end
      ensures CachedAt(data, tf, s, t)
    {
      assert Served(requests, w, s, t);
      var i :| 0 <= i < |requests| && requests[i].symbol == s && Lo(requests[i], w) <= t < Hi(requests[i], w);
    }
  }

  lemma {:induction false} EmptyWindow(symbol: string, tl: Timeline, at: int)
    ensures Normal([], symbol, Restrict(tl, at, at))
  {
    assert Rows([]) == [];
  }

  lemma {:induction false} NoSymbols(data: map<Key, Payload>, symbols: seq<string>, tf: Timeframe, w: Window)
    ensures (forall s :: s !in symbols) ==> WindowCached(data, symbols, tf, w)
  {}

  lemma {:induction false} NothingPlanned(data: map<Key, Payload>, none: seq<Request>, tf: Timeframe, w: Window)
    requires none == []
    ensures BatchCached(data, none, tf, w)
  {}

  lemma {:induction false} Unchanged(store: ByteStore, data: map<Key, Payload>, today: int)
    ensures AllAttributed(store, data, data, today) && Grows(data, data, today)
  {}

  lemma {:induction false} SliceOnward<T>(xs: seq<T>, i: nat, j: nat)
    requires i <= j <= |xs|
    ensures xs[..j] == xs[..i] + xs[i..j]
  {}

  /** How the store's contents before, after and since the start of one batch hang together. */
  lemma {:induction false} CachedStep(
    old_: map<Key, Payload>, before: map<Key, Payload>, after: map<Key, Payload>, requests: seq<Request>,
    offset: nat, next: nat, tf: Timeframe, w: Window, today: int)
    requires forall i :: 0 <= i < |requests| ==> ValidMonth(requests[i].month)
    requires offset <= next <= |requests| && w.end <= today
    ensures Grows(old_, before, today) && BatchCached(old_, requests, tf, w) ==>
              BatchCached(before, requests[offset..next], tf, w)
    ensures (Grows(before, after, today) && BatchCached(before, requests[..offset], tf, w) &&
             BatchCached(after, requests[offset..next], tf, w)) ==> BatchCached(after, requests[..next], tf, w)
    ensures Grows(old_, before, today) && Grows(before, after, today) ==> Grows(old_, after, today)
  {
    hide CachedAt;
    var batch := requests[offset..next];
    if Grows(old_, before, today) && BatchCached(old_, requests, tf, w) {
      assert forall i :: 0 <= i < |batch| ==> batch[i] == requests[offset + i];
    }
    if Grows(before, after, today) && BatchCached(before, requests[..offset], tf, w) && BatchCached(after, batch, tf, w) {
      CachedOnward(before, after, requests, offset, next, tf, w, today);
    }
  }

  lemma {:induction false} CachedOnward(
    before: map<Key, Payload>, after: map<Key, Payload>, requests: seq<Request>,
    offset: nat, next: nat, tf: Timeframe, w: Window, today: int)
    requires forall i :: 0 <= i < |requests| ==> ValidMonth(requests[i].month)
    requires offset <= next <= |requests| && w.end <= today
    requires Grows(before, after, today) && BatchCached(before, requests[..offset], tf, w)
    requires BatchCached(after, requests[offset..next], tf, w)
    ensures BatchCached(after, requests[..next], tf, w)
  {
    hide CachedAt;
    forall i, t | 0 <= i < next && Lo(requests[i], w) <= t < Hi(requests[i], w)
      ensures CachedAt(after, tf, requests[i].symbol, t)
    {
      if i < offset {
        assert requests[..offset][i] == requests[i] && CachedAt(before, tf, requests[i].symbol, t);
      } else {
        assert requests[offset..next][i - offset] == requests[i];
      }
    }
  }

  lemma {:induction false} AttributedTransitive(
    store: ByteStore, old_: map<Key, Payload>, middle: map<Key, Payload>, data: map<Key, Payload>, today: int)
    requires AllAttributed(store, old_, middle, today) && AllAttributed(store, middle, data, today)
    ensures AllAttributed(store, old_, data, today)
  {
    forall key | key in data ensures Attributed(store, old_, key, data[key], today) {
      assert Attributed(store, middle, key, data[key], today);
    }
  }

  /** A completed entry's slice is what upstream holds for its part of the window. */
  lemma {:induction false} EntryServes(
    entries: seq<Chunk>, batch: seq<Request>, tf: Timeframe, w: Window, up: Upstream, today: int, i: nat)
    requires Complete(entries, batch, tf, w, up, today) && i < |batch|
    ensures |entries| == |batch| && ValidMonth(batch[i].month) && Ascending(entries[i].rows)
    ensures LastWins(Slice(entries[i].rows, Lo(batch[i], w), Hi(batch[i], w))) ==
              Restrict(up(tf, batch[i].symbol), Lo(batch[i], w), Hi(batch[i], w))
  {
    hide LastWins, Slice, Restrict, Covered;
    forall t | Lo(batch[i], w) <= t < Hi(batch[i], w) ensures Covered(entries[i].coverage, t) {
      assert !Lacks(entries[i], batch[i], w, t);
    }
    HonestSlice(entries[i], Lo(batch[i], w), Hi(batch[i], w), up(tf, batch[i].symbol));
  }

  /** Batch entries that are honest and have everything the window needs. */
  ghost predicate Complete(
    entries: seq<Chunk>, batch: seq<Request>, tf: Timeframe, w: Window, up: Upstream, today: int)
  {
    EntriesOk(entries, batch, tf, up, today) &&
    forall i, t :: 0 <= i < |batch| ==> !Lacks(entries[i], batch[i], w, t)
  }

  /** A stored value is an old one, another client's, or ours with no coverage past today. */
  ghost predicate Attributed(store: ByteStore, old_: map<Key, Payload>, key: Key, p: Payload, today: int) {
    || (key in old_ && old_[key] == p)
    || (exists n: nat :: key in store.others(n) && store.others(n)[key] == p)
    || CoverageBefore(p, today)
  }

  ghost predicate AllAttributed(store: ByteStore, old_: map<Key, Payload>, data: map<Key, Payload>, today: int) {
    forall key :: key in data ==> Attributed(store, old_, key, data[key], today)
  }

  /** What other clients do between two of our operations keeps the store honest and attributed. */
  lemma {:induction false} Interference(
    store: ByteStore, n: nat, old_: map<Key, Payload>, data: map<Key, Payload>, up: Upstream, today: int)
    requires HonestStore(data, up) && store.OthersHonest(up) && AllAttributed(store, old_, data, today)
    ensures HonestStore((data - store.evicted(n)) + store.others(n), up)
    ensures AllAttributed(store, old_, (data - store.evicted(n)) + store.others(n), today)
    ensures store.Quiet() ==> (data - store.evicted(n)) + store.others(n) == data
  {
    var after := (data - store.evicted(n)) + store.others(n);
    forall key | key in after ensures HonestPayload(key, after[key], up) && Attributed(store, old_, key, after[key], today) {
      if key in store.others(n) {
        assert after[key] == store.others(n)[key];
      } else {
        assert after[key] == data[key];
      }
    }
  }

  lemma {:induction false} OurWrites(
    store: ByteStore, old_: map<Key, Payload>, data: map<Key, Payload>, items: map<Key, Payload>, up: Upstream, today: int)
    requires HonestStore(data, up) && AllAttributed(store, old_, data, today)
    requires HonestStore(items, up) && forall key :: key in items ==> CoverageBefore(items[key], today)
    ensures HonestStore(data + items, up) && AllAttributed(store, old_, data + items, today)
  {}

  /** Nothing that could be answered from the store before today is lost. */
  ghost predicate Grows(before: map<Key, Payload>, after: map<Key, Payload>, today: int) {
    forall tf, s, t :: t < today && CachedAt(before, tf, s, t) ==> CachedAt(after, tf, s, t)
  }

  ghost predicate BatchCached(data: map<Key, Payload>, batch: seq<Request>, tf: Timeframe, w: Window)
    requires forall i :: 0 <= i < |batch| ==> ValidMonth(batch[i].month)
  {
    forall i, t :: 0 <= i < |batch| && Lo(batch[i], w) <= t < Hi(batch[i], w) ==> CachedAt(data, tf, batch[i].symbol, t)
  }

  /** What `mget` returned for the batch's own keys. */
  ghost predicate ReadFrom(
    payloads: seq<Option<Payload>>, batch: seq<Request>, tf: Timeframe, data: map<Key, Payload>)
  {
    |payloads| == |batch| && forall i :: 0 <= i < |batch| ==>
      payloads[i] == if KeyOf(batch[i], tf) in data then Some(data[KeyOf(batch[i], tf)]) else None
  }

  lemma {:induction false} ReadIs(
    keys: seq<Key>, payloads: seq<Option<Payload>>, batch: seq<Request>, tf: Timeframe, data: map<Key, Payload>)
    requires KeysOf(keys, batch, tf) && |payloads| == |keys|
    requires forall i :: 0 <= i < |keys| ==> payloads[i] == if keys[i] in data then Some(data[keys[i]]) else None
    ensures ReadFrom(payloads, batch, tf, data)
  {}

  lemma {:induction false} EntryReadable(c: Chunk, r: Request, tf: Timeframe, up: Upstream, today: int)
    requires EntryOk(c, r, tf, up, today)
    ensures Readable(Encode(c, KeyOf(r, tf)), KeyOf(r, tf))
    ensures HonestPayload(KeyOf(r, tf), Encode(c, KeyOf(r, tf)), up)
    ensures CoverageBefore(Encode(c, KeyOf(r, tf)), today)
  {
    forall i | 0 <= i < |c.coverage|
      ensures MonthStart(r.month) <= c.coverage[i].lo && c.coverage[i].hi <= MonthStart(NextMonth(r.month))
    {
      assert Inside(c.coverage[i].lo, c.coverage[i]) && Covered(c.coverage, c.coverage[i].lo);
      assert Inside(c.coverage[i].hi - 1, c.coverage[i]) && Covered(c.coverage, c.coverage[i].hi - 1);
    }
  }

  lemma {:induction false} CachedLacksNothing(
    loaded: seq<Chunk>, payloads: seq<Option<Payload>>, batch: seq<Request>, data: map<Key, Payload>,
    tf: Timeframe, w: Window, today: int, up: Upstream)
    requires EntriesOk(loaded, batch, tf, up, today) && ReadFrom(payloads, batch, tf, data)
    requires AllRetained(loaded, payloads, batch, tf, today)
    requires w.end <= today && MIN_TIME <= w.start
    ensures BatchCached(data, batch, tf, w) ==> forall i, t :: 0 <= i < |batch| ==> !Lacks(loaded[i], batch[i], w, t)
  {
    if BatchCached(data, batch, tf, w) {
      forall i, t | 0 <= i < |batch| ensures !Lacks(loaded[i], batch[i], w, t) {
        if Lo(batch[i], w) <= t < Hi(batch[i], w) {
          assert CachedAt(data, tf, batch[i].symbol, t);
          MonthUnique(batch[i].month, t);
        }
      }
    }
  }

  ghost predicate Written(items: map<Key, Payload>, entries: seq<Chunk>, keys: seq<Key>, changed: set<int>)
    requires |keys| == |entries|
    requires forall i :: i in changed ==> 0 <= i < |entries|
  {
    forall key :: key in items ==>
      exists i :: i in changed && keys[i] == key && items[key] == Encode(entries[i], key)
  }

  lemma {:induction false} ItemsHonest(
    items: map<Key, Payload>, entries: seq<Chunk>, batch: seq<Request>, keys: seq<Key>, changed: set<int>,
    tf: Timeframe, up: Upstream, today: int)
    requires EntriesOk(entries, batch, tf, up, today) && KeysOf(keys, batch, tf)
    requires forall i :: i in changed ==> 0 <= i < |entries|
    requires Written(items, entries, keys, changed)
    ensures HonestStore(items, up)
    ensures forall key :: key in items ==> CoverageBefore(items[key], today)
  {
    forall key | key in items ensures HonestPayload(key, items[key], up) && CoverageBefore(items[key], today) {
      var i :| i in changed && keys[i] == key && items[key] == Encode(entries[i], key);
      EntryReadable(entries[i], batch[i], tf, up, today);
    }
  }

  lemma {:induction false} ItemsGrow(
    items: map<Key, Payload>, entries: seq<Chunk>, loaded: seq<Chunk>, payloads: seq<Option<Payload>>,
    batch: seq<Request>, keys: seq<Key>, changed: set<int>, data: map<Key, Payload>,
    tf: Timeframe, up: Upstream, today: int)
    requires EntriesOk(entries, batch, tf, up, today) && KeysOf(keys, batch, tf)
    requires Extends(entries, loaded, changed)
    requires ReadFrom(payloads, batch, tf, data)
    requires AllRetained(loaded, payloads, batch, tf, today)
    requires Written(items, entries, keys, changed)
    ensures Grows(data, data + items, today)
  {
    forall tf', s, t | t < today && CachedAt(data, tf', s, t) ensures CachedAt(data + items, tf', s, t) {
      var key := Key(tf', s, MonthOf(t));
      if key in items {
        var i :| i in changed && keys[i] == key && items[key] == Encode(entries[i], key);
        EntryReadable(entries[i], batch[i], tf, up, today);
        assert Covered(loaded[i].coverage, t);
      }
    }
  }

  lemma {:induction false} EntryCaches(
    data: map<Key, Payload>, c: Chunk, r: Request, tf: Timeframe, up: Upstream, today: int, t: int)
    requires EntryOk(c, r, tf, up, today) && Covered(c.coverage, t) && MIN_TIME <= t
    requires KeyOf(r, tf) in data && data[KeyOf(r, tf)] == Encode(c, KeyOf(r, tf))
    ensures CachedAt(data, tf, r.symbol, t)
  {
    EntryReadable(c, r, tf, up, today);
    MonthUnique(r.month, t);
  }

  /** Writing the completed entries back loses nothing and caches the whole window. */
  lemma {:induction false} ItemsCache(
    items: map<Key, Payload>, entries: seq<Chunk>, loaded: seq<Chunk>, payloads: seq<Option<Payload>>,
    batch: seq<Request>, keys: seq<Key>, changed: set<int>, data: map<Key, Payload>,
    tf: Timeframe, w: Window, up: Upstream, today: int)
    requires Complete(entries, batch, tf, w, up, today) && KeysOf(keys, batch, tf)
    requires Extends(entries, loaded, changed)
    requires ReadFrom(payloads, batch, tf, data)
    requires AllRetained(loaded, payloads, batch, tf, today)
    requires Written(items, entries, keys, changed)
    requires MIN_TIME <= w.start && w.end <= today
    ensures Grows(data, data + items, today)
    ensures (forall i :: i in changed ==> keys[i] in items) ==> BatchCached(data + items, batch, tf, w)
  {
    hide CachedAt, Lacks, Retains, Readable, Encode, Grows, Covered;
    ItemsGrow(items, entries, loaded, payloads, batch, keys, changed, data, tf, up, today);
    if forall i :: i in changed ==> keys[i] in items {
      forall i, t | 0 <= i < |batch| && Lo(batch[i], w) <= t < Hi(batch[i], w)
        ensures CachedAt(data + items, tf, batch[i].symbol, t)
      {
        ItemCached(items, entries, loaded, payloads, batch, keys, changed, data, tf, w, up, today, i, t);
      }
    }
  }

  /** The store after a batch: other clients' changes, then our entries, unless that write was lost. */
  lemma {:induction false} BatchWritten(
    store: ByteStore, n: nat, first: map<Key, Payload>, seen: map<Key, Payload>, after: map<Key, Payload>, items: map<Key, Payload>,
    entries: seq<Chunk>, loaded: seq<Chunk>, payloads: seq<Option<Payload>>,
    batch: seq<Request>, keys: seq<Key>, changed: set<int>, tf: Timeframe, w: Window, up: Upstream, today: int)
    requires HonestStore(seen, up) && store.OthersHonest(up) && AllAttributed(store, first, seen, today)
    requires store.Quiet() ==> seen == first
    requires Complete(entries, batch, tf, w, up, today) && KeysOf(keys, batch, tf)
    requires Extends(entries, loaded, changed)
    requires ReadFrom(payloads, batch, tf, seen)
    requires AllRetained(loaded, payloads, batch, tf, today)
    requires Written(items, entries, keys, changed)
    requires MIN_TIME <= w.start && w.end <= today
    requires items == map[] ==> after == seen
    requires items != map[] ==>
               var interfered := (seen - store.evicted(n)) + store.others(n);
               after == if store.lost(n) then interfered else interfered + items
    ensures HonestStore(after, up) && AllAttributed(store, first, after, today)
    ensures store.Quiet() ==> Grows(first, after, today)
    ensures store.Quiet() && (forall i :: i in changed ==> keys[i] in items) ==> BatchCached(after, batch, tf, w)
  {
    hide HonestStore, AllAttributed, Grows, BatchCached, EntriesOk, AllRetained, Lacks, Written, KeysOf, ReadFrom;
    Interference(store, n, first, seen, up, today);
    ItemsHonest(items, entries, batch, keys, changed, tf, up, today);
    OurWrites(store, first, (seen - store.evicted(n)) + store.others(n), items, up, today);
    ItemsCache(items, entries, loaded, payloads, batch, keys, changed, seen, tf, w, up, today);
    assert items == map[] ==> seen + items == seen;
  }

  lemma {:induction false} ItemCached(
    items: map<Key, Payload>, entries: seq<Chunk>, loaded: seq<Chunk>, payloads: seq<Option<Payload>>,
    batch: seq<Request>, keys: seq<Key>, changed: set<int>, data: map<Key, Payload>,
    tf: Timeframe, w: Window, up: Upstream, today: int, i: nat, t: int)
    requires Complete(entries, batch, tf, w, up, today) && KeysOf(keys, batch, tf)
    requires Extends(entries, loaded, changed)
    requires ReadFrom(payloads, batch, tf, data)
    requires AllRetained(loaded, payloads, batch, tf, today)
    requires Written(items, entries, keys, changed)
    requires MIN_TIME <= w.start && w.end <= today
    requires forall i :: i in changed ==> keys[i] in items
    requires i < |batch| && Lo(batch[i], w) <= t < Hi(batch[i], w)
    ensures CachedAt(data + items, tf, batch[i].symbol, t)
  {
    assert !Lacks(entries[i], batch[i], w, t);
    MonthUnique(batch[i].month, t);
    if keys[i] in items {
      var j :| j in changed && keys[j] == keys[i] && items[keys[i]] == Encode(entries[j], keys[i]);
      assert batch[j] == batch[i] && !Lacks(entries[j], batch[j], w, t);
      EntryCaches(data + items, entries[j], batch[j], tf, up, today, t);
    } else {
      assert Covered(loaded[i].coverage, t);
      assert payloads[i].Some? && KeyOf(batch[i], tf) in data;
    }
  }

  /** An answer that is right on a gap is right on the part of it inside one month. */
  lemma {:induction false} NarrowAnswer(answer: Timeline, tl: Timeline, gap: Interval, part: Interval)
    requires gap.lo <= part.lo && part.hi <= gap.hi
    requires Restrict(answer, gap.lo, gap.hi) == Restrict(tl, gap.lo, gap.hi)
    ensures Restrict(answer, part.lo, part.hi) == Restrict(tl, part.lo, part.hi)
  {
    forall ts | part.lo <= ts < part.hi ensures ts in answer <==> ts in tl {
      assert ts in Restrict(answer, gap.lo, gap.hi) <==> ts in answer;
    }
    forall ts | part.lo <= ts < part.hi && ts in tl ensures answer[ts] == tl[ts] {
      assert Restrict(answer, gap.lo, gap.hi)[ts] == Restrict(tl, gap.lo, gap.hi)[ts];
    }
  }

  lemma {:induction false} RowsInside(rows: seq<Row>, tl: Timeline, lo: int, hi: int)
    requires LastWins(rows) == Restrict(tl, lo, hi)
    ensures forall i :: 0 <= i < |rows| ==> Inside(rows[i].ts, Interval(lo, hi))
  {
    LastWinsKeys(rows);
    forall i | 0 <= i < |rows| ensures Inside(rows[i].ts, Interval(lo, hi)) {
      assert Stamped(rows, rows[i].ts);
    }
  }

  /** Once a group is merged, only the later groups are outstanding. */
  lemma {:induction false} GroupDone(
    before: seq<Chunk>, after: seq<Chunk>, batch: seq<Request>, w: Window,
    order: seq<Interval>, groups: map<Interval, seq<string>>)
    requires order != [] && order[0] in groups
    requires |after| == |before| == |batch|
    requires forall i :: 0 <= i < |batch| ==> ValidMonth(batch[i].month)
    requires forall i, t :: 0 <= i < |after| && Covered(before[i].coverage, t) ==> Covered(after[i].coverage, t)
    requires Outstanding(before, batch, w, order, groups)
    requires AnsweredUpTo(after, batch, groups[order[0]], order[0], |batch|)
    ensures Outstanding(after, batch, w, order[1..], groups)
  {
    forall i, t | 0 <= i < |batch| && Lacks(after[i], batch[i], w, t)
      ensures Grouped(order[1..], groups, batch[i].symbol, t)
    {
      assert Lacks(before[i], batch[i], w, t);
      assert !Answers(batch[i], groups[order[0]], order[0], t);
      var k :| 0 <= k < |order| && Inside(t, order[k]) && order[k] in groups && batch[i].symbol in groups[order[k]];
      assert k != 0;
      assert order[1..][k - 1] == order[k];
    }
  }
}
