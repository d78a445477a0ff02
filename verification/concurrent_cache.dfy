/** Any number of cache clients interleaving reads, fetches and whole-key writes on one store. */
module ConcurrentCache {
  import opened Wrappers
  import opened Calendar
  import opened Intervals
  import opened BarsCodec
  import opened PersistentCache

  /** A client's decoded working entries, by key. */
  type Client = map<Key, Chunk>

  datatype State = State(store: map<Key, Payload>, clients: map<nat, Client>)

  datatype Event =
    /** Client `c` decodes the payload of `key` as it stands, trimmed to what is complete today. */
    | Read(c: nat, key: Key, today: int, entry: Chunk)
    /** Client `c` fetches `part` and merges the answer into its entry. */
    | Fetched(c: nat, key: Key, part: Interval, rows: seq<Row>, entry: Chunk)
    /** Client `c` writes whole keys; the last writer wins each of them. */
    | Write(c: nat, keys: set<Key>)
    /** A write that never reaches the store. */
    | LostWrite(c: nat, keys: set<Key>)
    /** Keys disappear, or turn into bytes that cannot be read back. */
    | Evict(keys: set<Key>)
    | Corrupt(key: Key, payload: Payload)

  function Entry(s: State, c: nat, key: Key): Option<Chunk> {
    if c in s.clients && key in s.clients[c] then Some(s.clients[c][key]) else None
  }

  function WithEntry(s: State, c: nat, key: Key, entry: Chunk): State {
    s.(clients := s.clients[c := (if c in s.clients then s.clients[c] else map[])[key := entry]])
  }

  /** `entry` is what `LoadEntry` makes of the stored payload. */
  ghost predicate LoadedFrom(store: map<Key, Payload>, key: Key, today: int, entry: Chunk)
    requires ValidMonth(key.month)
  {
    if key in store && Readable(store[key], key) then
      var c := Chunk(store[key].rows, store[key].coverage);
      && WellFormed(entry)
      && entry.rows == c.rows[..LowerBound(c.rows, today)]
      && forall t :: Covered(entry.coverage, t) <==> Covered(c.coverage, t) && t < today
    else entry == EMPTY
  }

  /** `after` is what `Merge` makes of an entry and the rows fetched for `part`. */
  ghost predicate MergedFrom(before: Chunk, part: Interval, rows: seq<Row>, after: Chunk) {
    && WellFormed(after)
    && (forall t :: Covered(after.coverage, t) <==> Covered(before.coverage, t) || Inside(t, part))
    && LastWins(after.rows) == LastWins(before.rows) + LastWins(rows)
  }

  /** A part that a fetch may complete: not empty and inside the key's month. */
  predicate PartOf(part: Interval, key: Key) {
    && ValidMonth(key.month)
    && MonthStart(key.month) <= part.lo < part.hi <= MonthStart(NextMonth(key.month))
  }

  ghost predicate Step(s: State, e: Event, s': State, up: Upstream) {
    match e
    case Read(c, key, today, entry) =>
      && ValidMonth(key.month)
      && LoadedFrom(s.store, key, today, entry)
      && s' == WithEntry(s, c, key, entry)
    case Fetched(c, key, part, rows, entry) =>
      && PartOf(part, key)
      && Entry(s, c, key).Some?
      && LastWins(rows) == Restrict(up(key.timeframe, key.symbol), part.lo, part.hi)
      && MergedFrom(Entry(s, c, key).value, part, rows, entry)
      && s' == WithEntry(s, c, key, entry)
    case Write(c, keys) =>
      && c in s.clients && keys <= s.clients[c].Keys
      && s' == s.(store := s.store + map key | key in keys :: Encode(s.clients[c][key], key))
    case LostWrite(c, keys) =>
      s' == s
    case Evict(keys) =>
      s' == s.(store := s.store - keys)
    case Corrupt(key, payload) =>
      && ValidMonth(key.month) && !Readable(payload, key)
      && s' == s.(store := s.store[key := payload])
  }

  ghost predicate ClientsHonest(clients: map<nat, Client>, up: Upstream) {
    forall c, key :: c in clients && key in clients[c] ==>
      Honest(clients[c][key], up(key.timeframe, key.symbol))
  }

  /** An entry covers nothing outside its key's month. */
  ghost predicate InOwnMonth(key: Key, entry: Chunk) {
    ValidMonth(key.month) && forall t :: Covered(entry.coverage, t) ==> MonthStart(key.month) <= t < MonthStart(NextMonth(key.month))
  }

  ghost predicate ClientsInMonth(clients: map<nat, Client>) {
    forall c, key :: c in clients && key in clients[c] ==> InOwnMonth(key, clients[c][key])
  }

  ghost predicate Inv(s: State, up: Upstream) {
    HonestStore(s.store, up) && ClientsHonest(s.clients, up) && ClientsInMonth(s.clients)
  }

  /** Every step of every client, and every accident, keeps all chunks honest. */
  lemma {:induction false} StepKeepsInv(s: State, e: Event, s': State, up: Upstream)
    requires Inv(s, up) && Step(s, e, s', up)
    ensures Inv(s', up)
  {
    hide HonestPayload, Honest, LoadedFrom, MergedFrom, InOwnMonth, PartOf, Encode;
    match e
    case Read(c, key, today, entry) =>
      LoadedIsHonest(s.store, key, today, entry, up);
      EntryKeepsClients(s, c, key, entry, up);
    case Fetched(c, key, part, rows, entry) =>
      MergedIsHonest(s.clients[c][key], key, part, rows, entry, up);
      EntryKeepsClients(s, c, key, entry, up);
    case Write(c, keys) =>
      forall key | key in s'.store ensures HonestPayload(key, s'.store[key], up) {
        if key in keys {
          EncodedIsHonest(s.clients[c][key], key, up);
        }
      }
    case LostWrite(_, _) =>
    case Evict(_) =>
    case Corrupt(key, payload) =>
      CorruptIsHonest(key, payload, up);
  }

  lemma {:induction false} LoadedIsHonest(store: map<Key, Payload>, key: Key, today: int, entry: Chunk, up: Upstream)
    requires ValidMonth(key.month) && HonestStore(store, up) && LoadedFrom(store, key, today, entry)
    ensures Honest(entry, up(key.timeframe, key.symbol)) && InOwnMonth(key, entry)
  {
    if key in store && Readable(store[key], key) {
      BeforeStaysHonest(Chunk(store[key].rows, store[key].coverage), today, entry, up(key.timeframe, key.symbol));
      InMonthPoints(store[key].coverage, key.month);
    }
  }

  lemma {:induction false} MergedIsHonest(before: Chunk, key: Key, part: Interval, rows: seq<Row>, entry: Chunk, up: Upstream)
    requires Honest(before, up(key.timeframe, key.symbol)) && InOwnMonth(key, before) && PartOf(part, key)
    requires LastWins(rows) == Restrict(up(key.timeframe, key.symbol), part.lo, part.hi)
    requires MergedFrom(before, part, rows, entry)
    ensures Honest(entry, up(key.timeframe, key.symbol)) && InOwnMonth(key, entry)
  {
    hide Restrict;
    MergeStaysHonest(before, rows, part, entry, up(key.timeframe, key.symbol));
  }

  lemma {:induction false} EncodedIsHonest(entry: Chunk, key: Key, up: Upstream)
    requires Honest(entry, up(key.timeframe, key.symbol))
    ensures HonestPayload(key, Encode(entry, key), up)
  {
    hide Honest;
  }

  lemma {:induction false} CorruptIsHonest(key: Key, payload: Payload, up: Upstream)
    requires ValidMonth(key.month) && !Readable(payload, key)
    ensures HonestPayload(key, payload, up)
  {
    hide WellFormed, MonthStart, Honest;
  }

  lemma {:induction false} EntryKeepsClients(s: State, c: nat, key: Key, entry: Chunk, up: Upstream)
    requires ClientsHonest(s.clients, up) && Honest(entry, up(key.timeframe, key.symbol))
    requires ClientsInMonth(s.clients) && InOwnMonth(key, entry)
    ensures ClientsHonest(WithEntry(s, c, key, entry).clients, up) && ClientsInMonth(WithEntry(s, c, key, entry).clients)
  {
    hide Honest, InOwnMonth;
  }

  // ---------------------------------------------------------------- writes

  /** What a client holds of its own month can be read back once written. */
  lemma {:induction false} WrittenIsReadable(entry: Chunk, key: Key)
    requires WellFormed(entry) && InOwnMonth(key, entry)
    ensures Readable(Encode(entry, key), key)
  {
    forall i | 0 <= i < |entry.coverage|
      ensures MonthStart(key.month) <= entry.coverage[i].lo && entry.coverage[i].hi <= MonthStart(NextMonth(key.month))
    {
      assert Inside(entry.coverage[i].lo, entry.coverage[i]) && Covered(entry.coverage, entry.coverage[i].lo);
      assert Inside(entry.coverage[i].hi - 1, entry.coverage[i]) && Covered(entry.coverage, entry.coverage[i].hi - 1);
    }
  }

  /**
   * What a write costs, exactly: afterwards an instant is cached if and only if its key was written and
   * the writer's own entry covers it, or its key was not written and it was cached before.
   */
  lemma {:induction false} WriteDecidesCoverage(
    s: State, c: nat, keys: set<Key>, s': State, up: Upstream, tf: Timeframe, symbol: string, t: int)
    requires Inv(s, up) && Step(s, Write(c, keys), s', up) && MIN_TIME <= t
    ensures
      var key := Key(tf, symbol, MonthOf(t));
      CachedAt(s'.store, tf, symbol, t) <==>
        if key in keys then Covered(s.clients[c][key].coverage, t) else CachedAt(s.store, tf, symbol, t)
  {
    hide Covered, InOwnMonth, WellFormed, Readable;
    var key := Key(tf, symbol, MonthOf(t));
    if key in keys {
      assert Honest(s.clients[c][key], up(tf, symbol)) && InOwnMonth(key, s.clients[c][key]);
      WrittenIsReadable(s.clients[c][key], key);
    }
  }

  /** A run: consecutive states are related by the events in order. */
  ghost predicate Run(states: seq<State>, events: seq<Event>, up: Upstream) {
    && |states| == |events| + 1
    && forall i :: 0 <= i < |events| ==> Step(states[i], events[i], states[i + 1], up)
  }

  /** The chunk hands out exactly upstream's rows of any window it covers. */
  ghost predicate ServesUpstream(c: Chunk, tl: Timeline) {
    && Ascending(c.rows)
    && forall lo, hi :: (forall t :: lo <= t < hi ==> Covered(c.coverage, t)) ==>
         Ascending(Slice(c.rows, lo, hi)) && LastWins(Slice(c.rows, lo, hi)) == Restrict(tl, lo, hi)
  }

  /**
   * Safety over every interleaving: whatever the clients and the store do, each stored chunk is
   * honest and each client serves exactly upstream's rows from any window its entry covers.
   */
  lemma {:induction false} EveryRunServesUpstream(states: seq<State>, events: seq<Event>, up: Upstream, n: nat)
    requires Run(states, events, up) && n < |states|
    requires HonestStore(states[0].store, up) && states[0].clients == map[]
    ensures Inv(states[n], up)
    ensures forall c, key :: c in states[n].clients && key in states[n].clients[c] ==>
              ServesUpstream(states[n].clients[c][key], up(key.timeframe, key.symbol))
  {
    hide Honest, HonestStore, Step, ServesUpstream, InOwnMonth;
    if n > 0 {
      EveryRunServesUpstream(states, events, up, n - 1);
      StepKeepsInv(states[n - 1], events[n - 1], states[n], up);
    }
    forall c, key | c in states[n].clients && key in states[n].clients[c]
      ensures ServesUpstream(states[n].clients[c][key], up(key.timeframe, key.symbol))
    {
      HonestServes(states[n].clients[c][key], up(key.timeframe, key.symbol));
    }
  }

  lemma {:induction false} HonestServes(c: Chunk, tl: Timeline)
    requires Honest(c, tl)
    ensures ServesUpstream(c, tl)
  {
    forall lo, hi | forall t :: lo <= t < hi ==> Covered(c.coverage, t)
      ensures Ascending(Slice(c.rows, lo, hi)) && LastWins(Slice(c.rows, lo, hi)) == Restrict(tl, lo, hi)
    {
      HonestSlice(c, lo, hi, tl);
    }
  }

  /**
   * What concurrency does cost: two clients that both start from an empty key and cache different
   * parts of its month leave only the later writer's part, so the hit rate can shrink.
   */
  lemma {:induction false} CoverageCanShrink(up: Upstream, key: Key, early: Interval, late: Interval, s0: State)
    returns (s1: State, s2: State, s3: State, s4: State, s5: State, s6: State)
    requires PartOf(early, key) && PartOf(late, key) && early.hi < late.lo
    requires up(key.timeframe, key.symbol) == map[]
    requires s0 == State(map[], map[])
    ensures Step(s0, Read(0, key, late.hi, EMPTY), s1, up)
    ensures Step(s1, Read(1, key, late.hi, EMPTY), s2, up)
    ensures Step(s2, Fetched(0, key, early, [], Chunk([], [early])), s3, up)
    ensures Step(s3, Fetched(1, key, late, [], Chunk([], [late])), s4, up)
    ensures Step(s4, Write(0, {key}), s5, up)
    ensures Step(s5, Write(1, {key}), s6, up)
    ensures CachedAt(s5.store, key.timeframe, key.symbol, early.lo)
    ensures !CachedAt(s6.store, key.timeframe, key.symbol, early.lo)
  {
    hide MergedFrom, Encode, WellFormed, Readable, LastWins, Restrict, Covered;
    s1 := WithEntry(s0, 0, key, EMPTY);
    s2 := WithEntry(s1, 1, key, EMPTY);
    s3 := FetchNothing(s2, 0, key, early, up);
    s4 := FetchNothing(s3, 1, key, late, up);
    s5 := WriteOne(s4, 0, key, up);
    s6 := WriteOne(s5, 1, key, up);
    EarlyMonth(key.month);
    MonthUnique(key.month, early.lo);
    CachedAlone(s5.store, key, early, early.lo);
    CachedAlone(s6.store, key, late, early.lo);
  }

  /** A month whose only coverage is one part answers for that part. */
  lemma {:induction false} CachedAlone(store: map<Key, Payload>, key: Key, part: Interval, t: int)
    requires PartOf(part, key) && MIN_TIME <= t && MonthOf(t) == key.month
    requires key in store && store[key] == Encode(Chunk([], [part]), key)
    ensures CachedAt(store, key.timeframe, key.symbol, t) <==> Inside(t, part)
  {
    assert Covered([part], t) <==> Inside(t, [part][0]);
    WrittenIsReadable(Chunk([], [part]), key);
  }

  /** Fetching a part of a month in which upstream holds nothing. */
  lemma {:induction false} FetchNothing(s: State, c: nat, key: Key, part: Interval, up: Upstream) returns (s': State)
    requires Entry(s, c, key) == Some(EMPTY) && PartOf(part, key) && up(key.timeframe, key.symbol) == map[]
    ensures Step(s, Fetched(c, key, part, [], Chunk([], [part])), s', up)
    ensures s' == WithEntry(s, c, key, Chunk([], [part]))
  {
    hide MergedFrom;
    MergeIntoEmpty(part);
    s' := WithEntry(s, c, key, Chunk([], [part]));
  }

  lemma {:induction false} EarlyMonth(m: YearMonth)
    requires ValidMonth(m)
    ensures MIN_TIME <= MonthStart(m)
  {
    var first := YearMonth(1, 1);
    if Index(first) < Index(m) {
      MonthsTile(first);
      MonthsIncrease(first, m);
    }
  }

  lemma {:induction false} WriteOne(s: State, c: nat, key: Key, up: Upstream) returns (s': State)
    requires c in s.clients && key in s.clients[c]
    ensures Step(s, Write(c, {key}), s', up)
    ensures s' == s.(store := s.store[key := Encode(s.clients[c][key], key)])
  {
    s' := s.(store := s.store[key := Encode(s.clients[c][key], key)]);
    assert s.store + (map k | k in {key} :: Encode(s.clients[c][k], k)) == s'.store;
  }

  lemma {:induction false} MergeIntoEmpty(part: Interval)
    requires part.lo < part.hi
    ensures MergedFrom(EMPTY, part, [], Chunk([], [part]))
  {
    hide LastWins, Covered;
    CoveredAppend([], part);
    assert [] + [part] == [part];
  }
}
