/** The in-process cache stacked on the persistent one: it widens its window instead of memoizing. */
module WideningCache {
  import opened Wrappers
  import opened Calendar
  import opened Intervals
  import opened BarsCodec
  import opened PersistentCache

  /** `(tuple(sorted(symbols)), timeframe)`: two sorted tuples agree when the multisets do. */
  datatype WindowKey = WindowKey(symbols: multiset<string>, timeframe: Timeframe)

  datatype Entry = Entry(start: int, end: int, bars: map<string, seq<Bar>>)

  ghost predicate EntryExact(key: WindowKey, e: Entry, up: Upstream) {
    && MIN_TIME <= e.start <= e.end
    && (forall s :: s in e.bars <==> s in key.symbols)
    && (forall s :: s in e.bars ==> Normal(e.bars[s], s, Restrict(up(key.timeframe, s), e.start, e.end)))
  }

  ghost predicate EntriesExact(entries: map<WindowKey, Entry>, up: Upstream) {
    forall key :: key in entries ==> EntryExact(key, entries[key], up)
  }

  /** `bisect_left(timestamps, t)`. */
  function BisectLeft(bars: seq<Bar>, t: int): nat
    requires Ascending(Rows(bars))
  {
    LowerBound(Rows(bars), t)
  }

  /** `_slice` for one symbol. */
  function SliceBars(bars: seq<Bar>, start: int, end: int): seq<Bar>
    requires Ascending(Rows(bars))
  {
    if BisectLeft(bars, start) <= BisectLeft(bars, end) then bars[BisectLeft(bars, start)..BisectLeft(bars, end)] else []
  }

  lemma {:induction false} SlicedIsNormal(bars: seq<Bar>, symbol: string, tl: Timeline, a: int, b: int, start: int, end: int)
    requires Normal(bars, symbol, Restrict(tl, a, b))
    requires a <= start && end <= b
    ensures Normal(SliceBars(bars, start, end), symbol, Restrict(tl, start, end))
  {
    SliceIsRestriction(Rows(bars), start, end);
    assert Rows(SliceBars(bars, start, end)) == Slice(Rows(bars), start, end);
    assert Restrict(Restrict(tl, a, b), start, end) == Restrict(tl, start, end);
  }

  lemma {:induction false} HeldWindow(entries: map<WindowKey, Entry>, key: WindowKey, up: Upstream)
    requires EntriesExact(entries, up)
    ensures key in entries ==> MIN_TIME <= entries[key].start <= entries[key].end
  {
    assert key in entries ==> EntryExact(key, entries[key], up);
  }

  lemma {:induction false} WidenedExact(
    entries: map<WindowKey, Entry>, key: WindowKey, symbols: seq<string>, e: Entry, up: Upstream)
    requires EntriesExact(entries, up) && key.symbols == multiset(symbols)
    requires MIN_TIME <= e.start <= e.end && e.bars.Keys == set s | s in symbols
    requires forall s :: s in symbols ==> Normal(e.bars[s], s, Restrict(up(key.timeframe, s), e.start, e.end))
    ensures EntriesExact(entries[key := e], up)
  {
    hide Normal, Restrict;
    assert forall s :: s in symbols <==> s in key.symbols;
  }

  class BarsCache {
    const fetch: PersistentBarsCache
    var entries: map<WindowKey, Entry>

    constructor (fetch: PersistentBarsCache)
      ensures this.fetch == fetch && entries == map[]
    {
      this.fetch, this.entries := fetch, map[];
    }

    /** The request lies inside the window this cache already holds for these symbols. */
    predicate Holds(key: WindowKey, start: int, end: int)
      reads this
    {
      key in entries && entries[key].start <= start && end <= entries[key].end
    }

    method Call(symbols: seq<string>, tf: Timeframe, start: int, end: int, now: int, ghost up: Upstream)
      returns (r: Answer)
      requires EntriesExact(entries, up) && MIN_TIME <= start
      requires HonestFetcher(fetch.fetch, up) && HonestStore(fetch.store.data, up) && fetch.store.OthersHonest(up)
      modifies this, fetch`calls, fetch.store
      ensures EntriesExact(entries, up) && HonestStore(fetch.store.data, up)
      // Transparent: the same rows, in the same normal form, as asking the wrapped fetcher directly.
      ensures r.Success? ==> r.value.Keys == set s | s in symbols
      ensures r.Success? ==> forall s :: s in symbols ==> Normal(r.value[s], s, Restrict(up(tf, s), start, end))
      // A request inside the held window costs nothing and changes nothing.
      ensures old(Holds(WindowKey(multiset(symbols), tf), start, end)) ==>
                r.Success? && fetch.calls == old(fetch.calls) && entries == old(entries) &&
                fetch.store.data == old(fetch.store.data)
      // The held window only ever widens.
      ensures forall key :: key in old(entries) ==>
                key in entries && entries[key].start <= old(entries)[key].start && old(entries)[key].end <= entries[key].end
      ensures r.Success? ==> Holds(WindowKey(multiset(symbols), tf), start, end)
      // An inverted window is refused on first sight only; over a held entry it slices to nothing.
      ensures Reliable(fetch.fetch) ==> (r.Success? <==> start <= end || WindowKey(multiset(symbols), tf) in old(entries))
    {
      hide Normal, Restrict, HonestFetcher, Reliable, HonestStore, EntryExact;
      var key := WindowKey(multiset(symbols), tf);
      if !Holds(key, start, end) {
        var widened := Widen(key, symbols, start, end, now, up);
        if widened.Failure? {
          return Failure(widened.error);
        }
      }
      r := Sliced(key, symbols, entries[key], start, end, up);
    }

    /** Fetches the union of the held and the requested window. */
    method Widen(key: WindowKey, symbols: seq<string>, start: int, end: int, now: int, ghost up: Upstream)
      returns (r: Result<()>)
      requires EntriesExact(entries, up) && MIN_TIME <= start && key.symbols == multiset(symbols)
      requires HonestFetcher(fetch.fetch, up) && HonestStore(fetch.store.data, up) && fetch.store.OthersHonest(up)
      modifies this, fetch`calls, fetch.store
      ensures EntriesExact(entries, up) && HonestStore(fetch.store.data, up)
      ensures r.Success? ==> Holds(key, start, end)
      ensures forall k :: k in old(entries) ==>
                k in entries && entries[k].start <= old(entries)[k].start && old(entries)[k].end <= entries[k].end
      ensures Reliable(fetch.fetch) ==> (r.Success? <==> start <= end || key in old(entries))
    {
      hide Normal, Restrict, HonestFetcher, Reliable, HonestStore, AllAttributed, Grows, WindowCached, EntryExact, EntriesExact;
      HeldWindow(entries, key, up);
      var fetchStart := if key in entries then Min(start, entries[key].start) else start;
      var fetchEnd := if key in entries then Max(end, entries[key].end) else end;
      var bars := fetch.Call(symbols, key.timeframe, fetchStart, fetchEnd, now, up);
      if bars.Failure? {
        return Failure(bars.error);
      }
      var widened := Entry(fetchStart, fetchEnd, bars.value);
      WidenedExact(entries, key, symbols, widened, up);
      entries := entries[key := widened];
      r := Success(());
    }

    /** `_slice`: every symbol's bars of the requested window. */
    static method Sliced(
      ghost key: WindowKey, ghost symbols: seq<string>, e: Entry, start: int, end: int, ghost up: Upstream)
      returns (r: Answer)
      requires EntryExact(key, e, up) && key.symbols == multiset(symbols)
      requires e.start <= start && end <= e.end
      ensures r.Success? && r.value.Keys == set s | s in symbols
      ensures forall s :: s in symbols ==> Normal(r.value[s], s, Restrict(up(key.timeframe, s), start, end))
    {
      hide SliceBars, Restrict, LastWins;
      forall s | s in e.bars
        ensures Ascending(Rows(e.bars[s]))
        ensures Normal(SliceBars(e.bars[s], start, end), s, Restrict(up(key.timeframe, s), start, end))
      {
        SlicedIsNormal(e.bars[s], s, up(key.timeframe, s), e.start, e.end, start, end);
      }
      assert forall s :: s in symbols <==> s in multiset(symbols);
      r := Success(map s | s in e.bars :: SliceBars(e.bars[s], start, end));
    }
  }
}
