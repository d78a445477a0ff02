/** Replayable market data: a movable cursor over sorted regular-session bars. */
module MarketData {
  import opened Wrappers
  import opened Session
  import opened Broker
  import opened BarSeries
  import opened Risk
  import Replay

  /** The window of each requested symbol, and a quote for each that has one. */
  datatype Snapshot = Snapshot(bars: map<string, seq<Bar>>, quotes: map<string, Quote>, asOf: int)

  // ---------------------------------------------------------- preparation

  /** The regular-session bars in time order, equal times in their given order. */
  function Prepared(zone: Zone, bars: seq<Bar>): (r: seq<Bar>)
    ensures SortedBars(r)
    ensures forall bar :: bar in r <==> bar in bars && Regular(zone, bar.at)
  {
    hide Regular, SortedBars, InsertBar;
    if bars == [] then assert SortedBars([]) by { NoBars(); } [] else
      var front, last := Prepared(zone, bars[..|bars| - 1]), bars[|bars| - 1];
      assert bars == bars[..|bars| - 1] + [last];
      if Regular(zone, last.at) then
        var r := InsertBar(front, last);
        InsertBarKeeps(front, last);
        assert forall bar :: bar in r <==> bar in multiset(r);
        r
      else front
  }

  lemma {:induction false} NoBars()
    ensures SortedBars([])
  {}

  function PreparedMarket(zone: Zone, raw: map<string, seq<Bar>>): map<string, seq<Bar>> {
    map s | s in raw :: Prepared(zone, raw[s])
  }

  /** Whatever bars are loaded, the market the replay sees is sorted and regular. */
  lemma {:induction false} PreparedIsValid(env: Replay.Env, raw: map<string, seq<Bar>>)
    requires env.market == PreparedMarket(env.zone, raw)
    ensures Replay.ValidMarket(env)
  {
    forall s | s in env.market
      ensures SortedBars(env.market[s])
      ensures forall i :: 0 <= i < |env.market[s]| ==> Regular(env.zone, env.market[s][i].at)
    {
      assert forall bar :: bar in env.market[s] ==> Regular(env.zone, bar.at);
    }
  }

  // ----------------------------------------------------------------- grid

  predicate Ascends(times: seq<int>) {
    forall i, j :: 0 <= i < j < |times| ==> times[i] < times[j]
  }

  /** All bar times of tradable symbols within the closed period. */
  function GridTimes(env: Replay.Env, start: int, end: int): set<int> {
    set s, bar | s in env.tradable && s in env.market && bar in env.market[s] && start <= bar.at <= end :: bar.at
  }

  function InsertTime(times: seq<int>, t: int): (r: seq<int>)
    requires Ascends(times) && t !in times
    ensures Ascends(r) && forall u :: u in r <==> u == t || u in times
    ensures times != [] && times[|times| - 1] > t ==> r[|r| - 1] == times[|times| - 1]
    ensures times != [] && times[|times| - 1] < t ==> r[|r| - 1] == t
  {
    hide Ascends;
    if times == [] || times[|times| - 1] < t then
      assert forall u :: u in times ==> u < t by {
        if times != [] {
          var front, last := times[..|times| - 1], times[|times| - 1];
          assert times == front + [last];
          BeforeLast(front, last);
        }
      }
      AppendTime(times, t);
      times + [t]
    else
      var front, last := times[..|times| - 1], times[|times| - 1];
      assert times == front + [last];
      assert last in times;
      BeforeLast(front, last);
      var r := InsertTime(front, t);
      AppendTime(r, last);
      r + [last]
  }

  lemma {:induction false} BeforeLast(front: seq<int>, last: int)
    requires Ascends(front + [last])
    ensures Ascends(front) && forall u :: u in front ==> u < last
  {
    var times := front + [last];
    assert times[|front|] == last && forall i :: 0 <= i < |front| ==> times[i] == front[i];
  }

  lemma {:induction false} AppendTime(times: seq<int>, t: int)
    requires Ascends(times) && forall u :: u in times ==> u < t
    ensures Ascends(times + [t])
  {
    assert forall i :: 0 <= i < |times| ==> times[i] in times;
  }

  method SortTimes(times: set<int>) returns (sorted: seq<int>)
    ensures Ascends(sorted) && forall t :: t in sorted <==> t in times
  {
    hide Ascends;
    sorted := [];
    assert Ascends([]) by { NoTimes(); }
    var left := times;
    while left != {}
      invariant left <= times && Ascends(sorted)
      invariant forall t :: t in sorted <==> t in times && t !in left
      decreases |left|
    {
      SomeTime(left);
      var t :| t in left;
      sorted := InsertTime(sorted, t);
      left := left - {t};
    }
  }

  lemma {:induction false} NoTimes()
    ensures Ascends([])
  {}

  lemma {:induction false} SomeTime(times: set<int>)
    requires times != {}
    ensures exists t :: t in times
  {
    assert (forall t :: t !in times) ==> times == {};
  }

  // --------------------------------------------------------------- window

  /** The trailing `lookback` bars at or before the cursor. */
  function Window(env: Replay.Env, symbol: string, t: int, lookback: nat): seq<Bar> {
    var index := Replay.BisectRight(Replay.BarsOf(env, symbol), t);
    Replay.BarsOf(env, symbol)[if index < lookback then 0 else index - lookback..index]
  }

  function Windows(env: Replay.Env, symbols: seq<string>, t: int, lookback: nat): map<string, seq<Bar>> {
    map s | s in symbols :: Window(env, s, t, lookback)
  }

  function Quotes(env: Replay.Env, symbols: seq<string>, t: int, lookback: nat): map<string, Quote> {
    map s | s in symbols && Window(env, s, t, lookback) != [] :: Replay.QuoteOf(env, Newest(Window(env, s, t, lookback)).value)
  }

  lemma {:induction false} NoWindows(env: Replay.Env, t: int, lookback: nat)
    ensures Windows(env, [], t, lookback) == map[] && Quotes(env, [], t, lookback) == map[]
  {}

  lemma {:induction false} NextWindow(env: Replay.Env, symbols: seq<string>, i: nat, t: int, lookback: nat)
    requires i < |symbols|
    ensures
      var window := Window(env, symbols[i], t, lookback);
      && Windows(env, symbols[..i + 1], t, lookback) == Windows(env, symbols[..i], t, lookback)[symbols[i] := window]
      && Quotes(env, symbols[..i + 1], t, lookback) ==
           if window == [] then Quotes(env, symbols[..i], t, lookback)
           else Quotes(env, symbols[..i], t, lookback)[symbols[i] := Replay.QuoteOf(env, window[|window| - 1])]
  {
    hide Window, Replay.QuoteOf;
    assert forall s :: s in symbols[..i + 1] <==> s in symbols[..i] || s == symbols[i];
  }

  /** A snapshot's quote lies around the newest close: half the spread below it and half above. */
  lemma {:induction false} QuotesStraddle(env: Replay.Env, symbols: seq<string>, t: int, lookback: nat, symbol: string)
    requires symbol in Quotes(env, symbols, t, lookback)
    ensures symbol in symbols && Window(env, symbol, t, lookback) != []
    ensures
      var q, window := Quotes(env, symbols, t, lookback)[symbol], Window(env, symbol, t, lookback);
      var close := window[|window| - 1].close;
      q.bid + q.ask == 2.0 * close && q.ask - q.bid == close * env.quoteSpread
  {
    hide Window;
    var window := Window(env, symbol, t, lookback);
    var close, half := window[|window| - 1].close, env.quoteSpread / 2.0;
    assert close * (1.0 - half) == close - close * half && close * (1.0 + half) == close + close * half;
    assert close * half + close * half == close * env.quoteSpread;
  }


  function Newest(window: seq<Bar>): Option<Bar> {
    if window == [] then None else Some(window[|window| - 1])
  }

  /** Whatever the lookback, a window ends at the newest bar, and no bar of it lies in the future. */
  lemma {:induction false} WindowEndsNow(env: Replay.Env, symbol: string, t: int, lookback: nat)
    requires lookback >= 1 && Replay.ValidMarket(env)
    ensures Newest(Window(env, symbol, t, lookback)) == Replay.LastBar(env, symbol, t)
    ensures forall bar :: bar in Window(env, symbol, t, lookback) ==> bar.at <= t
  {
    hide Regular;
    assert SortedBars(Replay.BarsOf(env, symbol));
  }

  /** The window is the newest bars up to the cursor, as many as the lookback or all there are. */
  lemma {:induction false} WindowIsTrailing(env: Replay.Env, symbol: string, t: int, lookback: nat) returns (k: nat)
    requires Replay.ValidMarket(env)
    ensures
      var bars, window := Replay.BarsOf(env, symbol), Window(env, symbol, t, lookback);
      && |window| <= k <= |bars| && window == bars[k - |window|..k]
      && |window| == (if k < lookback then k else lookback)
      && (forall i :: 0 <= i < k ==> bars[i].at <= t) && forall i :: k <= i < |bars| ==> t < bars[i].at
  {
    hide Regular;
    assert SortedBars(Replay.BarsOf(env, symbol));
    k := Replay.BisectRight(Replay.BarsOf(env, symbol), t);
  }

  /** The newest bars at the cursor: of each tradable symbol that has a bar then, the last one then. */
  lemma {:induction false} LatestBarsAre(env: Replay.Env, t: int, symbol: string)
    requires Replay.ValidMarket(env)
    ensures
      var bars := Replay.BarsOf(env, symbol);
      && (symbol in Replay.LatestBars(env, t) <==>
            symbol in env.tradable && exists i :: 0 <= i < |bars| && bars[i].at == t)
      && (symbol in Replay.LatestBars(env, t) ==>
            exists i :: 0 <= i < |bars| && bars[i] == Replay.LatestBars(env, t)[symbol] && bars[i].at == t &&
                        forall j :: i < j < |bars| ==> t < bars[j].at)
  {
    if symbol in env.tradable { LatestOne(env, t, symbol); }
    var bars := Replay.BarsOf(env, symbol);
    assert SortedBars(bars) by { BarsAreSorted(env, symbol); }
    var k := Replay.BisectRight(bars, t);
    NewestAtCut(bars, t, k);
    hide Replay.BisectRight, Replay.LatestBars, Replay.LastBar, SortedBars, Replay.ValidMarket, Replay.BarsOf;
  }

  lemma {:induction false} BarsAreSorted(env: Replay.Env, symbol: string)
    requires Replay.ValidMarket(env)
    ensures SortedBars(Replay.BarsOf(env, symbol))
  {
    hide Regular;
  }

  lemma {:induction false} NewestAtCut(bars: seq<Bar>, t: int, k: nat)
    requires SortedBars(bars) && k <= |bars|
    requires (k > 0 ==> bars[k - 1].at <= t) && forall i :: k <= i < |bars| ==> t < bars[i].at
    ensures (exists i :: 0 <= i < |bars| && bars[i].at == t) <==> k > 0 && bars[k - 1].at == t
  {
    if i :| 0 <= i < |bars| && bars[i].at == t {
      assert i < k && bars[i].at <= bars[k - 1].at;
    }
  }

  /** Some tradable symbol has a bar at this time. */
  predicate Traded(env: Replay.Env, t: int) {
    exists s :: s in env.tradable && s in env.market && exists i :: 0 <= i < |env.market[s]| && env.market[s][i].at == t
  }

  lemma {:induction false} GridTimesAre(env: Replay.Env, start: int, end: int, t: int)
    ensures t in GridTimes(env, start, end) <==> start <= t <= end && Traded(env, t)
  {
    if t in GridTimes(env, start, end) {
      var s, bar :| s in env.tradable && s in env.market && bar in env.market[s] && start <= bar.at <= end && bar.at == t;
      var i :| 0 <= i < |env.market[s]| && env.market[s][i] == bar;
    }
    if start <= t <= end && Traded(env, t) {
      var s :| s in env.tradable && s in env.market && exists i :: 0 <= i < |env.market[s]| && env.market[s][i].at == t;
      var i :| 0 <= i < |env.market[s]| && env.market[s][i].at == t;
      assert env.market[s][i] in env.market[s];
    }
  }

  lemma {:induction false} LatestOne(env: Replay.Env, t: int, symbol: string)
    requires symbol in env.tradable
    ensures
      var bars := Replay.BarsOf(env, symbol);
      var index := Replay.BisectRight(bars, t);
      && (symbol in Replay.LatestBars(env, t) <==> index > 0 && bars[index - 1].at == t)
      && (symbol in Replay.LatestBars(env, t) ==> Replay.LatestBars(env, t)[symbol] == bars[index - 1])
  {
    hide Replay.BisectRight;
  }

  /** The newest bars at the cursor, of some of the symbols. */
  function LatestOf(env: Replay.Env, t: int, symbols: seq<string>): map<string, Bar> {
    map s | s in symbols && s in Replay.LatestBars(env, t) :: Replay.LatestBars(env, t)[s]
  }

  lemma {:induction false} NoneLatest(env: Replay.Env, t: int)
    ensures LatestOf(env, t, []) == map[]
  {}

  lemma {:induction false} LatestStep(env: Replay.Env, t: int, symbols: seq<string>, symbol: string)
    ensures
      var before, latest := LatestOf(env, t, symbols), Replay.LatestBars(env, t);
      LatestOf(env, t, symbols + [symbol]) == if symbol in latest then before[symbol := latest[symbol]] else before
  {
    hide Replay.LatestBars;
  }

  lemma {:induction false} AllLatest(env: Replay.Env, t: int)
    ensures LatestOf(env, t, env.tradable) == Replay.LatestBars(env, t)
  {
    hide Replay.LastBar;
  }

  class HistoricalMarketData {
    const env: Replay.Env
    const lookback: nat
    var cursor: Option<int>

    constructor (env: Replay.Env, lookback: nat)
      ensures this.env == env && this.lookback == lookback && cursor == None
    {
      this.env, this.lookback, cursor := env, lookback, None;
    }

    method AdvanceTo(at: int)
      modifies this
      ensures cursor == Some(at)
    {
      cursor := Some(at);
    }

    /** Every bar time of the period once, in order: the tick grid. */
    method TimestampGrid(start: int, end: int) returns (grid: seq<int>)
      ensures Ascends(grid) && forall t :: t in grid <==> t in GridTimes(env, start, end)
      ensures forall t :: t in grid <==> start <= t <= end && Traded(env, t)
    {
      forall t ensures t in GridTimes(env, start, end) <==> start <= t <= end && Traded(env, t) {
        GridTimesAre(env, start, end, t);
      }
      grid := SortTimes(GridTimes(env, start, end));
    }

    method LatestBars() returns (result: Result<map<string, Bar>>)
      ensures result.Success? <==> cursor.Some?
      ensures result.Success? ==> result.value == Replay.LatestBars(env, cursor.value)
    {
      hide Replay.BisectRight, Replay.LatestBars, Replay.BarsOf, LatestOf;
      if cursor.None? { return Failure("backtest cursor not set; call advance_to() first"); }
      var t := cursor.value;
      var latest := map[];
      NoneLatest(env, t);
      for i := 0 to |env.tradable|
        invariant latest == LatestOf(env, t, env.tradable[..i])
      {
        var symbol := env.tradable[i];
        LatestOne(env, t, symbol);
        assert env.tradable[..i + 1] == env.tradable[..i] + [symbol];
        LatestStep(env, t, env.tradable[..i], symbol);
        var bars := Replay.BarsOf(env, symbol);
        var index := Replay.BisectRight(bars, t);
        if index > 0 && bars[index - 1].at == t {
          latest := latest[symbol := bars[index - 1]];
        }
      }
      assert env.tradable[..|env.tradable|] == env.tradable;
      AllLatest(env, t);
      result := Success(latest);
    }

    method GetSnapshot(symbols: seq<string>) returns (result: Result<Snapshot>)
      ensures result.Success? <==> cursor.Some?
      ensures result.Success? ==>
                && result.value.asOf == cursor.value
                && result.value.bars == Windows(env, symbols, cursor.value, lookback)
                && result.value.quotes == Quotes(env, symbols, cursor.value, lookback)
    {
      hide Window, Windows, Quotes, Replay.QuoteOf;
      if cursor.None? { return Failure("backtest cursor not set; call advance_to() first"); }
      var bars, quotes := map[], map[];
      NoWindows(env, cursor.value, lookback);
      for i := 0 to |symbols|
        invariant bars == Windows(env, symbols[..i], cursor.value, lookback)
        invariant quotes == Quotes(env, symbols[..i], cursor.value, lookback)
      {
        NextWindow(env, symbols, i, cursor.value, lookback);
        var window := Window(env, symbols[i], cursor.value, lookback);
        bars := bars[symbols[i] := window];
        if window != [] {
          quotes := quotes[symbols[i] := Replay.QuoteOf(env, window[|window| - 1])];
        }
      }
      assert symbols[..|symbols|] == symbols;
      result := Success(Snapshot(bars, quotes, cursor.value));
    }
  }
}
