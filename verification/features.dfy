/** One-pass feature series against the per-prefix definitions they must equal. */
module Features {
  import opened Wrappers
  import opened Session
  import opened Broker
  import opened BarSeries

  // ---------------------------------------------------------- session VWAP

  /** The regular-session bars of one date. */
  function OfDate(zone: Zone, bars: seq<Bar>, date: int): seq<Bar> {
    if bars == [] then [] else
      var front, last := OfDate(zone, bars[..|bars| - 1], date), bars[|bars| - 1];
      if Regular(zone, last.at) && LocalDate(zone, last.at) == date then front + [last] else front
  }

  /** `current_session_bars`: those of the latest bar's date. */
  function CurrentSession(zone: Zone, bars: seq<Bar>): seq<Bar> {
    if bars == [] then [] else OfDate(zone, bars, LocalDate(zone, bars[|bars| - 1].at))
  }

  function Typical(b: Bar): real {
    (b.high + b.low + b.close) / 3.0
  }

  function TotalVolume(bars: seq<Bar>): real {
    if bars == [] then 0.0 else TotalVolume(bars[..|bars| - 1]) + bars[|bars| - 1].volume
  }

  function Weighted(bars: seq<Bar>): real {
    if bars == [] then 0.0 else Weighted(bars[..|bars| - 1]) + Typical(bars[|bars| - 1]) * bars[|bars| - 1].volume
  }

  function Distance(close: real, weighted: real, volume: real): Option<real> {
    if volume <= 0.0 then None else
      var vwap := weighted / volume;
      if vwap > 0.0 then Some((close - vwap) / vwap) else None
  }

  /** `compute` of the session VWAP distance: sums over the whole session so far. */
  function VwapDistance(zone: Zone, bars: seq<Bar>): Option<real> {
    var session := CurrentSession(zone, bars);
    if session == [] then None else Distance(session[|session| - 1].close, Weighted(session), TotalVolume(session))
  }

  /** The trailing run of bars that share the latest bar's local date. */
  function Trailing(zone: Zone, bars: seq<Bar>): (run: seq<Bar>)
    ensures bars != [] ==> run != [] && run[|run| - 1] == bars[|bars| - 1]
  {
    if bars == [] then [] else
      var front, last := bars[..|bars| - 1], bars[|bars| - 1];
      if front != [] && LocalDate(zone, front[|front| - 1].at) == LocalDate(zone, last.at) then Trailing(zone, front) + [last]
      else [last]
  }

  function NonNegative(bars: seq<Bar>): seq<Bar> {
    if bars == [] then [] else
      var front, last := NonNegative(bars[..|bars| - 1]), bars[|bars| - 1];
      if last.volume < 0.0 then front else front + [last]
  }

  /** What the one-pass series holds for its latest bar: nothing for a negative volume, which it leaves out of all sums. */
  function OnePassVwap(zone: Zone, bars: seq<Bar>): Option<real> {
    if bars == [] || bars[|bars| - 1].volume < 0.0 then None else
      var counted := NonNegative(Trailing(zone, bars));
      Distance(bars[|bars| - 1].close, Weighted(counted), TotalVolume(counted))
  }

  lemma {:induction false} SumsGrow(session: seq<Bar>, b: Bar)
    ensures TotalVolume(session + [b]) == TotalVolume(session) + b.volume
    ensures Weighted(session + [b]) == Weighted(session) + Typical(b) * b.volume
    ensures NonNegative(session + [b]) == if b.volume < 0.0 then NonNegative(session) else NonNegative(session) + [b]
  {
    assert (session + [b])[..|session|] == session;
  }

  lemma {:induction false} TrailingNext(zone: Zone, bars: seq<Bar>, i: nat)
    requires i < |bars|
    ensures Trailing(zone, bars[..i + 1]) ==
              (if i > 0 && LocalDate(zone, bars[i - 1].at) == LocalDate(zone, bars[i].at) then Trailing(zone, bars[..i]) else []) + [bars[i]]
    ensures bars[..i + 1][|bars[..i + 1]| - 1] == bars[i]
  {
    assert bars[..i + 1][..i] == bars[..i];
  }

  lemma {:induction false} NoSums()
    ensures Weighted(NonNegative([])) == 0.0 && TotalVolume(NonNegative([])) == 0.0
  {}

  /** The accumulators after one more bar of the run. */
  lemma {:induction false} SumsNext(run: seq<Bar>, b: Bar)
    ensures
      var before, after := NonNegative(run), NonNegative(run + [b]);
      && Weighted(after) == (if b.volume > 0.0 then Weighted(before) + Typical(b) * b.volume else Weighted(before))
      && TotalVolume(after) == (if b.volume > 0.0 then TotalVolume(before) + b.volume else TotalVolume(before))
  {
    hide Typical;
    SumsGrow(run, b);
    SumsGrow(NonNegative(run), b);
  }

  /** `compute_series`, for any bars at all: accumulators that restart when the date changes and skip negative volumes. */
  method VwapSeries(zone: Zone, bars: seq<Bar>) returns (result: seq<Option<real>>)
    ensures |result| == |bars| && forall i :: 0 <= i < |bars| ==> result[i] == OnePassVwap(zone, bars[..i + 1])
  {
    hide LocalDate, Trailing, NonNegative, Typical, Weighted, TotalVolume;
    result := [];
    var currentDate: Option<int> := None;
    var weighted, volume := 0.0, 0.0;
    for i := 0 to |bars|
      invariant |result| == i
      invariant forall j :: 0 <= j < i ==> result[j] == OnePassVwap(zone, bars[..j + 1])
      invariant currentDate == if i == 0 then None else Some(LocalDate(zone, bars[i - 1].at))
      invariant i > 0 ==> weighted == Weighted(NonNegative(Trailing(zone, bars[..i])))
      invariant i > 0 ==> volume == TotalVolume(NonNegative(Trailing(zone, bars[..i])))
    {
      var bar := bars[i];
      var date := LocalDate(zone, bar.at);
      TrailingNext(zone, bars, i);
      NoSums();
      SumsNext(if i > 0 && currentDate == Some(date) then Trailing(zone, bars[..i]) else [], bar);
      if currentDate != Some(date) {
        currentDate, weighted, volume := Some(date), 0.0, 0.0;
      }
      var value := None;
      if bar.volume >= 0.0 {
        if bar.volume > 0.0 {
          weighted := weighted + Typical(bar) * bar.volume;
          volume := volume + bar.volume;
        }
        if volume > 0.0 {
          var vwap := weighted / volume;
          if vwap > 0.0 {
            value := Some((bar.close - vwap) / vwap);
          }
        }
      }
      result := result + [value];
    }
  }

  /** Regular sessions in time order, as the feature pipeline delivers them. */
  ghost predicate Orderly(zone: Zone, bars: seq<Bar>) {
    && SortedBars(bars) && SteadySessions(zone)
    && forall b :: b in bars ==> Regular(zone, b.at)
  }

  lemma {:induction false} OrderlyFront(zone: Zone, bars: seq<Bar>)
    requires Orderly(zone, bars) && bars != []
    ensures Orderly(zone, bars[..|bars| - 1])
    ensures Regular(zone, bars[|bars| - 1].at)
    ensures |bars| > 1 ==> LocalDate(zone, bars[|bars| - 2].at) <= LocalDate(zone, bars[|bars| - 1].at)
  {
    hide Regular, LocalDate, SteadySessions;
    assert bars[|bars| - 1] in bars;
    if |bars| > 1 {
      assert bars[|bars| - 2] in bars;
      DatesIncrease(zone, bars[|bars| - 2].at, bars[|bars| - 1].at);
    }
  }

  lemma {:induction false} EarlierDates(zone: Zone, bars: seq<Bar>, date: int)
    requires Orderly(zone, bars) && (bars != [] ==> LocalDate(zone, bars[|bars| - 1].at) < date)
    ensures OfDate(zone, bars, date) == []
  {
    hide Regular, LocalDate, Orderly;
    if bars != [] {
      OrderlyFront(zone, bars);
      EarlierDates(zone, bars[..|bars| - 1], date);
    }
  }

  /** In time order the current session is the trailing run. */
  lemma {:induction false} SessionIsTrailing(zone: Zone, bars: seq<Bar>)
    requires Orderly(zone, bars)
    ensures CurrentSession(zone, bars) == Trailing(zone, bars)
  {
    hide Regular, LocalDate, Orderly;
    if bars != [] {
      var front, last := bars[..|bars| - 1], bars[|bars| - 1];
      OrderlyFront(zone, bars);
      if front != [] && LocalDate(zone, front[|front| - 1].at) == LocalDate(zone, last.at) {
        SessionIsTrailing(zone, front);
      } else {
        EarlierDates(zone, front, LocalDate(zone, last.at));
      }
    }
  }

  /** Two distances from one close agree exactly when the same averages exist, and are equal or the close is zero. */
  lemma {:induction false} DistancesAgree(close: real, w: real, v: real, x: real, u: real)
    ensures Distance(close, w, v).Some? <==> v > 0.0 && w > 0.0
    ensures v > 0.0 && w > 0.0 && u > 0.0 && x > 0.0 ==>
              (Distance(close, w, v) == Distance(close, x, u) <==> close == 0.0 || w * u == x * v)
  {
    if v > 0.0 {
      Positive(w, v);
    }
    if v > 0.0 && w > 0.0 && u > 0.0 && x > 0.0 {
      Positive(x, u);
      RatiosAgree(close, w / v, x / u);
      CrossMultiply(w, v, x, u);
    }
  }

  lemma {:induction false} Positive(w: real, v: real)
    requires v > 0.0
    ensures w / v > 0.0 <==> w > 0.0
  {
    assert (w / v) * v == w;
  }

  lemma {:induction false} CrossMultiply(w: real, v: real, x: real, u: real)
    requires v > 0.0 && u > 0.0
    ensures w / v == x / u <==> w * u == x * v
  {
    var a, b := w / v, x / u;
    assert a * v == w && b * u == x;
    assert w * u == a * (v * u) && x * v == b * (v * u);
    assert v * u > 0.0;
    Cancel(a, b, v * u);
  }

  lemma {:induction false} Cancel(a: real, b: real, k: real)
    requires k != 0.0
    ensures a * k == b * k <==> a == b
  {
    assert (a - b) * k == a * k - b * k;
    assert (a - b) * k == 0.0 ==> a == b;
  }

  lemma {:induction false} RatiosAgree(close: real, a: real, b: real)
    requires a > 0.0 && b > 0.0
    ensures (close - a) / a == (close - b) / b <==> close == 0.0 || a == b
  {
    var p, q := (close - a) / a, (close - b) / b;
    assert p * a == close - a && q * b == close - b;
    assert (p + 1.0) * a == close && (q + 1.0) * b == close;
    if p == q && a != b {
      assert (p + 1.0) * (a - b) == 0.0;
      assert p + 1.0 == 0.0;
    }
    if close == 0.0 {
      assert p + 1.0 == 0.0 && q + 1.0 == 0.0;
    }
  }

  /**
   * When the fast form is the simple one, exactly: both have an average or neither has, and where they
   * do, the sums with and without negative volumes give the same average (or the close is zero).
   */
  lemma {:induction false} VwapFormsAgree(zone: Zone, bars: seq<Bar>)
    requires Orderly(zone, bars) && bars != []
    ensures
      var session, last := CurrentSession(zone, bars), bars[|bars| - 1];
      var w, v := Weighted(session), TotalVolume(session);
      var x, u := Weighted(NonNegative(session)), TotalVolume(NonNegative(session));
      var slow, fast := v > 0.0 && w > 0.0, last.volume >= 0.0 && u > 0.0 && x > 0.0;
      OnePassVwap(zone, bars) == VwapDistance(zone, bars) <==>
        (fast <==> slow) && (slow ==> last.close == 0.0 || w * u == x * v)
  {
    hide LocalDate, Trailing, Weighted, TotalVolume, NonNegative, Orderly, Distance, CurrentSession;
    SessionIsTrailing(zone, bars);
    var session, last := CurrentSession(zone, bars), bars[|bars| - 1];
    var counted := NonNegative(session);
    DistancesAgree(last.close, Weighted(session), TotalVolume(session), Weighted(counted), TotalVolume(counted));
    DistancesAgree(last.close, Weighted(counted), TotalVolume(counted), Weighted(session), TotalVolume(session));
  }

  /** Without negative volumes in the session the fast form is the simple one. */
  lemma {:induction false} VwapSeriesRefines(zone: Zone, bars: seq<Bar>)
    requires Orderly(zone, bars) && forall b :: b in CurrentSession(zone, bars) ==> b.volume >= 0.0
    ensures OnePassVwap(zone, bars) == VwapDistance(zone, bars)
  {
    hide LocalDate, Trailing, Weighted, TotalVolume, NonNegative, Orderly, Distance, CurrentSession;
    SessionIsTrailing(zone, bars);
    AllCounted(CurrentSession(zone, bars));
    if bars != [] {
      var session := CurrentSession(zone, bars);
      assert session[|session| - 1] in session;
    } else {
      NoSession(zone);
    }
  }

  lemma {:induction false} NoSession(zone: Zone)
    ensures CurrentSession(zone, []) == []
  {}

  lemma {:induction false} AllCounted(bars: seq<Bar>)
    requires forall b :: b in bars ==> b.volume >= 0.0
    ensures NonNegative(bars) == bars
  {
    if bars != [] {
      assert bars[|bars| - 1] in bars;
      AllCounted(bars[..|bars| - 1]);
    }
  }

  /** Two bars at 10 with volumes 2 and -1: the series has no value there, the prefix form has zero distance. */
  lemma {:induction false} NegativeVolumeDiffers(zone: Zone, a: Bar, b: Bar)
    requires Regular(zone, a.at) && Regular(zone, b.at) && LocalDate(zone, a.at) == LocalDate(zone, b.at)
    requires a.high == a.low == a.close == 10.0 && a.volume == 2.0
    requires b.high == b.low == b.close == 10.0 && b.volume == -1.0
    ensures OnePassVwap(zone, [a, b]) == None && VwapDistance(zone, [a, b]) == Some(0.0)
  {
    hide Regular, LocalDate;
    var date := LocalDate(zone, b.at);
    assert [a, b][..1] == [a] && [a][..0] == [];
    assert OfDate(zone, [a], date) == [a] by { assert OfDate(zone, [], date) == []; }
    assert CurrentSession(zone, [a, b]) == [a] + [b];
    SumsGrow([], a);
    SumsGrow([a], b);
    assert [] + [a] == [a];
    assert Weighted([a] + [b]) == 10.0 && TotalVolume([a] + [b]) == 1.0;
  }

  // ----------------------------------------------------- volume by time of day

  /** The local clock minute a bar starts in. */
  function Slot(zone: Zone, b: Bar): int {
    TimeOfDay(zone, b.at) / MINUTE
  }

  /** At most one bar per date and slot. */
  ghost predicate OnePerSlot(zone: Zone, bars: seq<Bar>) {
    forall i, j :: 0 <= i < j < |bars| && Slot(zone, bars[i]) == Slot(zone, bars[j]) ==>
      LocalDate(zone, bars[i].at) != LocalDate(zone, bars[j].at)
  }

  type Transform = real -> real

  /** Mean and deviation look at the values as a bag. */
  type Score = (multiset<real>, real) -> real

  /** `compute` walking back: the newest `want` values of the slot, one per other date; a negative volume ends it all. */
  function WalkBack(zone: Zone, log1p: Transform, bars: seq<Bar>, date: int, slot: int, seen: set<int>, want: nat): Option<seq<real>> {
    if bars == [] || want == 0 then Some([]) else
      var front, last := bars[..|bars| - 1], bars[|bars| - 1];
      var day := LocalDate(zone, last.at);
      if day == date || day in seen || Slot(zone, last) != slot then WalkBack(zone, log1p, front, date, slot, seen, want)
      else if last.volume < 0.0 then None
      else
        var rest := WalkBack(zone, log1p, front, date, slot, seen + {day}, want - 1);
        if rest.None? then None else Some([log1p(last.volume)] + rest.value)
  }

  function VolumeScore(zone: Zone, log1p: Transform, score: Score, bars: seq<Bar>, sessions: nat): Option<real> {
    if bars == [] then None else
      var latest := bars[|bars| - 1];
      var values := WalkBack(zone, log1p, bars[..|bars| - 1], LocalDate(zone, latest.at), Slot(zone, latest), {}, sessions);
      if values.None? || |values.value| < sessions || latest.volume < 0.0 then None
      else Some(score(multiset(values.value), latest.volume))
  }

  /** All of a slot's values so far, in time order, negative volumes left out. */
  function SlotValues(zone: Zone, log1p: Transform, bars: seq<Bar>, slot: int): seq<real> {
    if bars == [] then [] else
      var front, last := SlotValues(zone, log1p, bars[..|bars| - 1], slot), bars[|bars| - 1];
      if Slot(zone, last) == slot && last.volume >= 0.0 then front + [log1p(last.volume)] else front
  }

  /** What the one-pass series holds for its latest bar: the slot's deque must be full, and the volume not negative. */
  function OnePassVolume(zone: Zone, log1p: Transform, score: Score, bars: seq<Bar>, sessions: nat): Option<real> {
    if bars == [] || bars[|bars| - 1].volume < 0.0 then None else
      var latest := bars[|bars| - 1];
      var kept := LastOf(SlotValues(zone, log1p, bars[..|bars| - 1], Slot(zone, latest)), sessions);
      if |kept| == sessions then Some(score(multiset(kept), latest.volume)) else None
  }

  /** What a bounded deque keeps. */
  function LastOf(values: seq<real>, n: nat): (r: seq<real>)
    ensures |r| == if |values| < n then |values| else n
  {
    if |values| <= n then values else values[|values| - n..]
  }

  predicate Reverse(a: seq<real>, b: seq<real>) {
    |a| == |b| && forall i :: 0 <= i < |a| ==> a[i] == b[|a| - 1 - i]
  }

  lemma {:induction false} ReverseIsBag(a: seq<real>, b: seq<real>)
    requires Reverse(a, b)
    ensures multiset(a) == multiset(b)
    decreases |a|
  {
    if a != [] {
      var n := |a| - 1;
      assert a == [a[0]] + a[1..] && b == b[..n] + [b[n]];
      ReverseIsBag(a[1..], b[..n]);
    } else {
      assert b == [];
    }
  }

  /** No bar of the slot lies on one of these dates. */
  ghost predicate Clear(zone: Zone, bars: seq<Bar>, date: int, slot: int, seen: set<int>) {
    forall b :: b in bars && Slot(zone, b) == slot ==> LocalDate(zone, b.at) != date && LocalDate(zone, b.at) !in seen
  }

  /** All of a slot's bars so far, negative volumes included. */
  function SlotBars(zone: Zone, bars: seq<Bar>, slot: int): seq<Bar> {
    if bars == [] then [] else
      var front, last := SlotBars(zone, bars[..|bars| - 1], slot), bars[|bars| - 1];
      if Slot(zone, last) == slot then front + [last] else front
  }

  /** None of the newest `want` bars has a negative volume. */
  predicate NewestCount(bars: seq<Bar>, want: nat) {
    forall i :: 0 <= i < |bars| && |bars| - want <= i ==> bars[i].volume >= 0.0
  }

  lemma {:induction false} NewestNext(front: seq<Bar>, last: Bar, want: nat)
    requires want > 0
    ensures NewestCount(front + [last], want) <==> last.volume >= 0.0 && NewestCount(front, want - 1)
  {
    var bars := front + [last];
    assert bars[|front|] == last && forall i :: 0 <= i < |front| ==> bars[i] == front[i];
  }

  lemma {:induction false} LastOfNext(values: seq<real>, v: real, n: nat)
    requires n > 0
    ensures LastOf(values + [v], n) == LastOf(values, n - 1) + [v]
  {}

  lemma {:induction false} ReverseNext(a: seq<real>, b: seq<real>, v: real)
    requires Reverse(a, b)
    ensures Reverse([v] + a, b + [v])
  {}

  /**
   * Walking back over distinct dates finds something exactly when the slot's newest bars all count, and then
   * exactly what the slot's deque holds, newest first.
   */
  lemma {:induction false} WalkBackIs(
    zone: Zone, log1p: Transform, bars: seq<Bar>, date: int, slot: int, seen: set<int>, want: nat)
    requires OnePerSlot(zone, bars) && Clear(zone, bars, date, slot, seen)
    ensures
      var found := WalkBack(zone, log1p, bars, date, slot, seen, want);
      && (found.Some? <==> NewestCount(SlotBars(zone, bars, slot), want))
      && (found.Some? ==> Reverse(found.value, LastOf(SlotValues(zone, log1p, bars, slot), want)))
    decreases |bars|
  {
    hide Slot, LocalDate, Reverse, LastOf, NewestCount;
    if bars != [] && want > 0 {
      var front, last := bars[..|bars| - 1], bars[|bars| - 1];
      var day := LocalDate(zone, last.at);
      assert last in bars && forall b :: b in front ==> b in bars;
      if Slot(zone, last) == slot {
        NewestNext(SlotBars(zone, front, slot), last, want);
        if last.volume >= 0.0 {
          assert Clear(zone, front, date, slot, seen + {day}) by { ClearOther(zone, bars, date, slot, seen); }
          WalkBackIs(zone, log1p, front, date, slot, seen + {day}, want - 1);
          var values, v := SlotValues(zone, log1p, front, slot), log1p(last.volume);
          LastOfNext(values, v, want);
          var rest := WalkBack(zone, log1p, front, date, slot, seen + {day}, want - 1);
          if rest.Some? { ReverseNext(rest.value, LastOf(values, want - 1), v); }
        }
      } else {
        WalkBackIs(zone, log1p, front, date, slot, seen, want);
      }
    } else {
      NothingWanted(SlotBars(zone, bars, slot), SlotValues(zone, log1p, bars, slot), want);
    }
  }

  lemma {:induction false} NothingWanted(bars: seq<Bar>, values: seq<real>, want: nat)
    requires want == 0 || (bars == [] && values == [])
    ensures NewestCount(bars, want) && Reverse([], LastOf(values, want))
  {}

  lemma {:induction false} ClearOther(zone: Zone, bars: seq<Bar>, date: int, slot: int, seen: set<int>)
    requires bars != [] && OnePerSlot(zone, bars) && Clear(zone, bars, date, slot, seen)
    requires Slot(zone, bars[|bars| - 1]) == slot
    ensures Clear(zone, bars[..|bars| - 1], date, slot, seen + {LocalDate(zone, bars[|bars| - 1].at)})
  {
    hide Slot, LocalDate;
    assert forall b :: b in bars[..|bars| - 1] ==> b in bars;
  }

  /**
   * Exactly when the two forms agree, with at most one bar per date and slot: the latest volume is negative, or
   * the slot has too few values yet, or none of its newest bars has a negative volume.
   */
  lemma {:induction false} VolumeFormsAgree(zone: Zone, log1p: Transform, score: Score, bars: seq<Bar>, sessions: nat)
    requires OnePerSlot(zone, bars) && bars != []
    ensures
      var front, last := bars[..|bars| - 1], bars[|bars| - 1];
      OnePassVolume(zone, log1p, score, bars, sessions) == VolumeScore(zone, log1p, score, bars, sessions) <==>
        || last.volume < 0.0
        || |SlotValues(zone, log1p, front, Slot(zone, last))| < sessions
        || NewestCount(SlotBars(zone, front, Slot(zone, last)), sessions)
  {
    hide Slot, LocalDate, Reverse, NewestCount;
    var front, bar := bars[..|bars| - 1], bars[|bars| - 1];
    var date, slot := LocalDate(zone, bar.at), Slot(zone, bar);
    assert Clear(zone, front, date, slot, {});
    WalkBackIs(zone, log1p, front, date, slot, {}, sessions);
    var found, kept := WalkBack(zone, log1p, front, date, slot, {}, sessions), LastOf(SlotValues(zone, log1p, front, slot), sessions);
    if found.Some? {
      ReverseIsBag(found.value, kept);
      ReverseLength(found.value, kept);
    }
  }

  lemma {:induction false} ReverseLength(a: seq<real>, b: seq<real>)
    requires Reverse(a, b)
    ensures |a| == |b|
  {}

  /** With no negative volume the fast form is the simple one. */
  lemma {:induction false} VolumeSeriesRefines(zone: Zone, log1p: Transform, score: Score, bars: seq<Bar>, sessions: nat)
    requires OnePerSlot(zone, bars) && forall b :: b in bars ==> b.volume >= 0.0
    ensures OnePassVolume(zone, log1p, score, bars, sessions) == VolumeScore(zone, log1p, score, bars, sessions)
  {
    hide Slot, OnePerSlot, OnePassVolume, VolumeScore;
    if bars != [] {
      var front, last := bars[..|bars| - 1], bars[|bars| - 1];
      VolumeFormsAgree(zone, log1p, score, bars, sessions);
      SlotBarsWithin(zone, front, Slot(zone, last));
      assert forall b :: b in front ==> b in bars;
      assert forall i :: 0 <= i < |SlotBars(zone, front, Slot(zone, last))| ==>
               SlotBars(zone, front, Slot(zone, last))[i] in SlotBars(zone, front, Slot(zone, last));
    } else {
      NoBars(zone, log1p, score, sessions);
    }
  }

  lemma {:induction false} NoBars(zone: Zone, log1p: Transform, score: Score, sessions: nat)
    ensures OnePassVolume(zone, log1p, score, [], sessions) == VolumeScore(zone, log1p, score, [], sessions) == None
  {}

  lemma {:induction false} SlotBarsWithin(zone: Zone, bars: seq<Bar>, slot: int)
    ensures forall b :: b in SlotBars(zone, bars, slot) ==> b in bars
  {
    hide Slot;
    if bars != [] { SlotBarsWithin(zone, bars[..|bars| - 1], slot); }
  }

  /** A negative volume in the slot's past silences the prefix form, while the series passes over it. */
  lemma {:induction false} NegativeHistoryDiffers(zone: Zone, log1p: Transform, score: Score, a: Bar, n: Bar, b: Bar)
    requires Slot(zone, a) == Slot(zone, n) == Slot(zone, b)
    requires LocalDate(zone, a.at) < LocalDate(zone, n.at) < LocalDate(zone, b.at)
    requires a.volume >= 0.0 && n.volume < 0.0 && b.volume >= 0.0
    ensures VolumeScore(zone, log1p, score, [a, n, b], 1) == None
    ensures OnePassVolume(zone, log1p, score, [a, n, b], 1) == Some(score(multiset{log1p(a.volume)}, b.volume))
  {
    hide Slot, LocalDate;
    var slot := Slot(zone, b);
    assert [a, n, b][..2] == [a, n] && [a, n][..1] == [a] && [a][..0] == [];
    assert SlotValues(zone, log1p, [], slot) == [];
    assert SlotValues(zone, log1p, [a], slot) == [log1p(a.volume)];
    assert SlotValues(zone, log1p, [a, n], slot) == [log1p(a.volume)];
    assert WalkBack(zone, log1p, [a, n], LocalDate(zone, b.at), slot, {}, 1).None?;
  }

  /** `compute_series`, for any bars at all: one bounded deque per slot. */
  method VolumeSeries(zone: Zone, log1p: Transform, score: Score, bars: seq<Bar>, sessions: nat)
    returns (result: seq<Option<real>>)
    requires sessions >= 1
    ensures |result| == |bars|
    ensures forall i :: 0 <= i < |bars| ==> result[i] == OnePassVolume(zone, log1p, score, bars[..i + 1], sessions)
  {
    hide Slot, LastOf, SlotValues, OnePassVolume, Holds, Deque;
    result := [];
    var history: map<int, seq<real>> := map[];
    NothingHeld(zone, log1p, sessions);
    for i := 0 to |bars|
      invariant |result| == i
      invariant forall j :: 0 <= j < i ==> result[j] == OnePassVolume(zone, log1p, score, bars[..j + 1], sessions)
      invariant Holds(zone, log1p, history, bars[..i], sessions)
    {
      var bar := bars[i];
      VolumeNext(zone, log1p, score, history, bars, i, sessions);
      if bar.volume < 0.0 {
        result := result + [None];
        continue;
      }
      var slot := Slot(zone, bar);
      var previous := Deque(history, slot);
      result := result + [if |previous| == sessions then Some(score(multiset(previous), bar.volume)) else None];
      history := history[slot := LastOf(previous + [log1p(bar.volume)], sessions)];
    }
  }

  /** Every slot's deque holds the newest values of its slot. */
  ghost predicate Holds(zone: Zone, log1p: Transform, history: map<int, seq<real>>, bars: seq<Bar>, sessions: nat) {
    forall slot :: Deque(history, slot) == LastOf(SlotValues(zone, log1p, bars, slot), sessions)
  }

  lemma {:induction false} NothingHeld(zone: Zone, log1p: Transform, sessions: nat)
    ensures Holds(zone, log1p, map[], [], sessions)
  {}

  lemma {:induction false} VolumeNext(
    zone: Zone, log1p: Transform, score: Score, history: map<int, seq<real>>, bars: seq<Bar>, i: nat, sessions: nat)
    requires i < |bars| && sessions >= 1 && Holds(zone, log1p, history, bars[..i], sessions)
    ensures
      var bar := bars[i];
      var slot := Slot(zone, bar);
      var previous := Deque(history, slot);
      && OnePassVolume(zone, log1p, score, bars[..i + 1], sessions) ==
           (if bar.volume >= 0.0 && |previous| == sessions then Some(score(multiset(previous), bar.volume)) else None)
      && Holds(zone, log1p,
           if bar.volume < 0.0 then history else history[slot := LastOf(previous + [log1p(bar.volume)], sessions)],
           bars[..i + 1], sessions)
  {
    hide Slot, LastOf, SlotValues;
    assert bars[..i + 1][..i] == bars[..i] && bars[..i + 1][i] == bars[i];
    assert Deque(history, Slot(zone, bars[i])) == LastOf(SlotValues(zone, log1p, bars[..i], Slot(zone, bars[i])), sessions);
    SlotValuesNext(zone, log1p, bars, i, sessions);
    var bar := bars[i];
    var pushed := LastOf(Deque(history, Slot(zone, bar)) + [log1p(bar.volume)], sessions);
    var next := if bar.volume < 0.0 then history else history[Slot(zone, bar) := pushed];
    forall slot ensures Deque(next, slot) == LastOf(SlotValues(zone, log1p, bars[..i + 1], slot), sessions) {
      assert Deque(history, slot) == LastOf(SlotValues(zone, log1p, bars[..i], slot), sessions);
    }
  }

  /** `defaultdict(deque)` lookup. */
  function Deque(history: map<int, seq<real>>, slot: int): seq<real> {
    if slot in history then history[slot] else []
  }

  lemma {:induction false} SlotValuesNext(zone: Zone, log1p: Transform, bars: seq<Bar>, i: nat, sessions: nat)
    requires i < |bars| && sessions >= 1
    ensures forall slot ::
              LastOf(SlotValues(zone, log1p, bars[..i + 1], slot), sessions) ==
                if slot == Slot(zone, bars[i]) && bars[i].volume >= 0.0
                then LastOf(LastOf(SlotValues(zone, log1p, bars[..i], slot), sessions) + [log1p(bars[i].volume)], sessions)
                else LastOf(SlotValues(zone, log1p, bars[..i], slot), sessions)
  {
    hide Slot, LastOf;
    assert bars[..i + 1][..i] == bars[..i];
    forall slot {
      DequePush(SlotValues(zone, log1p, bars[..i], slot), log1p(bars[i].volume), sessions);
    }
  }

  lemma {:induction false} DequePush(values: seq<real>, v: real, n: nat)
    requires n >= 1
    ensures LastOf(LastOf(values, n) + [v], n) == LastOf(values + [v], n)
  {}
}
