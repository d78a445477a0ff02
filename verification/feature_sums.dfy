/** What the session features measure, as sums and choices over the positions of the bars. */
module FeatureSums {
  import opened Wrappers
  import opened Calendar
  import opened Session
  import opened Broker
  import opened BarSeries
  import opened Features

  // ------------------------------------------------------------------- vwap

  function Total(xs: seq<real>): real {
    if xs == [] then 0.0 else Total(xs[..|xs| - 1]) + xs[|xs| - 1]
  }

  /** The volumes of the bars that count. */
  function Volumes(bars: seq<Bar>, counts: Bar -> bool): seq<real> {
    seq(|bars|, i requires 0 <= i < |bars| => if counts(bars[i]) then bars[i].volume else 0.0)
  }

  /** What a bar traded for, at its high, at its low and at its close together. */
  function ThriceValue(b: Bar): real {
    (b.high + b.low + b.close) * b.volume
  }

  function ThriceTraded(bars: seq<Bar>, counts: Bar -> bool): seq<real> {
    seq(|bars|, i requires 0 <= i < |bars| => if counts(bars[i]) then ThriceValue(bars[i]) else 0.0)
  }

  lemma {:induction false} TotalsGrow(front: seq<Bar>, last: Bar, counts: Bar -> bool)
    ensures Total(Volumes(front + [last], counts)) == Total(Volumes(front, counts)) + if counts(last) then last.volume else 0.0
    ensures Total(ThriceTraded(front + [last], counts)) ==
              Total(ThriceTraded(front, counts)) +
              if counts(last) then ThriceValue(last) else 0.0
  {
    hide ThriceValue;
    var bars := front + [last];
    assert Volumes(bars, counts)[..|front|] == Volumes(front, counts);
    assert ThriceTraded(bars, counts)[..|front|] == ThriceTraded(front, counts);
  }

  lemma {:induction false} ThriceTypical(b: Bar)
    ensures 3.0 * (Typical(b) * b.volume) == ThriceValue(b)
  {
    assert 3.0 * Typical(b) == b.high + b.low + b.close;
  }

  lemma {:induction false} SumsMore(bars: seq<Bar>, b: Bar)
    ensures TotalVolume(bars + [b]) == TotalVolume(bars) + b.volume
    ensures 3.0 * Weighted(bars + [b]) == 3.0 * Weighted(bars) + ThriceValue(b)
  {
    SumsGrow(bars, b);
    ThriceTypical(b);
  }

  lemma {:induction false} SessionTotals(zone: Zone, bars: seq<Bar>, date: int)
    ensures
      var counts := (b: Bar) => Regular(zone, b.at) && LocalDate(zone, b.at) == date;
      && TotalVolume(OfDate(zone, bars, date)) == Total(Volumes(bars, counts))
      && 3.0 * Weighted(OfDate(zone, bars, date)) == Total(ThriceTraded(bars, counts))
  {
    hide Regular, LocalDate, TotalVolume, Weighted;
    if bars == [] {
      NoTotals();
    } else {
      var front, last := bars[..|bars| - 1], bars[|bars| - 1];
      var counts := (b: Bar) => Regular(zone, b.at) && LocalDate(zone, b.at) == date;
      SessionTotals(zone, front, date);
      assert bars == front + [last];
      TotalsGrow(front, last, counts);
      SumsMore(OfDate(zone, front, date), last);
    }
  }

  lemma {:induction false} NoTotals()
    ensures TotalVolume([]) == Weighted([]) == 0.0
  {}

  lemma {:induction false} CountedTotals(run: seq<Bar>)
    ensures
      var counts := (b: Bar) => b.volume >= 0.0;
      && TotalVolume(NonNegative(run)) == Total(Volumes(run, counts))
      && 3.0 * Weighted(NonNegative(run)) == Total(ThriceTraded(run, counts))
  {
    hide TotalVolume, Weighted;
    if run == [] {
      NoTotals();
    } else {
      var front, last := run[..|run| - 1], run[|run| - 1];
      CountedTotals(front);
      assert run == front + [last];
      TotalsGrow(front, last, (b: Bar) => b.volume >= 0.0);
      SumsMore(NonNegative(front), last);
    }
  }

  /** A distance exists exactly over a positive volume and a positive average, and is relative to the average. */
  lemma {:induction false} DistanceIs(close: real, weighted: real, volume: real)
    ensures Distance(close, weighted, volume).Some? <==> volume > 0.0 && weighted > 0.0
    ensures volume > 0.0 && weighted > 0.0 ==> (Distance(close, weighted, volume).value + 1.0) * weighted == close * volume
  {
    if volume > 0.0 {
      var vwap := weighted / volume;
      Features.Positive(weighted, volume);
      assert vwap * volume == weighted;
      if vwap > 0.0 {
        var d := (close - vwap) / vwap;
        assert d * vwap == close - vwap;
        assert (d + 1.0) * vwap == close;
        assert (d + 1.0) * (vwap * volume) == (d + 1.0) * vwap * volume;
      }
    }
  }

  /** The distance `d` of a close from the average that the totals give. */
  predicate FromAverage(d: real, close: real, thriceTraded: real, volume: real) {
    (d + 1.0) * thriceTraded == 3.0 * (close * volume)
  }

  lemma {:induction false} ThriceDistance(close: real, weighted: real, volume: real, thrice: real)
    requires thrice == 3.0 * weighted
    ensures Distance(close, weighted, volume).Some? <==> volume > 0.0 && thrice > 0.0
    ensures volume > 0.0 && thrice > 0.0 ==> FromAverage(Distance(close, weighted, volume).value, close, thrice, volume)
  {
    DistanceIs(close, weighted, volume);
    if volume > 0.0 && thrice > 0.0 {
      var d := Distance(close, weighted, volume).value;
      assert (d + 1.0) * (3.0 * weighted) == 3.0 * ((d + 1.0) * weighted);
    }
  }

  /**
   * The per-prefix form: over the regular-session bars of the last bar's date, the distance of the last
   * of their closes from the average of their prices by volume, where volume and average are positive.
   */
  lemma {:induction false} VwapDistanceIs(zone: Zone, bars: seq<Bar>) returns (j: nat)
    requires bars != []
    ensures
      var date := LocalDate(zone, bars[|bars| - 1].at);
      var counts := (b: Bar) => Regular(zone, b.at) && LocalDate(zone, b.at) == date;
      var volume, thrice := Total(Volumes(bars, counts)), Total(ThriceTraded(bars, counts));
      && (VwapDistance(zone, bars).Some? <==> volume > 0.0 && thrice > 0.0)
      && (VwapDistance(zone, bars).Some? ==>
            && j < |bars| && counts(bars[j]) && (forall i :: j < i < |bars| ==> !counts(bars[i]))
            && FromAverage(VwapDistance(zone, bars).value, bars[j].close, thrice, volume))
  {
    hide Regular, LocalDate, Distance, TotalVolume, Weighted, FromAverage;
    var date := LocalDate(zone, bars[|bars| - 1].at);
    var session := OfDate(zone, bars, date);
    SessionTotals(zone, bars, date);
    NoTotals();
    if session == [] {
      j := 0;
    } else {
      j := LastOfDate(zone, bars, date);
      ThriceDistance(session[|session| - 1].close, Weighted(session), TotalVolume(session), 3.0 * Weighted(session));
    }
  }

  lemma {:induction false} LastOfDate(zone: Zone, bars: seq<Bar>, date: int) returns (j: nat)
    requires OfDate(zone, bars, date) != []
    ensures j < |bars| && bars[j] == OfDate(zone, bars, date)[|OfDate(zone, bars, date)| - 1]
    ensures Regular(zone, bars[j].at) && LocalDate(zone, bars[j].at) == date
    ensures forall i :: j < i < |bars| ==> !(Regular(zone, bars[i].at) && LocalDate(zone, bars[i].at) == date)
  {
    hide Regular, LocalDate;
    var last := bars[|bars| - 1];
    if Regular(zone, last.at) && LocalDate(zone, last.at) == date {
      j := |bars| - 1;
    } else {
      j := LastOfDate(zone, bars[..|bars| - 1], date);
    }
  }

  /** The bars from `k` on share the last one's date, and the bar before does not. */
  predicate RunFrom(zone: Zone, bars: seq<Bar>, k: nat)
    requires bars != []
  {
    var date := LocalDate(zone, bars[|bars| - 1].at);
    && k < |bars| && (forall i :: k <= i < |bars| ==> LocalDate(zone, bars[i].at) == date)
    && (k > 0 ==> LocalDate(zone, bars[k - 1].at) != date)
  }

  lemma {:induction false} RunGrows(zone: Zone, front: seq<Bar>, last: Bar, k: nat)
    requires front != [] && RunFrom(zone, front, k) && LocalDate(zone, front[|front| - 1].at) == LocalDate(zone, last.at)
    ensures RunFrom(zone, front + [last], k) && front[k..] + [last] == (front + [last])[k..]
  {
    hide LocalDate;
  }

  lemma {:induction false} RunStarts(zone: Zone, front: seq<Bar>, last: Bar)
    requires front == [] || LocalDate(zone, front[|front| - 1].at) != LocalDate(zone, last.at)
    ensures RunFrom(zone, front + [last], |front|) && (front + [last])[|front|..] == [last]
  {
    hide LocalDate;
  }

  /** The trailing run: the bars from the first of the last one's date, without a bar of another date between. */
  lemma {:induction false} TrailingIs(zone: Zone, bars: seq<Bar>) returns (k: nat)
    requires bars != []
    ensures RunFrom(zone, bars, k) && k < |bars| && Trailing(zone, bars) == bars[k..]
  {
    hide LocalDate, RunFrom;
    var front, last := bars[..|bars| - 1], bars[|bars| - 1];
    assert bars == front + [last];
    if front != [] && LocalDate(zone, front[|front| - 1].at) == LocalDate(zone, last.at) {
      k := TrailingIs(zone, front);
      RunGrows(zone, front, last, k);
    } else {
      k := |front|;
      RunStarts(zone, front, last);
    }
  }

  /**
   * The one-pass form: over the non-negative volumes of the trailing run of the last bar's date, the
   * distance of its close from their average, and nothing where its own volume is negative.
   */
  lemma {:induction false} OnePassVwapIs(zone: Zone, bars: seq<Bar>) returns (k: nat)
    requires bars != []
    ensures RunFrom(zone, bars, k) && k < |bars|
    ensures
      var counts := (b: Bar) => b.volume >= 0.0;
      var volume, thrice := Total(Volumes(bars[k..], counts)), Total(ThriceTraded(bars[k..], counts));
      var last := bars[|bars| - 1];
      && (OnePassVwap(zone, bars).Some? <==> last.volume >= 0.0 && volume > 0.0 && thrice > 0.0)
      && (OnePassVwap(zone, bars).Some? ==> FromAverage(OnePassVwap(zone, bars).value, last.close, thrice, volume))
  {
    hide LocalDate, Distance, TotalVolume, Weighted, FromAverage, RunFrom, Trailing, NonNegative;
    k := TrailingIs(zone, bars);
    var counted := NonNegative(Trailing(zone, bars));
    CountedTotals(Trailing(zone, bars));
    ThriceDistance(bars[|bars| - 1].close, Weighted(counted), TotalVolume(counted), 3.0 * Weighted(counted));
  }

  // ----------------------------------------------------------------- volume

  /** The same minute of the local day. */
  predicate SameMinute(zone: Zone, a: Bar, b: Bar) {
    (Local(zone, a.at) % DAY) / (60 * 1_000_000) == (Local(zone, b.at) % DAY) / (60 * 1_000_000)
  }

  /** The newest positions at the latest bar's minute before it, as many as there are up to `n`, oldest first. */
  predicate NewestPicked(zone: Zone, bars: seq<Bar>, latest: Bar, n: nat, picked: seq<nat>) {
    && |picked| <= n
    && (forall i :: 0 <= i < |picked| ==> picked[i] < |bars| && SameMinute(zone, bars[picked[i]], latest))
    && (forall i, j :: 0 <= i < j < |picked| ==> picked[i] < picked[j])
    && (forall k :: 0 <= k < |bars| && k !in picked && SameMinute(zone, bars[k], latest) ==>
          |picked| == n && forall i :: 0 <= i < |picked| ==> k < picked[i])
  }

  lemma {:induction false} MinuteIsSlot(zone: Zone, a: Bar, b: Bar)
    ensures SameMinute(zone, a, b) <==> Slot(zone, a) == Slot(zone, b)
  {}

  /** The picked positions hold the newest of the slot's bars. */
  predicate PointsTo(bars: seq<Bar>, slot: seq<Bar>, n: nat, picked: seq<nat>) {
    && |picked| == (if |slot| < n then |slot| else n)
    && forall i :: 0 <= i < |picked| ==> picked[i] < |bars| && bars[picked[i]] == slot[|slot| - |picked| + i]
  }

  /** The newest bars of the slot, found by position. */
  lemma {:induction false} PickNewest(zone: Zone, bars: seq<Bar>, latest: Bar, n: nat) returns (picked: seq<nat>)
    ensures NewestPicked(zone, bars, latest, n, picked)
    ensures PointsTo(bars, SlotBars(zone, bars, Slot(zone, latest)), n, picked)
    decreases |bars|
  {
    hide SameMinute, Slot, NewestPicked, PointsTo;
    if bars == [] || n == 0 {
      picked := [];
      NoneWanted(zone, bars, latest, n);
    } else {
      var front, last := bars[..|bars| - 1], bars[|bars| - 1];
      assert bars == front + [last];
      MinuteIsSlot(zone, last, latest);
      var slot := SlotBars(zone, front, Slot(zone, latest));
      if SameMinute(zone, last, latest) {
        var older := PickNewest(zone, front, latest, n - 1);
        picked := older + [|front|];
        PickOneMore(zone, front, last, latest, n, older);
        PointToOneMore(front, last, slot, n, older);
      } else {
        picked := PickNewest(zone, front, latest, n);
        PickedStay(zone, front, last, latest, n, picked);
        StillPoint(front, last, slot, n, picked);
      }
    }
  }

  lemma {:induction false} PointToOneMore(front: seq<Bar>, last: Bar, slot: seq<Bar>, n: nat, older: seq<nat>)
    requires n > 0 && PointsTo(front, slot, n - 1, older)
    ensures PointsTo(front + [last], slot + [last], n, older + [|front|])
  {}

  lemma {:induction false} StillPoint(front: seq<Bar>, last: Bar, slot: seq<Bar>, n: nat, picked: seq<nat>)
    requires PointsTo(front, slot, n, picked)
    ensures PointsTo(front + [last], slot, n, picked)
  {}

  lemma {:induction false} NoneWanted(zone: Zone, bars: seq<Bar>, latest: Bar, n: nat)
    requires bars == [] || n == 0
    ensures NewestPicked(zone, bars, latest, n, [])
    ensures PointsTo(bars, SlotBars(zone, bars, Slot(zone, latest)), n, [])
  {
    hide SameMinute, Slot;
  }

  lemma {:induction false} PickOneMore(zone: Zone, front: seq<Bar>, last: Bar, latest: Bar, n: nat, older: seq<nat>)
    requires n > 0 && NewestPicked(zone, front, latest, n - 1, older) && SameMinute(zone, last, latest)
    ensures NewestPicked(zone, front + [last], latest, n, older + [|front|])
  {
    hide SameMinute;
    var bars, picked := front + [last], older + [|front|];
    forall k | 0 <= k < |bars| && k !in picked && SameMinute(zone, bars[k], latest)
      ensures |picked| == n && forall i :: 0 <= i < |picked| ==> k < picked[i]
    {
      assert picked[|older|] == |front|;
      assert k != |front| && k !in older;
      assert bars[k] == front[k];
    }
  }

  lemma {:induction false} PickedStay(zone: Zone, front: seq<Bar>, last: Bar, latest: Bar, n: nat, picked: seq<nat>)
    requires NewestPicked(zone, front, latest, n, picked) && !SameMinute(zone, last, latest)
    ensures NewestPicked(zone, front + [last], latest, n, picked)
  {
    hide SameMinute;
  }

  /** The values of the picked bars. */
  function ValuesAt(log1p: Transform, bars: seq<Bar>, picked: seq<nat>): seq<real>
    requires forall i :: 0 <= i < |picked| ==> picked[i] < |bars|
  {
    seq(|picked|, i requires 0 <= i < |picked| => log1p(bars[picked[i]].volume))
  }

  /** The kept values are the newest of the slot's bars, in order. */
  predicate ValuesOf(log1p: Transform, slot: seq<Bar>, n: nat, kept: seq<real>) {
    && |kept| == (if |slot| < n then |slot| else n)
    && forall i :: 0 <= i < |kept| ==> kept[i] == log1p(slot[|slot| - |kept| + i].volume)
  }

  lemma {:induction false} OneValueMore(log1p: Transform, slot: seq<Bar>, last: Bar, n: nat, kept: seq<real>)
    requires n > 0 && ValuesOf(log1p, slot, n - 1, kept)
    ensures ValuesOf(log1p, slot + [last], n, kept + [log1p(last.volume)])
  {}

  /** Where the newest bars of a slot all count, they are what its newest values come from. */
  lemma {:induction false} NewestValues(zone: Zone, log1p: Transform, bars: seq<Bar>, slot: int, n: nat)
    requires NewestCount(SlotBars(zone, bars, slot), n)
    ensures ValuesOf(log1p, SlotBars(zone, bars, slot), n, LastOf(SlotValues(zone, log1p, bars, slot), n))
    decreases |bars|
  {
    hide Slot, LastOf, NewestCount, ValuesOf;
    if bars == [] || n == 0 {
      LastOfNone(SlotValues(zone, log1p, bars, slot), n);
      NoValues(log1p, SlotBars(zone, bars, slot), n);
    } else {
      var front, last := bars[..|bars| - 1], bars[|bars| - 1];
      if Slot(zone, last) == slot {
        NewestNext(SlotBars(zone, front, slot), last, n);
        NewestValues(zone, log1p, front, slot, n - 1);
        LastOfNext(SlotValues(zone, log1p, front, slot), log1p(last.volume), n);
        OneValueMore(log1p, SlotBars(zone, front, slot), last, n, LastOf(SlotValues(zone, log1p, front, slot), n - 1));
      } else {
        NewestValues(zone, log1p, front, slot, n);
      }
    }
  }

  lemma {:induction false} NoValues(log1p: Transform, slot: seq<Bar>, n: nat)
    requires slot == [] || n == 0
    ensures ValuesOf(log1p, slot, n, [])
  {}

  lemma {:induction false} LastOfNone(values: seq<real>, n: nat)
    requires values == [] || n == 0
    ensures LastOf(values, n) == []
  {}

  /**
   * The volume score, with at most one bar per date and minute: against the newest `sessions` earlier
   * bars of the same minute of the day, exactly when there are so many, all of them and the latest with
   * a volume that is not negative.
   */
  lemma {:induction false} VolumeScoreIs(zone: Zone, log1p: Transform, score: Score, bars: seq<Bar>, sessions: nat)
    returns (picked: seq<nat>)
    requires OnePerSlot(zone, bars) && bars != []
    ensures NewestPicked(zone, bars[..|bars| - 1], bars[|bars| - 1], sessions, picked)
    ensures
      var latest, r := bars[|bars| - 1], VolumeScore(zone, log1p, score, bars, sessions);
      && (forall i :: 0 <= i < |picked| ==> picked[i] < |bars|)
      && (r.Some? <==> latest.volume >= 0.0 && |picked| == sessions &&
                       forall i :: 0 <= i < |picked| ==> bars[picked[i]].volume >= 0.0)
      && (r.Some? ==> r.value == score(multiset(ValuesAt(log1p, bars, picked)), latest.volume))
  {
    hide Slot, WalkBack, LocalDate, NewestPicked, OnePerSlot, PointsTo;
    var front, latest := bars[..|bars| - 1], bars[|bars| - 1];
    picked := PickNewest(zone, front, latest, sessions);
    assert OnePerSlot(zone, front) by { OnePerSlotFront(zone, bars); }
    FoundIsPicked(zone, log1p, bars, sessions, picked);
  }

  lemma {:induction false} OnePerSlotFront(zone: Zone, bars: seq<Bar>)
    requires OnePerSlot(zone, bars) && bars != []
    ensures OnePerSlot(zone, bars[..|bars| - 1])
    ensures Clear(zone, bars[..|bars| - 1], LocalDate(zone, bars[|bars| - 1].at), Slot(zone, bars[|bars| - 1]), {})
  {
    hide Slot, LocalDate;
  }

  /** What walking back finds is what was picked. */
  lemma {:induction false} FoundIsPicked(zone: Zone, log1p: Transform, bars: seq<Bar>, n: nat, picked: seq<nat>)
    requires OnePerSlot(zone, bars) && bars != []
    requires PointsTo(bars[..|bars| - 1], SlotBars(zone, bars[..|bars| - 1], Slot(zone, bars[|bars| - 1])), n, picked)
    ensures |picked| <= n && forall i :: 0 <= i < |picked| ==> picked[i] < |bars|
    ensures
      var latest := bars[|bars| - 1];
      var found := WalkBack(zone, log1p, bars[..|bars| - 1], LocalDate(zone, latest.at), Slot(zone, latest), {}, n);
      && (found.Some? <==> forall i :: 0 <= i < |picked| ==> bars[picked[i]].volume >= 0.0)
      && (found.Some? ==> |found.value| == |picked| && multiset(found.value) == multiset(ValuesAt(log1p, bars, picked)))
  {
    hide Slot, WalkBack, LastOf, SlotValues, SlotBars, LocalDate, NewestCount, ValuesOf, Reverse;
    var front, latest := bars[..|bars| - 1], bars[|bars| - 1];
    var slot := Slot(zone, latest);
    OnePerSlotFront(zone, bars);
    WalkBackIs(zone, log1p, front, LocalDate(zone, latest.at), slot, {}, n);
    var all, found := SlotBars(zone, front, slot), WalkBack(zone, log1p, front, LocalDate(zone, latest.at), slot, {}, n);
    PicksAgree(log1p, all, bars, picked, n);
    if found.Some? {
      var kept := LastOf(SlotValues(zone, log1p, front, slot), n);
      NewestValues(zone, log1p, front, slot, n);
      SameValues(log1p, all, bars, picked, n, kept);
      ReverseIsBag(found.value, kept);
      ReverseLength(found.value, kept);
    }
  }

  lemma {:induction false} PicksAgree(log1p: Transform, all: seq<Bar>, bars: seq<Bar>, picked: seq<nat>, n: nat)
    requires bars != [] && PointsTo(bars[..|bars| - 1], all, n, picked)
    ensures forall i :: 0 <= i < |picked| ==> picked[i] < |bars|
    ensures NewestCount(all, n) <==> forall i :: 0 <= i < |picked| ==> bars[picked[i]].volume >= 0.0
  {
    assert forall i :: 0 <= i < |picked| ==> bars[picked[i]] == all[|all| - |picked| + i];
    if forall i :: 0 <= i < |picked| ==> bars[picked[i]].volume >= 0.0 {
      forall i | 0 <= i < |all| && |all| - n <= i ensures all[i].volume >= 0.0 {
        var k := i - (|all| - |picked|);
        assert bars[picked[k]] == all[|all| - |picked| + k];
      }
    }
  }

  lemma {:induction false} SameValues(log1p: Transform, all: seq<Bar>, bars: seq<Bar>, picked: seq<nat>, n: nat, kept: seq<real>)
    requires bars != [] && PointsTo(bars[..|bars| - 1], all, n, picked) && ValuesOf(log1p, all, n, kept)
    ensures forall i :: 0 <= i < |picked| ==> picked[i] < |bars|
    ensures ValuesAt(log1p, bars, picked) == kept
  {
    assert forall i :: 0 <= i < |picked| ==> bars[picked[i]] == all[|all| - |picked| + i];
  }
}
