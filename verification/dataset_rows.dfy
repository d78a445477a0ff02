/** What the rows of a built dataset say, and what its evidence counts, in terms of the bars alone. */
module DatasetRows {
  import opened Wrappers
  import opened Collections
  import opened Session
  import opened Broker
  import opened BarSeries
  import opened Dataset
  import opened DatasetLaws
  import opened DatasetBuild

  // --------------------------------------------------------------- cleaning

  /** A bar worth keeping: scheduled, in session, positive, with high and low around its open and close. */
  predicate Sound(zone: Zone, grid: Option<Grid>, b: Bar) {
    && (grid.Some? ==> b.at in grid.value) && Regular(zone, b.at)
    && 0.0 < b.low && 0.0 <= b.volume && b.low <= b.open <= b.high && b.low <= b.close <= b.high
  }

  predicate FirstSound(zone: Zone, grid: Option<Grid>, values: seq<RawBar>, i: nat, at: int) {
    && i < |values| && values[i].bar.at == at && Sound(zone, grid, values[i].bar)
    && forall j :: 0 <= j < i && values[j].bar.at == at ==> !Sound(zone, grid, values[j].bar)
  }

  lemma {:induction false} SoundIs(zone: Zone, grid: Option<Grid>, b: Bar)
    ensures Sound(zone, grid, b) <==> Considered(zone, grid, b) && ValidBar(b)
  {
    hide Regular;
  }

  /** The bar kept at a time is the first sound one there. */
  lemma {:induction false} KeptIsFirst(zone: Zone, grid: Option<Grid>, values: seq<RawBar>, at: int, b: Bar)
    ensures Kept(zone, grid, values, at) == Some(b) <==>
              exists i :: 0 <= i < |values| && values[i].bar == b && FirstSound(zone, grid, values, i, at)
  {
    hide Sound, Considered, ValidBar;
    if values != [] {
      var front, last := values[..|values| - 1], values[|values| - 1].bar;
      KeptIsFirst(zone, grid, front, at, b);
      KeptIsFirst(zone, grid, front, at, last);
      SoundIs(zone, grid, last);
      KeptExists(zone, grid, front, at);
      assert forall i :: 0 <= i < |front| ==> (FirstSound(zone, grid, front, i, at) <==> FirstSound(zone, grid, values, i, at));
    }
  }

  /** A sound bar of a time makes something kept there. */
  lemma {:induction false} KeptExists(zone: Zone, grid: Option<Grid>, values: seq<RawBar>, at: int)
    ensures Kept(zone, grid, values, at).None? <==>
              forall j :: 0 <= j < |values| && values[j].bar.at == at ==> !Sound(zone, grid, values[j].bar)
  {
    hide Sound, Considered, ValidBar;
    if values != [] {
      KeptExists(zone, grid, values[..|values| - 1], at);
      SoundIs(zone, grid, values[|values| - 1].bar);
    }
  }

  /** What is reported of the bar at position `i`: unsound prices, or another sound bar kept before it. */
  lemma {:induction false} ErrorIs(zone: Zone, grid: Option<Grid>, values: seq<RawBar>, i: nat)
    requires i < |values|
    ensures
      var b, e := values[i].bar, ErrorOf(zone, grid, values[..i], values[i].bar);
      && (e.Some? ==> e.value.0 == b.at && (e.value.1 == "invalid_ohlcv" || e.value.1 == "conflicting_duplicate"))
      && (e == Some((b.at, "invalid_ohlcv")) <==> Considered(zone, grid, b) && !Sound(zone, grid, b))
      && (e == Some((b.at, "conflicting_duplicate")) <==>
            Sound(zone, grid, b) &&
            exists j :: 0 <= j < i && values[j].bar != b && FirstSound(zone, grid, values, j, b.at))
  {
    hide Sound, Considered, ValidBar, Kept, FirstSound;
    var b, before := values[i].bar, values[..i];
    SoundIs(zone, grid, b);
    var kept := Kept(zone, grid, before, b.at);
    SoundBefore(zone, grid, values, i, b.at);
    if kept.Some? { KeptIsFirst(zone, grid, before, b.at, kept.value); }
    forall j | 0 <= j < i && FirstSound(zone, grid, before, j, b.at) ensures kept == Some(before[j].bar) {
      KeptIsFirst(zone, grid, before, b.at, before[j].bar);
    }
  }

  lemma {:induction false} SoundBefore(zone: Zone, grid: Option<Grid>, values: seq<RawBar>, i: nat, at: int)
    requires i <= |values|
    ensures forall j :: 0 <= j < i ==> (FirstSound(zone, grid, values, j, at) <==> FirstSound(zone, grid, values[..i], j, at))
  {
    hide Sound;
  }

  /** The positions whose bars are reported, in order. */
  lemma {:induction false} ErrorsInOrder(zone: Zone, grid: Option<Grid>, values: seq<RawBar>) returns (at: seq<nat>)
    ensures |at| == |Errors(zone, grid, values)|
    ensures forall k :: 0 <= k < |at| ==>
              at[k] < |values| && ErrorOf(zone, grid, values[..at[k]], values[at[k]].bar) == Some(Errors(zone, grid, values)[k])
    ensures forall j, k :: 0 <= j < k < |at| ==> at[j] < at[k]
    ensures forall i :: 0 <= i < |values| && ErrorOf(zone, grid, values[..i], values[i].bar).Some? ==> i in at
  {
    hide ErrorOf;
    if values == [] {
      at := [];
    } else {
      var front, last := values[..|values| - 1], |values| - 1;
      var before := ErrorsInOrder(zone, grid, front);
      assert forall i :: 0 <= i <= last ==> front[..i] == values[..i];
      at := before + if ErrorOf(zone, grid, front, values[last].bar).Some? then [last] else [];
    }
  }

  // --------------------------------------------------------------- verdicts

  predicate WellShaped(w: Split, p: Prepared) {
    |p.matrix| == |p.bars| && w.horizon >= 1
  }

  function ExitTime(w: Split, p: Prepared, i: nat): int
    requires i < |p.bars|
  {
    p.bars[i].at + w.horizon * w.step
  }

  /** The exit lies in a regular session of the bar's own local date, and the schedule, if any, agrees. */
  predicate SameDay(w: Split, p: Prepared, i: nat)
    requires i < |p.bars|
  {
    var exit, day := ExitTime(w, p, i), LocalDate(w.zone, p.bars[i].at);
    && LocalDate(w.zone, exit) == day && Regular(w.zone, exit)
    && (w.grid.Some? ==> exit in w.grid.value && w.grid.value[exit] == day)
  }

  /** The next `horizon` bars follow one another at exactly one step. */
  predicate Unbroken(w: Split, p: Prepared, i: nat)
    requires i < |p.bars|
  {
    i + w.horizon < |p.bars| && forall k: nat :: 1 <= k <= w.horizon ==> p.bars[i + k].at == p.bars[i].at + k * w.step
  }

  /** The return from the next bar's open to the close `horizon` bars on. */
  function ReturnOf(w: Split, forward: Returns, p: Prepared, i: nat): Option<real>
    requires w.horizon >= 1 && i + w.horizon < |p.bars|
  {
    forward(p.bars[i + 1].open, p.bars[i + w.horizon].close)
  }

  /** A bar from which a label can be read without leaving the split, the day or the schedule. */
  predicate Usable(w: Split, forward: Returns, p: Prepared, i: nat)
    requires WellShaped(w, p) && i < |p.bars|
  {
    && ExitTime(w, p, i) < w.end && SameDay(w, p, i) && Unbroken(w, p, i)
    && p.matrix[i].Some? && ReturnOf(w, forward, p, i).Some?
  }

  /** The first thing that is wrong with a bar that is not usable. */
  predicate RejectedAs(w: Split, forward: Returns, p: Prepared, i: nat, code: string)
    requires WellShaped(w, p) && i < |p.bars|
  {
    if ExitTime(w, p, i) >= w.end then code == "split_end"
    else if !SameDay(w, p, i) then code == "session_end"
    else if i + w.horizon >= |p.bars| then code == "missing_horizon"
    else if !Unbroken(w, p, i) then code == "gapped_horizon"
    else if p.matrix[i].None? then code == "incomplete_features"
    else ReturnOf(w, forward, p, i).None? && code == "invalid_target"
  }

  lemma {:induction false} UnbrokenIs(w: Split, p: Prepared, i: nat)
    requires i + w.horizon < |p.bars|
    ensures OnStep(p.bars, w.step, i, i + w.horizon) <==> Unbroken(w, p, i)
  {
    if OnStep(p.bars, w.step, i, i + w.horizon) {
      forall k: nat | 1 <= k <= w.horizon ensures p.bars[i + k].at == p.bars[i].at + k * w.step {
        assert i < i + k <= i + w.horizon;
        assert i + k - i == k;
      }
    }
    if Unbroken(w, p, i) {
      forall k | i < k <= i + w.horizon ensures p.bars[k].at == p.bars[i].at + (k - i) * w.step {
        assert p.bars[i + (k - i)].at == p.bars[i].at + (k - i) * w.step;
      }
    }
  }

  /** The chain of rejections decides usability, and names the first thing that is wrong. */
  lemma {:induction false} VerdictIs(w: Split, forward: Returns, p: Prepared, i: nat)
    requires WellShaped(w, p) && i < |p.bars|
    ensures Reason(w, forward, p, i).None? <==> Usable(w, forward, p, i)
    ensures forall code :: RejectedAs(w, forward, p, i, code) <==> Reason(w, forward, p, i) == Some(code)
  {
    hide OnStep, Unbroken, Regular, LocalDate;
    if i + w.horizon < |p.bars| { UnbrokenIs(w, p, i); }
    LeavesIs(w, p, i);
    UnbrokenReaches(w, p, i);
    hide LeavesSession, SameDay;
  }

  lemma {:induction false} LeavesIs(w: Split, p: Prepared, i: nat)
    requires i < |p.bars|
    ensures LeavesSession(w, p.bars[i]) <==> !SameDay(w, p, i)
    ensures TargetTime(w, p.bars[i]) == ExitTime(w, p, i)
  {
    hide Regular, LocalDate;
  }

  lemma {:induction false} UnbrokenReaches(w: Split, p: Prepared, i: nat)
    requires i < |p.bars|
    ensures Unbroken(w, p, i) ==> i + w.horizon < |p.bars|
  {}

  // ------------------------------------------------------------------- rows

  /** Regression labels a bar with the return; classification with 2 above the band, 0 below it, 1 within. */
  predicate Labels(target: Target, value: real, l: Label) {
    match target
    case Regression => l == Return(value)
    case Classification(band) =>
      && l.Class? && l.code <= 2
      && (l.code == 0 <==> value < -band)
      && (l.code == 2 <==> value > band && value >= -band)
  }

  /** Row `r` is what bar `i` of the symbol teaches. */
  predicate TaughtBy(w: Split, target: Target, forward: Returns, symbol: string, p: Prepared, i: nat, r: Row)
    requires WellShaped(w, p)
  {
    && i < |p.bars| && w.start <= p.bars[i].at < w.end && Usable(w, forward, p, i)
    && r.symbol == symbol && r.at == p.bars[i].at && p.matrix[i] == Some(r.features)
    && Labels(target, ReturnOf(w, forward, p, i).value, r.target)
  }

  lemma {:induction false} LabelIs(target: Target, value: real, l: Label)
    ensures Labels(target, value, l) <==> l == LabelOf(target, value)
  {}

  lemma {:induction false} RowTeaches(w: Split, target: Target, forward: Returns, symbol: string, p: Prepared, i: nat, r: Row)
    requires WellShaped(w, p) && i < |p.bars|
    ensures TaughtBy(w, target, forward, symbol, p, i, r) <==>
              InWindow(w, p.bars[i]) && Reason(w, forward, p, i).None? && r == RowOf(w, target, forward, symbol, p, i)
  {
    VerdictIs(w, forward, p, i);
    if Usable(w, forward, p, i) { LabelIs(target, ReturnOf(w, forward, p, i).value, r.target); }
    hide Reason, Usable, Labels, LabelOf;
    if Reason(w, forward, p, i).None? { PathExists(w, forward, p, i); }
  }

  /** The rows of one symbol are exactly what its first `n` bars teach. */
  lemma {:induction false} RowsTeach(w: Split, target: Target, forward: Returns, symbol: string, p: Prepared, n: nat, r: Row)
    requires WellShaped(w, p) && n <= |p.bars|
    ensures r in Rows(w, target, forward, symbol, p, n) <==>
              exists i :: 0 <= i < n && TaughtBy(w, target, forward, symbol, p, i, r)
  {
    hide TaughtBy, Reason, RowOf, InWindow, Rows;
    if n == 0 {
      NothingCounted(w, target, forward, symbol, p);
    } else {
      RowsTeach(w, target, forward, symbol, p, n - 1, r);
      NextRow(w, target, forward, symbol, p, n - 1);
      RowTeaches(w, target, forward, symbol, p, n - 1, r);
    }
  }

  lemma {:induction false} AllRowsTeach(
    w: Split, target: Target, forward: Returns, prepared: map<string, Prepared>, symbols: seq<string>, r: Row)
    requires AllPrepared(prepared, symbols) && w.horizon >= 1
    ensures r in AllRows(w, target, forward, prepared, symbols) <==>
              exists s :: s in symbols && r in Rows(w, target, forward, s, prepared[s], |prepared[s].bars|)
  {
    hide Rows;
    if symbols != [] {
      var front, s := symbols[..|symbols| - 1], symbols[|symbols| - 1];
      assert symbols == front + [s];
      AllRowsTeach(w, target, forward, prepared, front, r);
    }
  }

  lemma {:induction false} SortKeepsRows(rows: seq<Row>, r: Row)
    ensures r in SortRows(rows) <==> r in rows
  {
    hide InsertRow, Ordered;
    if rows != [] {
      var front, last := rows[..|rows| - 1], rows[|rows| - 1];
      assert rows == front + [last];
      SortKeepsRows(front, r);
      SortRowsOrders(front);
      InsertRowOrders(SortRows(front), last);
    }
  }

  /** Two names part at place `k`, where the first has ended or is smaller. */
  predicate PartsAt(a: string, b: string, k: nat) {
    k < |b| && k <= |a| && (forall i :: 0 <= i < k ==> a[i] == b[i]) && (k == |a| || a[k] < b[k])
  }

  ghost predicate Precedes(a: string, b: string) {
    exists k: nat :: PartsAt(a, b, k)
  }

  lemma {:induction false} LessIs(a: string, b: string)
    ensures Less(a, b) <==> Precedes(a, b)
    decreases |a|
  {
    if a == "" || b == "" || a[0] != b[0] {
      assert PartsAt(a, b, 0) <==> Less(a, b);
      assert forall k: nat :: PartsAt(a, b, k) ==> k == 0;
    } else {
      LessIs(a[1..], b[1..]);
      PrecedesTail(a, b);
    }
  }

  lemma {:induction false} PrecedesTail(a: string, b: string)
    requires a != "" && b != "" && a[0] == b[0]
    ensures Precedes(a, b) <==> Precedes(a[1..], b[1..])
  {
    hide PartsAt;
    if Precedes(a, b) {
      var k: nat :| PartsAt(a, b, k);
      assert k != 0 by { NotAtOnce(a, b); }
      PartsTail(a, b, k - 1);
    }
    if Precedes(a[1..], b[1..]) {
      var k: nat :| PartsAt(a[1..], b[1..], k);
      PartsTail(a, b, k);
    }
  }

  lemma {:induction false} PartsTail(a: string, b: string, k: nat)
    requires a != "" && b != "" && a[0] == b[0]
    ensures PartsAt(a, b, k + 1) <==> PartsAt(a[1..], b[1..], k)
  {
    if PartsAt(a[1..], b[1..], k) {
      forall i | 0 <= i < k + 1 ensures a[i] == b[i] {
        if i > 0 { assert a[1..][i - 1] == b[1..][i - 1]; }
      }
    }
  }

  lemma {:induction false} NotAtOnce(a: string, b: string)
    requires a != "" && b != "" && a[0] == b[0]
    ensures !PartsAt(a, b, 0)
  {}

  /** Rows by time, and those of one time by name. */
  ghost predicate InTimeAndName(rows: seq<Row>) {
    forall i, j :: 0 <= i < j < |rows| ==>
      rows[i].at < rows[j].at || (rows[i].at == rows[j].at && !Precedes(rows[j].symbol, rows[i].symbol))
  }

  lemma {:induction false} OrderedIs(rows: seq<Row>)
    requires Ordered(rows)
    ensures InTimeAndName(rows)
  {
    hide Less, Precedes;
    forall i, j | 0 <= i < j < |rows|
      ensures rows[i].at < rows[j].at || (rows[i].at == rows[j].at && !Precedes(rows[j].symbol, rows[i].symbol))
    {
      LessIs(rows[j].symbol, rows[i].symbol);
    }
  }

  /**
   * The rows of a built dataset, over any symbols: time by time and then by symbol, they are exactly
   * what the requested symbols' in-window usable bars teach, each with its own features and the label
   * that the return from the next open to the close `horizon` bars later gives.
   */
  lemma {:induction false} BuiltRowsTeach(
    w: Split, target: Target, forward: Returns, prepared: map<string, Prepared>, symbols: seq<string>, r: Row)
    requires AllPrepared(prepared, symbols) && w.horizon >= 1
    ensures InTimeAndName(Build(w, target, forward, prepared, symbols).rows)
    ensures r in Build(w, target, forward, prepared, symbols).rows <==>
              exists s, i :: s in symbols && 0 <= i < |prepared[s].bars| && TaughtBy(w, target, forward, s, prepared[s], i, r)
  {
    hide Rows, AllRows, SortRows, TaughtBy, Sum, EvidenceOf, Ordered, InTimeAndName;
    SortRowsOrders(AllRows(w, target, forward, prepared, symbols));
    OrderedIs(SortRows(AllRows(w, target, forward, prepared, symbols)));
    SortKeepsRows(AllRows(w, target, forward, prepared, symbols), r);
    AllRowsTeach(w, target, forward, prepared, symbols, r);
    forall s | s in symbols
      ensures r in Rows(w, target, forward, s, prepared[s], |prepared[s].bars|) <==>
                exists i :: 0 <= i < |prepared[s].bars| && TaughtBy(w, target, forward, s, prepared[s], i, r)
    {
      RowsTeach(w, target, forward, s, prepared[s], |prepared[s].bars|, r);
    }
  }

  // --------------------------------------------------------------- evidence

  /** The in-window bars among the first `n`, as positions. */
  function InWindowAt(w: Split, p: Prepared, n: nat): set<nat>
    requires n <= |p.bars|
  {
    set i: nat | i < n && w.start <= p.bars[i].at < w.end
  }

  function ReadyAt(w: Split, p: Prepared, n: nat): set<nat>
    requires n <= |p.bars| == |p.matrix|
  {
    set i: nat | i < n && w.start <= p.bars[i].at < w.end && p.matrix[i].Some?
  }

  function UsableAt(w: Split, forward: Returns, p: Prepared, n: nat): set<nat>
    requires WellShaped(w, p) && n <= |p.bars|
  {
    set i: nat | i < n && w.start <= p.bars[i].at < w.end && Usable(w, forward, p, i)
  }

  function RejectedAt(w: Split, forward: Returns, p: Prepared, n: nat, code: string): set<nat>
    requires WellShaped(w, p) && n <= |p.bars|
  {
    set i: nat | i < n && w.start <= p.bars[i].at < w.end && RejectedAs(w, forward, p, i, code)
  }

  lemma {:induction false} InWindowCounts(w: Split, p: Prepared, n: nat)
    requires n <= |p.bars|
    ensures InWindowCount(w, p.bars[..n]) == |InWindowAt(w, p, n)|
  {
    hide InWindowAt;
    if n > 0 {
      InWindowCounts(w, p, n - 1);
      assert p.bars[..n][..n - 1] == p.bars[..n - 1];
      InWindowMore(w, p, n - 1);
    } else {
      assert InWindowAt(w, p, 0) == {} by { NoPositions(w, p); }
    }
  }

  lemma {:induction false} NoPositions(w: Split, p: Prepared)
    ensures InWindowAt(w, p, 0) == {} && (|p.bars| == |p.matrix| ==> ReadyAt(w, p, 0) == {})
  {}

  lemma {:induction false} InWindowMore(w: Split, p: Prepared, last: nat)
    requires last < |p.bars|
    ensures |InWindowAt(w, p, last + 1)| == |InWindowAt(w, p, last)| + if InWindow(w, p.bars[last]) then 1 else 0
  {
    assert InWindowAt(w, p, last + 1) == InWindowAt(w, p, last) + if InWindow(w, p.bars[last]) then {last} else {};
  }

  lemma {:induction false} ReadyMore(w: Split, p: Prepared, last: nat)
    requires last < |p.bars| == |p.matrix|
    ensures |ReadyAt(w, p, last + 1)| ==
              |ReadyAt(w, p, last)| + if InWindow(w, p.bars[last]) && p.matrix[last].Some? then 1 else 0
  {
    assert ReadyAt(w, p, last + 1) ==
           ReadyAt(w, p, last) + if InWindow(w, p.bars[last]) && p.matrix[last].Some? then {last} else {};
  }

  lemma {:induction false} ReadyCounts(w: Split, p: Prepared, n: nat)
    requires n <= |p.bars| == |p.matrix|
    ensures ReadyCount(w, p, n) == |ReadyAt(w, p, n)|
  {
    hide ReadyAt;
    if n > 0 {
      ReadyCounts(w, p, n - 1);
      ReadyMore(w, p, n - 1);
    } else {
      NoPositions(w, p);
    }
  }

  lemma {:induction false} VerdictsCount(
    w: Split, target: Target, forward: Returns, symbol: string, p: Prepared, n: nat, code: string)
    requires WellShaped(w, p) && n <= |p.bars|
    ensures |Rows(w, target, forward, symbol, p, n)| == |UsableAt(w, forward, p, n)|
    ensures multiset(Reasons(w, forward, p, n))[code] == |RejectedAt(w, forward, p, n, code)|
  {
    hide Rows, Reasons, Reason, Usable, RejectedAs, RowOf;
    if n == 0 {
      NothingCounted(w, target, forward, symbol, p);
      assert UsableAt(w, forward, p, 0) == {} && RejectedAt(w, forward, p, 0, code) == {};
    } else {
      var last := n - 1;
      VerdictsCount(w, target, forward, symbol, p, last, code);
      NextRow(w, target, forward, symbol, p, last);
      NextReason(w, forward, p, last);
      VerdictIs(w, forward, p, last);
      UsableMore(w, forward, p, last);
      RejectedMore(w, forward, p, last, code);
    }
  }

  lemma {:induction false} UsableMore(w: Split, forward: Returns, p: Prepared, last: nat)
    requires WellShaped(w, p) && last < |p.bars|
    ensures |UsableAt(w, forward, p, last + 1)| ==
              |UsableAt(w, forward, p, last)| + if InWindow(w, p.bars[last]) && Usable(w, forward, p, last) then 1 else 0
  {
    hide Usable;
    assert UsableAt(w, forward, p, last + 1) ==
           UsableAt(w, forward, p, last) + if InWindow(w, p.bars[last]) && Usable(w, forward, p, last) then {last} else {};
  }

  lemma {:induction false} RejectedMore(w: Split, forward: Returns, p: Prepared, last: nat, code: string)
    requires WellShaped(w, p) && last < |p.bars|
    ensures |RejectedAt(w, forward, p, last + 1, code)| ==
              |RejectedAt(w, forward, p, last, code)| +
              if InWindow(w, p.bars[last]) && RejectedAs(w, forward, p, last, code) then 1 else 0
  {
    hide RejectedAs;
    assert RejectedAt(w, forward, p, last + 1, code) ==
           RejectedAt(w, forward, p, last, code) +
           if InWindow(w, p.bars[last]) && RejectedAs(w, forward, p, last, code) then {last} else {};
  }

  /** A scheduled in-window time whose exit is scheduled in the split on the same day. */
  predicate ExitScheduled(w: Split, schedule: map<int, int>, t: int) {
    && t in schedule && w.start <= t && t + w.horizon * w.step < w.end && t < w.end
    && t + w.horizon * w.step in schedule && schedule[t + w.horizon * w.step] == schedule[t]
  }

  function ScheduledExits(w: Split, schedule: map<int, int>): set<int> {
    set t | t in schedule && ExitScheduled(w, schedule, t)
  }

  /** Each bar's own local date, where no schedule is given. */
  function OwnDays(w: Split, p: Prepared): map<int, int> {
    map b | b in p.bars :: b.at := LocalDate(w.zone, b.at)
  }

  /**
   * What the evidence counts: in-window bars, those with features, the usable ones, the ones that
   * each code rejects, and, against the schedule or the bars' own days, the rows to expect.
   */
  lemma {:induction false} EvidenceCounts(w: Split, target: Target, forward: Returns, symbol: string, p: Prepared, code: string)
    requires WellShaped(w, p)
    ensures
      var e, n := EvidenceOf(w, target, forward, symbol, p), |p.bars|;
      && e.attempted == |InWindowAt(w, p, n)| && e.ready == |ReadyAt(w, p, n)|
      && e.usable == |UsableAt(w, forward, p, n)| && e.rejections[code] == |RejectedAt(w, forward, p, n, code)|
    ensures EvidenceOf(w, target, forward, symbol, p).expected ==
              |ScheduledExits(w, if w.grid.Some? then w.grid.value else OwnDays(w, p))|
  {
    hide Rows, Reasons, LocalDate, UsableAt, RejectedAt, InWindowAt, ReadyAt;
    hide ExpectedTimes, ScheduledExits, InWindowCount, ReadyCount, OwnDays;
    assert p.bars[..|p.bars|] == p.bars;
    InWindowCounts(w, p, |p.bars|);
    ReadyCounts(w, p, |p.bars|);
    VerdictsCount(w, target, forward, symbol, p, |p.bars|, code);
    ExpectedIs(w, p);
  }

  /** What a built dataset attempted is the in-window bars of its symbols, and its evidence is theirs. */
  lemma {:induction false} BuiltTotals(
    w: Split, target: Target, forward: Returns, prepared: map<string, Prepared>, symbols: seq<string>)
    requires AllPrepared(prepared, symbols) && w.horizon >= 1
    ensures
      var d := Build(w, target, forward, prepared, symbols);
      && d.evidence.Keys == (set s | s in symbols)
      && (forall s :: s in symbols ==> d.evidence[s] == EvidenceOf(w, target, forward, s, prepared[s]))
      && d.attempted == Sum(map s | s in symbols :: |InWindowAt(w, prepared[s], |prepared[s].bars|)| as real)
  {
    hide Sum, Rows, Reasons, ExpectedTimes, InWindowAt, InWindowCount, ReadyCount, AllRows, SortRows;
    var evidence := AllEvidence(w, target, forward, prepared, symbols);
    forall s | s in symbols ensures evidence[s].attempted == |InWindowAt(w, prepared[s], |prepared[s].bars|)| {
      assert prepared[s].bars[..|prepared[s].bars|] == prepared[s].bars;
      InWindowCounts(w, prepared[s], |prepared[s].bars|);
    }
    assert Attempts(evidence) == map s | s in symbols :: |InWindowAt(w, prepared[s], |prepared[s].bars|)| as real;
  }

  lemma {:induction false} ExpectedIs(w: Split, p: Prepared)
    ensures ExpectedTimes(w, p) == ScheduledExits(w, if w.grid.Some? then w.grid.value else OwnDays(w, p))
  {
    hide LocalDate;
    if w.grid.None? {
      assert EffectiveGrid(w, p) == OwnDays(w, p) by {
        assert EffectiveGrid(w, p).Keys == OwnDays(w, p).Keys;
      }
    }
  }
}
