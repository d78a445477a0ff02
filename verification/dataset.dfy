/** Leakage-safe training rows: which bars may become rows, why the others may not, and what labels read. */
module Dataset {
  import opened Wrappers
  import opened Session
  import opened Broker
  import opened BarSeries

  // ------------------------------------------------------------- cleaning

  datatype RawBar = RawBar(symbol: string, bar: Bar)

  type Grid = map<int, int>

  function MaxPrice(b: Bar): real {
    var m := if b.open >= b.high then b.open else b.high;
    var n := if m >= b.low then m else b.low;
    if n >= b.close then n else b.close
  }

  function MinPrice(b: Bar): real {
    var m := if b.open <= b.high then b.open else b.high;
    var n := if m <= b.low then m else b.low;
    if n <= b.close then n else b.close
  }

  /** Positive prices, a volume, and high and low that bound the others. */
  predicate ValidBar(b: Bar) {
    b.open > 0.0 && b.high > 0.0 && b.low > 0.0 && b.close > 0.0 && b.volume >= 0.0 &&
    !(b.high < MaxPrice(b)) && !(b.low > MinPrice(b))
  }

  /** Only scheduled regular-session bars are looked at. */
  predicate Considered(zone: Zone, grid: Option<Grid>, b: Bar) {
    (grid.Some? ==> b.at in grid.value) && Regular(zone, b.at)
  }

  /** The bar kept at a time: the first valid one. */
  function Kept(zone: Zone, grid: Option<Grid>, values: seq<RawBar>, at: int): Option<Bar> {
    if values == [] then None else
      var front, last := Kept(zone, grid, values[..|values| - 1], at), values[|values| - 1].bar;
      if front.None? && last.at == at && Considered(zone, grid, last) && ValidBar(last) then Some(last) else front
  }

  /** Why a considered bar is reported: invalid, or in conflict with the bar kept before it. */
  function ErrorOf(zone: Zone, grid: Option<Grid>, before: seq<RawBar>, b: Bar): Option<(int, string)> {
    if !Considered(zone, grid, b) then None
    else if !ValidBar(b) then Some((b.at, "invalid_ohlcv"))
    else
      var kept := Kept(zone, grid, before, b.at);
      if kept.Some? && kept.value != b then Some((b.at, "conflicting_duplicate")) else None
  }

  function Errors(zone: Zone, grid: Option<Grid>, values: seq<RawBar>): seq<(int, string)> {
    if values == [] then [] else
      var front := values[..|values| - 1];
      var error := ErrorOf(zone, grid, front, values[|values| - 1].bar);
      Errors(zone, grid, front) + if error.Some? then [error.value] else []
  }

  /**
   * `_clean`: one bar per time, in order, exactly the first valid considered bar of each time; every
   * invalid or conflicting bar is reported, in order. A foreign symbol is an error of the whole call.
   */
  method Clean(symbol: string, zone: Zone, values: seq<RawBar>, grid: Option<Grid>)
    returns (r: Result<(seq<Bar>, seq<(int, string)>)>)
    ensures r.Success? <==> forall v :: v in values ==> v.symbol == symbol
    ensures r.Success? ==>
              && StrictlyIncreasing(r.value.0) && r.value.1 == Errors(zone, grid, values)
              && forall b :: b in r.value.0 <==> Kept(zone, grid, values, b.at) == Some(b)
  {
    hide Considered, ValidBar;
    var rows: map<int, Bar> := map[];
    var errors := [];
    for i := 0 to |values|
      invariant forall k :: 0 <= k < i ==> values[k].symbol == symbol
      invariant forall t :: Kept(zone, grid, values[..i], t) == if t in rows then Some(rows[t]) else None
      invariant errors == Errors(zone, grid, values[..i])
    {
      var bar := values[i].bar;
      if values[i].symbol != symbol {
        assert values[i] in values;
        return Failure("bars require matching symbols");
      }
      assert values[..i + 1][..i] == values[..i];
      if !Considered(zone, grid, bar) { continue; }
      if !ValidBar(bar) {
        errors := errors + [(bar.at, "invalid_ohlcv")];
        continue;
      }
      if bar.at in rows && rows[bar.at] != bar {
        errors := errors + [(bar.at, "conflicting_duplicate")];
      } else {
        rows := rows[bar.at := bar];
      }
    }
    assert values[..|values|] == values;
    forall t | t in rows ensures rows[t].at == t {
      KeptAt(zone, grid, values, t);
    }
    var bars := SortBars(rows);
    forall b ensures b in bars <==> Kept(zone, grid, values, b.at) == Some(b) {}
    r := Success((bars, errors));
  }

  lemma {:induction false} KeptAt(zone: Zone, grid: Option<Grid>, values: seq<RawBar>, t: int)
    ensures Kept(zone, grid, values, t).Some? ==>
              var b := Kept(zone, grid, values, t).value; b.at == t && Considered(zone, grid, b) && ValidBar(b)
  {
    if values != [] { KeptAt(zone, grid, values[..|values| - 1], t); }
  }

  method SortBars(rows: map<int, Bar>) returns (bars: seq<Bar>)
    requires forall t :: t in rows ==> rows[t].at == t
    ensures StrictlyIncreasing(bars) && forall b :: b in bars <==> b.at in rows && rows[b.at] == b
  {
    hide StrictlyIncreasing, SortedBars, InsertBar;
    bars := [];
    assert StrictlyIncreasing([]) by { NoneIncrease(); }
    var left := rows.Keys;
    while left != {}
      invariant left <= rows.Keys && StrictlyIncreasing(bars)
      invariant forall b :: b in bars <==> b.at in rows && b.at !in left && rows[b.at] == b
      decreases |left|
    {
      SomeTime(left);
      var t :| t in left;
      left := left - {t};
      IncreasingIsSorted(bars);
      InsertIncreasing(bars, rows[t]);
      InsertMembers(bars, rows[t]);
      bars := InsertBar(bars, rows[t]);
    }
  }

  lemma {:induction false} NoneIncrease()
    ensures StrictlyIncreasing([])
  {}

  lemma {:induction false} SomeTime(times: set<int>)
    requires times != {}
    ensures exists t :: t in times
  {
    assert (forall t :: t !in times) ==> times == {};
  }

  // ----------------------------------------------------------------- rows

  /** A split and how its labels look ahead. A grid maps each scheduled interval start to its session date. */
  datatype Split = Split(start: int, end: int, step: int, horizon: nat, zone: Zone, grid: Option<Grid>)

  ghost predicate ValidSplit(w: Split) {
    w.step > 0 && w.horizon >= 1 &&
    (w.grid.Some? ==> forall t :: t in w.grid.value ==> w.grid.value[t] == LocalDate(w.zone, t))
  }

  /** Clean bars and one feature vector for each; `None` is a vector that is not finite. */
  datatype Prepared = Prepared(bars: seq<Bar>, matrix: seq<Option<seq<real>>>)

  ghost predicate ValidPrepared(w: Split, p: Prepared) {
    && StrictlyIncreasing(p.bars) && |p.matrix| == |p.bars|
    && forall b :: b in p.bars ==> Considered(w.zone, w.grid, b)
  }

  datatype Label = Return(value: real) | Class(code: nat)

  const CLASS_SHORT := 0
  const CLASS_FLAT := 1
  const CLASS_LONG := 2

  datatype Target = Regression | Classification(band: real)

  /** The forward return from an entry open to an exit close; `None` is a return that is not finite. */
  type Returns = (real, real) -> Option<real>

  function LabelOf(target: Target, value: real): Label {
    match target
    case Regression => Return(value)
    case Classification(band) =>
      if value < -band then Class(CLASS_SHORT) else if value > band then Class(CLASS_LONG) else Class(CLASS_FLAT)
  }

  datatype Row = Row(symbol: string, at: int, features: seq<real>, target: Label)

  predicate InWindow(w: Split, b: Bar) {
    w.start <= b.at < w.end
  }

  /** Where the label's exit bar must be. */
  function TargetTime(w: Split, b: Bar): int {
    b.at + w.horizon * w.step
  }

  predicate LeavesSession(w: Split, b: Bar) {
    var t, day := TargetTime(w, b), LocalDate(w.zone, b.at);
    LocalDate(w.zone, t) != day || !Regular(w.zone, t) ||
    (w.grid.Some? && !(t in w.grid.value && w.grid.value[t] == day))
  }

  /** Every bar of the label's path is exactly where the clock says. */
  predicate OnStep(bars: seq<Bar>, step: int, i: nat, future: nat)
    requires i <= future < |bars|
  {
    forall k :: i < k <= future ==> bars[k].at == bars[i].at + (k - i) * step
  }

  /** Why an in-window bar is not a row, if it is not. */
  function Reason(w: Split, forward: Returns, p: Prepared, i: nat): Option<string>
    requires i < |p.bars| && |p.matrix| == |p.bars| && w.horizon >= 1
  {
    if TargetTime(w, p.bars[i]) >= w.end then Some("split_end")
    else if LeavesSession(w, p.bars[i]) then Some("session_end")
    else if i + w.horizon >= |p.bars| then Some("missing_horizon")
    else if !OnStep(p.bars, w.step, i, i + w.horizon) then Some("gapped_horizon")
    else if p.matrix[i].None? then Some("incomplete_features")
    else if forward(p.bars[i + 1].open, p.bars[i + w.horizon].close).None? then Some("invalid_target")
    else None
  }

  function RowOf(w: Split, target: Target, forward: Returns, symbol: string, p: Prepared, i: nat): Row
    requires i < |p.bars| && |p.matrix| == |p.bars| && w.horizon >= 1
    requires Reason(w, forward, p, i).None?
  {
    Row(symbol, p.bars[i].at, p.matrix[i].value,
        LabelOf(target, forward(p.bars[i + 1].open, p.bars[i + w.horizon].close).value))
  }

  /** The rows of the first `n` bars, in order. */
  function Rows(w: Split, target: Target, forward: Returns, symbol: string, p: Prepared, n: nat): seq<Row>
    requires n <= |p.bars| && |p.matrix| == |p.bars| && w.horizon >= 1
  {
    if n == 0 then [] else
      Rows(w, target, forward, symbol, p, n - 1) +
      if InWindow(w, p.bars[n - 1]) && Reason(w, forward, p, n - 1).None? then
        [RowOf(w, target, forward, symbol, p, n - 1)]
      else []
  }

  /** The rejection reasons of the first `n` bars, in order. */
  function Reasons(w: Split, forward: Returns, p: Prepared, n: nat): seq<string>
    requires n <= |p.bars| && |p.matrix| == |p.bars| && w.horizon >= 1
  {
    if n == 0 then [] else
      Reasons(w, forward, p, n - 1) +
      if InWindow(w, p.bars[n - 1]) && Reason(w, forward, p, n - 1).Some? then [Reason(w, forward, p, n - 1).value] else []
  }

  // ----------------------------------------------------------- prefix sums

  predicate Gap(bars: seq<Bar>, step: int, k: nat)
    requires 1 <= k < |bars|
  {
    bars[k].at - bars[k - 1].at != step
  }

  /** How many of the first `k` steps are not exactly one interval. */
  function Gaps(bars: seq<Bar>, step: int, k: nat): nat
    requires k < |bars|
  {
    if k == 0 then 0 else Gaps(bars, step, k - 1) + if Gap(bars, step, k) then 1 else 0
  }

  /** Equal prefix sums mean exactly that the whole path is on step. */
  lemma {:induction false} GapsExact(bars: seq<Bar>, step: int, i: nat, future: nat)
    requires i <= future < |bars|
    ensures Gaps(bars, step, i) <= Gaps(bars, step, future)
    ensures Gaps(bars, step, i) == Gaps(bars, step, future) <==> OnStep(bars, step, i, future)
    decreases future
  {
    if i < future {
      GapsExact(bars, step, i, future - 1);
      if OnStep(bars, step, i, future - 1) {
        assert bars[future - 1].at == bars[i].at + (future - 1 - i) * step;
        assert (future - i) * step == (future - 1 - i) * step + step;
        assert !Gap(bars, step, future) <==> bars[future].at == bars[i].at + (future - i) * step;
      }
    }
  }

  /** `np.cumsum` of the gap flags. */
  method CumulateGaps(bars: seq<Bar>, step: int) returns (gaps: seq<nat>)
    ensures |gaps| == if bars == [] then 1 else |bars|
    ensures forall k :: 0 <= k < |bars| ==> gaps[k] == Gaps(bars, step, k)
  {
    gaps := [0];
    if bars == [] { return; }
    for k := 1 to |bars|
      invariant |gaps| == k
      invariant forall j :: 0 <= j < k && j < |bars| ==> gaps[j] == Gaps(bars, step, j)
    {
      gaps := gaps + [gaps[k - 1] + if bars[k].at - bars[k - 1].at != step then 1 else 0];
    }
  }

  /** The chain of rejections for one in-window bar, its path judged by two prefix sums. */
  method CheckBar(w: Split, forward: Returns, p: Prepared, gaps: seq<nat>, i: nat) returns (reason: Option<string>)
    requires i < |p.bars| && |p.matrix| == |p.bars| && w.horizon >= 1
    requires |gaps| >= |p.bars| && forall k :: 0 <= k < |p.bars| ==> gaps[k] == Gaps(p.bars, w.step, k)
    ensures reason == Reason(w, forward, p, i)
  {
    hide OnStep, LeavesSession, Gaps;
    var bar := p.bars[i];
    var future := i + w.horizon;
    var targetTime := bar.at + w.horizon * w.step;
    if targetTime >= w.end { return Some("split_end"); }
    if LeavesSession(w, bar) { return Some("session_end"); }
    if future >= |p.bars| { return Some("missing_horizon"); }
    GapsExact(p.bars, w.step, i, future);
    if gaps[future] == gaps[i] { PathEndsOnTime(p.bars, w.step, i, future); }
    if gaps[future] != gaps[i] || p.bars[future].at != targetTime { return Some("gapped_horizon"); }
    if p.matrix[i].None? { return Some("incomplete_features"); }
    var value := forward(p.bars[i + 1].open, p.bars[future].close);
    reason := if value.None? then Some("invalid_target") else None;
  }

  lemma {:induction false} PathExists(w: Split, forward: Returns, p: Prepared, i: nat)
    requires i < |p.bars| && |p.matrix| == |p.bars| && w.horizon >= 1 && Reason(w, forward, p, i).None?
    ensures i + w.horizon < |p.bars| && p.matrix[i].Some?
    ensures forward(p.bars[i + 1].open, p.bars[i + w.horizon].close).Some?
  {
    hide OnStep, LeavesSession;
  }

  lemma {:induction false} NothingCounted(w: Split, target: Target, forward: Returns, symbol: string, p: Prepared)
    requires |p.matrix| == |p.bars| && w.horizon >= 1
    ensures Rows(w, target, forward, symbol, p, 0) == [] && Reasons(w, forward, p, 0) == []
  {}

  /** What one bar adds to the rows. */
  lemma {:induction false} NextRow(w: Split, target: Target, forward: Returns, symbol: string, p: Prepared, i: nat)
    requires i < |p.bars| && |p.matrix| == |p.bars| && w.horizon >= 1
    ensures
      var before := Rows(w, target, forward, symbol, p, i);
      Rows(w, target, forward, symbol, p, i + 1) ==
        if InWindow(w, p.bars[i]) && Reason(w, forward, p, i).None? then before + [RowOf(w, target, forward, symbol, p, i)]
        else before
  {
    hide Reason, InWindow;
    assert Rows(w, target, forward, symbol, p, i) + [] == Rows(w, target, forward, symbol, p, i);
  }

  /** What one bar adds to the counter of reasons. */
  lemma {:induction false} NextReason(w: Split, forward: Returns, p: Prepared, i: nat)
    requires i < |p.bars| && |p.matrix| == |p.bars| && w.horizon >= 1
    ensures
      var before := multiset(Reasons(w, forward, p, i));
      multiset(Reasons(w, forward, p, i + 1)) ==
        if InWindow(w, p.bars[i]) && Reason(w, forward, p, i).Some? then before + multiset{Reason(w, forward, p, i).value}
        else before
  {
    hide Reason, InWindow;
    assert Reasons(w, forward, p, i) + [] == Reasons(w, forward, p, i);
  }

  /** The row loop for one symbol: the prefix sums and the counter, against the plain definitions. */
  method SymbolRows(w: Split, target: Target, forward: Returns, symbol: string, p: Prepared)
    returns (records: seq<Row>, rejects: multiset<string>)
    requires |p.matrix| == |p.bars| && w.horizon >= 1
    ensures records == Rows(w, target, forward, symbol, p, |p.bars|)
    ensures rejects == multiset(Reasons(w, forward, p, |p.bars|))
  {
    hide Reason, LabelOf, Rows, Reasons;
    NothingCounted(w, target, forward, symbol, p);
    var gaps := CumulateGaps(p.bars, w.step);
    records, rejects := [], multiset{};
    for i := 0 to |p.bars|
      invariant records == Rows(w, target, forward, symbol, p, i)
      invariant rejects == multiset(Reasons(w, forward, p, i))
    {
      var bar := p.bars[i];
      NextRow(w, target, forward, symbol, p, i);
      NextReason(w, forward, p, i);
      if !(w.start <= bar.at < w.end) { continue; }
      var reason := CheckBar(w, forward, p, gaps, i);
      if reason.None? {
        PathExists(w, forward, p, i);
        var value := forward(p.bars[i + 1].open, p.bars[i + w.horizon].close).value;
        records := records + [Row(symbol, bar.at, p.matrix[i].value, LabelOf(target, value))];
      } else {
        rejects := rejects + multiset{reason.value};
      }
    }
  }

  lemma {:induction false} PathEndsOnTime(bars: seq<Bar>, step: int, i: nat, future: nat)
    requires i <= future < |bars| && OnStep(bars, step, i, future)
    ensures bars[future].at == bars[i].at + (future - i) * step
  {}
}
