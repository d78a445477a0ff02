/** Safety, accounting and symbol selection of training datasets. */
module DatasetLaws {
  import opened Wrappers
  import opened Session
  import opened Broker
  import opened BarSeries
  import opened Dataset

  // ----------------------------------------------------------- accounting

  function InWindowCount(w: Split, bars: seq<Bar>): nat {
    if bars == [] then 0 else
      InWindowCount(w, bars[..|bars| - 1]) + if InWindow(w, bars[|bars| - 1]) then 1 else 0
  }

  /** Each in-window bar yields exactly one row or one rejection. */
  lemma {:induction false} EveryBarAccounted(w: Split, target: Target, forward: Returns, symbol: string, p: Prepared, n: nat)
    requires n <= |p.bars| && |p.matrix| == |p.bars| && w.horizon >= 1
    ensures |Rows(w, target, forward, symbol, p, n)| + |Reasons(w, forward, p, n)| == InWindowCount(w, p.bars[..n])
  {
    hide Reason, InWindow;
    if n > 0 {
      assert p.bars[..n][..n - 1] == p.bars[..n - 1];
      EveryBarAccounted(w, target, forward, symbol, p, n - 1);
    }
  }

  /** Rows come from in-window bars that nothing rejects, in time order. */
  lemma {:induction false} RowsAreUsable(w: Split, target: Target, forward: Returns, symbol: string, p: Prepared, n: nat, r: Row)
      returns (i: nat)
    requires n <= |p.bars| && |p.matrix| == |p.bars| && w.horizon >= 1
    requires r in Rows(w, target, forward, symbol, p, n)
    ensures i < n && InWindow(w, p.bars[i]) && Reason(w, forward, p, i).None?
    ensures r == RowOf(w, target, forward, symbol, p, i)
  {
    hide Reason, RowOf;
    if r in Rows(w, target, forward, symbol, p, n - 1) {
      i := RowsAreUsable(w, target, forward, symbol, p, n - 1, r);
    } else {
      i := n - 1;
    }
  }

  /** What cleaning delivers is what the row loop relies on. */
  lemma {:induction false} CleanedIsValid(w: Split, values: seq<RawBar>, bars: seq<Bar>, matrix: seq<Option<seq<real>>>)
    requires StrictlyIncreasing(bars) && |matrix| == |bars|
    requires forall b :: b in bars <==> Kept(w.zone, w.grid, values, b.at) == Some(b)
    ensures ValidPrepared(w, Prepared(bars, matrix))
  {
    hide Considered, Kept, ValidBar;
    forall b | b in bars ensures Considered(w.zone, w.grid, b) {
      KeptAt(w.zone, w.grid, values, b.at);
    }
  }

  // ---------------------------------------------------------------- safety

  /** A label reads only bars of its own split and its own session. */
  lemma {:induction false} LabelsStayInside(w: Split, forward: Returns, p: Prepared, i: nat, k: nat)
    requires ValidSplit(w) && ValidPrepared(w, p) && SteadySessions(w.zone)
    requires i < |p.bars| && InWindow(w, p.bars[i]) && Reason(w, forward, p, i).None?
    requires i <= k <= i + w.horizon
    ensures k < |p.bars| && InWindow(w, p.bars[k]) && Regular(w.zone, p.bars[k].at)
    ensures LocalDate(w.zone, p.bars[k].at) == LocalDate(w.zone, p.bars[i].at)
  {
    hide Regular, LocalDate, SteadySessions;
    var last := i + w.horizon;
    PathEndsOnTime(p.bars, w.step, i, last);
    assert p.bars[i] in p.bars && p.bars[k] in p.bars && p.bars[last] in p.bars;
    assert p.bars[i].at <= p.bars[k].at <= p.bars[last].at;
    DatesIncrease(w.zone, p.bars[i].at, p.bars[k].at);
    DatesIncrease(w.zone, p.bars[k].at, p.bars[last].at);
  }

  /** Two preparations that agree on the bars of the split, whatever lies before or after it. */
  ghost predicate AgreeInside(w: Split, p: Prepared, q: Prepared, a: nat, b: nat, n: nat) {
    && |p.matrix| == |p.bars| && |q.matrix| == |q.bars|
    && a + n <= |p.bars| && b + n <= |q.bars|
    && p.bars[a..a + n] == q.bars[b..b + n] && p.matrix[a..a + n] == q.matrix[b..b + n]
    && (forall i :: 0 <= i < a ==> p.bars[i].at < w.start) && (forall i :: 0 <= i < b ==> q.bars[i].at < w.start)
    && (forall i :: a + n <= i < |p.bars| ==> p.bars[i].at >= w.end)
    && (forall i :: b + n <= i < |q.bars| ==> q.bars[i].at >= w.end)
  }

  lemma {:induction false} SameVerdict(
    w: Split, target: Target, forward: Returns, symbol: string, p: Prepared, q: Prepared, a: nat, b: nat, n: nat, k: nat)
    requires |p.matrix| == |p.bars| && |q.matrix| == |q.bars| && a + n <= |p.bars| && b + n <= |q.bars|
    requires w.horizon >= 1 && k < n && Reason(w, forward, p, a + k).None?
    requires AgreeInside(w, p, q, a, b, n)
    ensures Reason(w, forward, q, b + k).None?
    ensures RowOf(w, target, forward, symbol, p, a + k) == RowOf(w, target, forward, symbol, q, b + k)
  {
    hide LeavesSession, OnStep, AgreeInside;
    var last := k + w.horizon;
    PathEndsOnTime(p.bars, w.step, a + k, a + last);
    PathStaysInside(w, p, q, a, b, n, a + last);
    AgreesAt(w, p, q, a, b, n, k);
    AgreesAt(w, p, q, a, b, n, k + 1);
    AgreesAt(w, p, q, a, b, n, last);
    SamePath(w, p, q, a, b, n, k, last);
  }

  lemma {:induction false} PathStaysInside(w: Split, p: Prepared, q: Prepared, a: nat, b: nat, n: nat, i: nat)
    requires AgreeInside(w, p, q, a, b, n) && i < |p.bars| && a <= i && p.bars[i].at < w.end
    ensures i < a + n && |p.matrix| == |p.bars| && |q.matrix| == |q.bars| && a + n <= |p.bars| && b + n <= |q.bars|
  {}

  lemma {:induction false} AgreesAt(w: Split, p: Prepared, q: Prepared, a: nat, b: nat, n: nat, m: nat)
    requires AgreeInside(w, p, q, a, b, n) && m < n
    ensures a + m < |p.bars| && b + m < |q.bars| && p.bars[a + m] == q.bars[b + m]
    ensures |p.matrix| == |p.bars| && |q.matrix| == |q.bars| && p.matrix[a + m] == q.matrix[b + m]
  {
    assert p.bars[a..a + n][m] == q.bars[b..b + n][m];
    assert p.matrix[a..a + n][m] == q.matrix[b..b + n][m];
  }

  lemma {:induction false} SamePath(w: Split, p: Prepared, q: Prepared, a: nat, b: nat, n: nat, k: nat, last: nat)
    requires AgreeInside(w, p, q, a, b, n) && k <= last < n && a + n <= |p.bars| && b + n <= |q.bars|
    requires OnStep(p.bars, w.step, a + k, a + last)
    ensures OnStep(q.bars, w.step, b + k, b + last)
  {
    hide AgreeInside;
    AgreesAt(w, p, q, a, b, n, k);
    forall m | b + k < m <= b + last ensures q.bars[m].at == q.bars[b + k].at + (m - (b + k)) * w.step {
      AgreesAt(w, p, q, a, b, n, m - b);
      assert p.bars[a + (m - b)].at == p.bars[a + k].at + (a + (m - b) - (a + k)) * w.step;
    }
  }

  lemma {:induction false} AgreeSymmetric(w: Split, p: Prepared, q: Prepared, a: nat, b: nat, n: nat)
    requires AgreeInside(w, p, q, a, b, n)
    ensures AgreeInside(w, q, p, b, a, n)
  {}

  lemma {:induction false} NothingBefore(w: Split, target: Target, forward: Returns, symbol: string, p: Prepared, a: nat)
    requires a <= |p.bars| && |p.matrix| == |p.bars| && w.horizon >= 1
    requires forall i :: 0 <= i < a ==> p.bars[i].at < w.start
    ensures Rows(w, target, forward, symbol, p, a) == []
  {
    hide Reason, RowOf;
    if a > 0 { NothingBefore(w, target, forward, symbol, p, a - 1); }
  }

  lemma {:induction false} NothingAfter(w: Split, target: Target, forward: Returns, symbol: string, p: Prepared, from: nat, n: nat)
    requires from <= n <= |p.bars| && |p.matrix| == |p.bars| && w.horizon >= 1
    requires forall i :: from <= i < |p.bars| ==> p.bars[i].at >= w.end
    ensures Rows(w, target, forward, symbol, p, n) == Rows(w, target, forward, symbol, p, from)
  {
    hide Reason, RowOf;
    if from < n { NothingAfter(w, target, forward, symbol, p, from, n - 1); }
  }

  lemma {:induction false} SameRowsInside(
    w: Split, target: Target, forward: Returns, symbol: string, p: Prepared, q: Prepared, a: nat, b: nat, n: nat, k: nat)
    requires w.horizon >= 1 && AgreeInside(w, p, q, a, b, n) && k <= n
    ensures Rows(w, target, forward, symbol, p, a + k) == Rows(w, target, forward, symbol, q, b + k)
  {
    hide Reason, RowOf;
    if k == 0 {
      NothingBefore(w, target, forward, symbol, p, a);
      NothingBefore(w, target, forward, symbol, q, b);
    } else {
      SameRowsInside(w, target, forward, symbol, p, q, a, b, n, k - 1);
      assert p.bars[a..a + n][k - 1] == q.bars[b..b + n][k - 1];
      AgreeSymmetric(w, p, q, a, b, n);
      if Reason(w, forward, p, a + k - 1).None? {
        SameVerdict(w, target, forward, symbol, p, q, a, b, n, k - 1);
      } else if Reason(w, forward, q, b + k - 1).None? {
        SameVerdict(w, target, forward, symbol, q, p, b, a, n, k - 1);
      }
    }
  }

  /** No leakage: the rows of a split depend on nothing but the bars and features inside it. */
  lemma {:induction false} SplitIsSealed(
    w: Split, target: Target, forward: Returns, symbol: string, p: Prepared, q: Prepared, a: nat, b: nat, n: nat)
    requires w.horizon >= 1 && AgreeInside(w, p, q, a, b, n)
    ensures Rows(w, target, forward, symbol, p, |p.bars|) == Rows(w, target, forward, symbol, q, |q.bars|)
  {
    hide Rows;
    SameRowsInside(w, target, forward, symbol, p, q, a, b, n, n);
    NothingAfter(w, target, forward, symbol, p, a + n, |p.bars|);
    NothingAfter(w, target, forward, symbol, q, b + n, |q.bars|);
  }

  // -------------------------------------------------------------- evidence

  function Times(bars: seq<Bar>): set<int> {
    set b | b in bars :: b.at
  }

  /** The schedule, or without one the observed bars. */
  function EffectiveGrid(w: Split, p: Prepared): Grid {
    if w.grid.Some? then w.grid.value else map t | t in Times(p.bars) :: LocalDate(w.zone, t)
  }

  /** A scheduled time whose label would end in the split and the session. */
  predicate Expected(w: Split, g: Grid, t: int) {
    var end := t + w.horizon * w.step;
    t in g && w.start <= t < w.end && end < w.end && end in g && g[end] == g[t]
  }

  function ExpectedTimes(w: Split, p: Prepared): set<int> {
    set t | t in EffectiveGrid(w, p) && Expected(w, EffectiveGrid(w, p), t)
  }

  function RowTimes(rows: seq<Row>): set<int> {
    set r | r in rows :: r.at
  }

  lemma {:induction false} SubsetSize(a: set<int>, b: set<int>)
    requires a <= b
    ensures |a| <= |b|
    decreases a
  {
    if a != {} {
      SomeTime(a);
      var t :| t in a;
      SubsetSize(a - {t}, b - {t});
    }
  }

  /** Row times are distinct and increase. */
  lemma {:induction false} RowsIncrease(w: Split, target: Target, forward: Returns, symbol: string, p: Prepared, n: nat)
    requires n <= |p.bars| && |p.matrix| == |p.bars| && w.horizon >= 1 && StrictlyIncreasing(p.bars)
    ensures forall r :: r in Rows(w, target, forward, symbol, p, n) ==> n > 0 && r.at <= p.bars[n - 1].at && r.symbol == symbol
    ensures TimesIncrease(Rows(w, target, forward, symbol, p, n))
    ensures |RowTimes(Rows(w, target, forward, symbol, p, n))| == |Rows(w, target, forward, symbol, p, n)|
  {
    hide Reason, InWindow, Rows, RowTimes, TimesIncrease, StrictlyIncreasing;
    if n > 0 {
      RowsIncrease(w, target, forward, symbol, p, n - 1);
      NextRow(w, target, forward, symbol, p, n - 1);
      assert n > 1 ==> p.bars[n - 2].at < p.bars[n - 1].at by { NextIsLater(p.bars, n - 1); }
      if InWindow(w, p.bars[n - 1]) && Reason(w, forward, p, n - 1).None? {
        LaterRow(Rows(w, target, forward, symbol, p, n - 1), RowOf(w, target, forward, symbol, p, n - 1));
      }
    } else {
      NothingCounted(w, target, forward, symbol, p);
      NoTimes();
    }
  }

  predicate TimesIncrease(rows: seq<Row>) {
    forall i, j :: 0 <= i < j < |rows| ==> rows[i].at < rows[j].at
  }

  lemma {:induction false} NextIsLater(bars: seq<Bar>, i: nat)
    requires StrictlyIncreasing(bars) && i < |bars|
    ensures i > 0 ==> bars[i - 1].at < bars[i].at
  {}

  lemma {:induction false} LaterRow(front: seq<Row>, r: Row)
    requires TimesIncrease(front) && forall x :: x in front ==> x.at < r.at
    ensures TimesIncrease(front + [r]) && |RowTimes(front + [r])| == |RowTimes(front)| + 1
  {
    hide RowTimes;
    NewTime(front, r);
  }

  lemma {:induction false} NoTimes()
    ensures RowTimes([]) == {} && TimesIncrease([])
  {}

  lemma {:induction false} NewTime(front: seq<Row>, r: Row)
    requires forall x :: x in front ==> x.at < r.at
    ensures |RowTimes(front + [r])| == |RowTimes(front)| + 1
  {
    assert RowTimes(front + [r]) == RowTimes(front) + {r.at};
  }

  /** Usable rows never exceed expected rows. */
  lemma {:induction false} UsableWithinExpected(w: Split, target: Target, forward: Returns, symbol: string, p: Prepared)
    requires ValidSplit(w) && ValidPrepared(w, p)
    ensures |Rows(w, target, forward, symbol, p, |p.bars|)| <= |ExpectedTimes(w, p)|
  {
    hide ExpectedTimes, RowTimes, Rows;
    var rows := Rows(w, target, forward, symbol, p, |p.bars|);
    RowsIncrease(w, target, forward, symbol, p, |p.bars|);
    forall t | t in RowTimes(rows) ensures t in ExpectedTimes(w, p) {
      var r :| r in rows && r.at == t by { TimeHasRow(rows, t); }
      var i := RowsAreUsable(w, target, forward, symbol, p, |p.bars|, r);
      UsableIsExpected(w, forward, p, i);
    }
    SubsetSize(RowTimes(rows), ExpectedTimes(w, p));
  }

  lemma {:induction false} TimeHasRow(rows: seq<Row>, t: int)
    requires t in RowTimes(rows)
    ensures exists r :: r in rows && r.at == t
  {}

  lemma {:induction false} UsableIsExpected(w: Split, forward: Returns, p: Prepared, i: nat)
    requires ValidSplit(w) && ValidPrepared(w, p) && i < |p.bars|
    requires InWindow(w, p.bars[i]) && Reason(w, forward, p, i).None?
    ensures p.bars[i].at in ExpectedTimes(w, p)
  {
    hide Regular, LocalDate;
    var last := i + w.horizon;
    PathEndsOnTime(p.bars, w.step, i, last);
    assert p.bars[i] in p.bars && p.bars[last] in p.bars;
    assert p.bars[i].at in Times(p.bars) && p.bars[last].at in Times(p.bars);
    assert Expected(w, EffectiveGrid(w, p), p.bars[i].at);
  }

  /** All of `days[a..b]` went unobserved. */
  predicate AllMissing(days: seq<int>, observed: set<int>, a: nat, b: nat)
    requires a <= b <= |days|
  {
    forall k :: a <= k < b ==> days[k] !in observed
  }

  lemma {:induction false} RunEnds(days: seq<int>, observed: set<int>, a: nat, b: nat, edge: nat)
    requires a <= b <= |days| && AllMissing(days, observed, a, b) && edge < |days|
    ensures days[edge] in observed ==> !(a <= edge < b)
  {}

  /** The longest run of unobserved session days, and how many there are in all. */
  method MissingRuns(days: seq<int>, observed: set<int>) returns (missing: nat, longest: nat)
    ensures missing == |MissingAt(days, observed, |days|)|
    ensures longest <= |days|
    ensures forall a, b :: 0 <= a <= b <= |days| && AllMissing(days, observed, a, b) ==> b - a <= longest
    ensures exists a, b :: 0 <= a <= b <= |days| && b - a == longest && AllMissing(days, observed, a, b)
  {
    missing, longest := 0, 0;
    var current := 0;
    ghost var best: nat := 0;
    for i := 0 to |days|
      invariant missing == |MissingAt(days, observed, i)|
      invariant current <= longest && current <= i && AllMissing(days, observed, i - current, i)
      invariant current < i ==> days[i - current - 1] in observed
      invariant best + longest <= i && AllMissing(days, observed, best, best + longest)
      invariant forall a, b :: 0 <= a <= b <= i && AllMissing(days, observed, a, b) ==> b - a <= longest
    {
      if days[i] in observed {
        current := 0;
        assert MissingAt(days, observed, i + 1) == MissingAt(days, observed, i);
      } else {
        current := current + 1;
        missing := missing + 1;
        assert MissingAt(days, observed, i + 1) == MissingAt(days, observed, i) + {i};
      }
      if current > longest {
        longest := current;
        best := i + 1 - current;
      }
      forall a, b | 0 <= a <= b <= i + 1 && AllMissing(days, observed, a, b) ensures b - a <= longest {
        if b == i + 1 && a < b {
          RunEnds(days, observed, a, b, i);
          if current <= i { RunEnds(days, observed, a, b, i - current); }
        }
      }
    }
  }

  function MissingAt(days: seq<int>, observed: set<int>, n: nat): set<int>
    requires n <= |days|
  {
    set k | 0 <= k < n && days[k] !in observed
  }
}
