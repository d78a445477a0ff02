/** Half-open time intervals, their canonical unions and complements. */
module Intervals {

  datatype Interval = Interval(lo: int, hi: int)

  predicate Inside(t: int, iv: Interval) {
    iv.lo <= t < iv.hi
  }

  /** The point set a list of intervals denotes. */
  predicate Covered(xs: seq<Interval>, t: int) {
    exists i :: 0 <= i < |xs| && Inside(t, xs[i])
  }

  /** Non-empty, ascending and strictly separated: no two intervals touch. */
  predicate Canonical(xs: seq<Interval>) {
    && (forall i :: 0 <= i < |xs| ==> xs[i].lo < xs[i].hi)
    && (forall i, j :: 0 <= i < j < |xs| ==> xs[i].hi < xs[j].lo)
  }

  ghost predicate SamePoints(xs: seq<Interval>, ys: seq<Interval>) {
    forall t :: Covered(xs, t) <==> Covered(ys, t)
  }

  lemma {:induction false} CoveredConcat(xs: seq<Interval>, ys: seq<Interval>, t: int)
    ensures Covered(xs + ys, t) <==> Covered(xs, t) || Covered(ys, t)
  {
    if Covered(xs, t) {
      var i :| 0 <= i < |xs| && Inside(t, xs[i]);
      assert Inside(t, (xs + ys)[i]);
    }
    if Covered(ys, t) {
      var i :| 0 <= i < |ys| && Inside(t, ys[i]);
      assert Inside(t, (xs + ys)[|xs| + i]);
    }
  }

  lemma {:induction false} CoveredAppend(xs: seq<Interval>, x: Interval)
    ensures forall t :: Covered(xs + [x], t) <==> Covered(xs, t) || Inside(t, x)
  {
    forall t ensures Covered(xs + [x], t) <==> Covered(xs, t) || Inside(t, x) {
      CoveredConcat(xs, [x], t);
      assert Inside(t, x) ==> Inside(t, [x][0]);
    }
  }

  /** Every point of a canonical list lies at or after its first start. */
  lemma {:induction false} FirstCovered(xs: seq<Interval>, t: int)
    requires Canonical(xs) && Covered(xs, t)
    ensures xs[0].lo <= t
    ensures t < xs[0].hi || (|xs| > 1 && xs[1].lo <= t && Covered(xs[1..], t))
  {
    var i :| 0 <= i < |xs| && Inside(t, xs[i]);
    if i > 0 {
      assert xs[1..][i - 1] == xs[i];
    }
  }

  /** A canonical list is determined by its points: `union` has one right answer. */
  lemma {:induction false} CanonicalUnique(xs: seq<Interval>, ys: seq<Interval>)
    requires Canonical(xs) && Canonical(ys) && SamePoints(xs, ys)
    ensures xs == ys
    decreases |xs|
  {
    if xs != [] && ys != [] {
      HeadsAgree(xs, ys);
      HeadsAgree(ys, xs);
      forall t ensures Covered(xs[1..], t) <==> Covered(ys[1..], t) {
        TailPoints(xs, t);
        TailPoints(ys, t);
      }
      CanonicalUnique(xs[1..], ys[1..]);
      assert xs == [xs[0]] + xs[1..] && ys == [ys[0]] + ys[1..];
    } else if xs != [] {
      assert Inside(xs[0].lo, xs[0]) && Covered(xs, xs[0].lo) && !Covered(ys, xs[0].lo);
    } else if ys != [] {
      assert Inside(ys[0].lo, ys[0]) && Covered(ys, ys[0].lo) && !Covered(xs, ys[0].lo);
    }
  }

  lemma {:induction false} HeadsAgree(xs: seq<Interval>, ys: seq<Interval>)
    requires xs != [] && ys != []
    requires Canonical(xs) && Canonical(ys) && SamePoints(xs, ys)
    ensures xs[0] == ys[0]
  {
    assert Inside(xs[0].lo, xs[0]) && Covered(xs, xs[0].lo);
    assert Inside(ys[0].lo, ys[0]) && Covered(ys, ys[0].lo);
    FirstCovered(ys, xs[0].lo);
    FirstCovered(xs, ys[0].lo);
    if xs[0].hi < ys[0].hi {
      assert Inside(xs[0].hi, ys[0]) && Covered(ys, xs[0].hi);
      FirstCovered(xs, xs[0].hi);
    } else if ys[0].hi < xs[0].hi {
      assert Inside(ys[0].hi, xs[0]) && Covered(xs, ys[0].hi);
      FirstCovered(ys, ys[0].hi);
    }
  }

  lemma {:induction false} TailPoints(xs: seq<Interval>, t: int)
    requires xs != [] && Canonical(xs)
    ensures Covered(xs[1..], t) <==> Covered(xs, t) && xs[0].hi <= t
  {
    if Covered(xs[1..], t) {
      var i :| 0 <= i < |xs[1..]| && Inside(t, xs[1..][i]);
      assert Inside(t, xs[i + 1]);
    }
    if Covered(xs, t) && xs[0].hi <= t {
      FirstCovered(xs, t);
    }
  }

  /** Python's tuple order. */
  predicate AtMost(a: Interval, b: Interval) {
    a.lo < b.lo || (a.lo == b.lo && a.hi <= b.hi)
  }

  predicate Ordered(xs: seq<Interval>) {
    forall i, j :: 0 <= i < j < |xs| ==> AtMost(xs[i], xs[j])
  }

  /** `sorted(intervals)`. */
  function Sorted(xs: seq<Interval>): (r: seq<Interval>)
    ensures Ordered(r) && multiset(r) == multiset(xs)
  {
    if xs == [] then [] else
      assert xs == xs[..|xs| - 1] + [xs[|xs| - 1]];
      Insert(Sorted(xs[..|xs| - 1]), xs[|xs| - 1])
  }

  function Insert(xs: seq<Interval>, x: Interval): (r: seq<Interval>)
    requires Ordered(xs)
    ensures Ordered(r) && multiset(r) == multiset(xs) + multiset{x}
  {
    hide AtMost;
    if xs == [] || AtMost(xs[|xs| - 1], x) then
      Appended(xs, x);
      xs + [x]
    else
      var last := xs[|xs| - 1];
      assert xs == xs[..|xs| - 1] + [last];
      var front := Insert(xs[..|xs| - 1], x);
      BelowLast(xs, x, front);
      OrderedAppend(front, last);
      front + [last]
  }

  lemma {:induction false} OrderedAppend(front: seq<Interval>, last: Interval)
    requires Ordered(front) && forall i :: 0 <= i < |front| ==> AtMost(front[i], last)
    ensures Ordered(front + [last])
  {
    hide AtMost;
  }

  lemma {:induction false} Appended(xs: seq<Interval>, x: Interval)
    requires Ordered(xs) && (xs == [] || AtMost(xs[|xs| - 1], x))
    ensures Ordered(xs + [x])
  {
    OrderedAppend(xs, x);
  }

  lemma {:induction false} BelowLast(xs: seq<Interval>, x: Interval, front: seq<Interval>)
    requires Ordered(xs) && xs != [] && !AtMost(xs[|xs| - 1], x)
    requires multiset(front) == multiset(xs[..|xs| - 1]) + multiset{x}
    ensures forall i :: 0 <= i < |front| ==> AtMost(front[i], xs[|xs| - 1])
  {
    InsertedAtMost(xs[..|xs| - 1], x, front, xs[|xs| - 1]);
  }

  lemma {:induction false} InsertedAtMost(xs: seq<Interval>, x: Interval, front: seq<Interval>, last: Interval)
    requires multiset(front) == multiset(xs) + multiset{x}
    requires forall i :: 0 <= i < |xs| ==> AtMost(xs[i], last)
    requires AtMost(x, last)
    ensures forall i :: 0 <= i < |front| ==> AtMost(front[i], last)
  {
    forall i | 0 <= i < |front| ensures AtMost(front[i], last) {
      assert front[i] in multiset(front);
      assert front[i] == x || front[i] in xs;
    }
  }

  lemma {:induction false} SameElementsSamePoints(xs: seq<Interval>, ys: seq<Interval>)
    requires multiset(xs) == multiset(ys)
    ensures SamePoints(xs, ys)
  {
    forall t ensures Covered(xs, t) <==> Covered(ys, t) {
      if Covered(xs, t) {
        var i :| 0 <= i < |xs| && Inside(t, xs[i]);
        assert xs[i] in multiset(ys);
      }
      if Covered(ys, t) {
        var i :| 0 <= i < |ys| && Inside(t, ys[i]);
        assert ys[i] in multiset(xs);
      }
    }
  }

  /** Sorts, drops empty intervals, and joins those that overlap or touch. */
  method Union(intervals: seq<Interval>) returns (result: seq<Interval>)
    ensures Canonical(result)
    ensures SamePoints(result, intervals)
  {
    hide Covered, Canonical, SamePoints;
    var ordered := Sorted(intervals);
    SameElementsSamePoints(ordered, intervals);
    NoPoints();
    result := [];
    for i := 0 to |ordered|
      invariant Canonical(result)
      invariant SamePoints(result, ordered[..i])
      invariant result != [] ==> forall j :: i <= j < |ordered| ==> result[|result| - 1].lo <= ordered[j].lo
    {
      var start, end := ordered[i].lo, ordered[i].hi;
      ghost var before := result;
      if start < end {
        if result != [] && start <= result[|result| - 1].hi {
          var last := result[|result| - 1];
          result := result[|result| - 1 := Interval(last.lo, if end >= last.hi then end else last.hi)];
        } else {
          result := result + [ordered[i]];
        }
      }
      assert ordered[..i + 1] == ordered[..i] + [ordered[i]];
      UnionStep(before, ordered[..i], ordered[i], result);
    }
    assert ordered[..|ordered|] == ordered;
    SamePointsTransitive(result, ordered, intervals);
  }

  lemma {:induction false} NoPoints()
    ensures Canonical([]) && SamePoints([], [])
  {}

  lemma {:induction false} SamePointsTransitive(a: seq<Interval>, b: seq<Interval>, c: seq<Interval>)
    requires SamePoints(a, b) && SamePoints(b, c)
    ensures SamePoints(a, c)
  {
    hide Covered;
  }

  /** One turn of the union: the next interval is empty, stretches the last result, or starts a new one. */
  lemma {:induction false} UnionStep(before: seq<Interval>, done: seq<Interval>, iv: Interval, after: seq<Interval>)
    requires Canonical(before) && SamePoints(before, done) && (before != [] ==> before[|before| - 1].lo <= iv.lo)
    requires
      if iv.lo >= iv.hi then after == before
      else if before != [] && iv.lo <= before[|before| - 1].hi then
        var last := before[|before| - 1];
        after == before[|before| - 1 := Interval(last.lo, if iv.hi >= last.hi then iv.hi else last.hi)]
      else after == before + [iv]
    ensures Canonical(after) && SamePoints(after, done + [iv])
    ensures after != [] ==> after[|after| - 1].lo <= iv.lo
  {
    hide Covered;
    CoveredAppend(done, iv);
    if iv.lo < iv.hi {
      if before != [] && iv.lo <= before[|before| - 1].hi {
        StretchLast(before, iv, after);
      } else {
        CoveredAppend(before, iv);
      }
    }
  }

  lemma {:induction false} StretchLast(before: seq<Interval>, iv: Interval, after: seq<Interval>)
    requires before != [] && Canonical(before) && iv.lo < iv.hi
    requires before[|before| - 1].lo <= iv.lo <= before[|before| - 1].hi
    requires after == before[|before| - 1 :=
      Interval(before[|before| - 1].lo,
               if iv.hi >= before[|before| - 1].hi then iv.hi else before[|before| - 1].hi)]
    ensures Canonical(after)
    ensures forall t :: Covered(after, t) <==> Covered(before, t) || Inside(t, iv)
  {
    var n := |before| - 1;
    forall t ensures Covered(after, t) <==> Covered(before, t) || Inside(t, iv) {
      if Covered(before, t) {
        var i :| 0 <= i < |before| && Inside(t, before[i]);
        assert Inside(t, after[i]);
      }
      if Inside(t, iv) {
        assert Inside(t, after[n]);
      }
      if Covered(after, t) {
        var i :| 0 <= i < |after| && Inside(t, after[i]);
        if i < n { assert Inside(t, before[i]); }
        else if !Inside(t, iv) { assert Inside(t, before[n]); }
      }
    }
  }

  function Min(a: int, b: int): int { if a <= b then a else b }

  function Max(a: int, b: int): int { if a >= b then a else b }

  /** `gaps` is what `coverage` leaves out of `[start, bound)`. */
  ghost predicate Complement(gaps: seq<Interval>, coverage: seq<Interval>, start: int, bound: int) {
    forall t :: Covered(gaps, t) <==> start <= t < bound && !Covered(coverage, t)
  }

  /** The part of `[start, end)` that a chunk's coverage leaves out. */
  method Missing(coverage: seq<Interval>, start: int, end: int) returns (result: seq<Interval>)
    requires Canonical(coverage)
    ensures Canonical(result)
    ensures Complement(result, coverage, start, end)
  {
    hide Complement, Covered, Canonical;
    NoPoints();
    NoGaps(coverage, start, Min(start, end));
    result := [];
    var cursor := start;
    var i := 0;
    while i < |coverage|
      invariant 0 <= i <= |coverage|
      invariant start <= cursor
      invariant i > 0 ==> coverage[i - 1].hi <= cursor
      invariant cursor == start || (i > 0 && cursor == coverage[i - 1].hi)
      invariant i > 0 ==> cursor < end
      invariant result != [] ==> result[|result| - 1].hi < cursor
      invariant Canonical(result)
      invariant Complement(result, coverage, start, Min(cursor, end))
    {
      var a, b := coverage[i].lo, coverage[i].hi;
      GapStep(coverage, i, cursor, start, end, result);
      AfterPrevious(coverage, i);
      if cursor < Min(a, end) {
        GapAppends(result, Interval(cursor, Min(a, end)));
        result := result + [Interval(cursor, Min(a, end))];
      }
      cursor := Max(cursor, b);
      i := i + 1;
      if cursor >= end {
        return;
      }
    }
    if cursor < end {
      LastGap(coverage, cursor, start, end, result);
      GapAppends(result, Interval(cursor, end));
      result := result + [Interval(cursor, end)];
    }
  }

  lemma {:induction false} NoGaps(coverage: seq<Interval>, start: int, bound: int)
    requires bound <= start
    ensures Complement([], coverage, start, bound)
  {}

  lemma {:induction false} AfterPrevious(coverage: seq<Interval>, i: nat)
    requires Canonical(coverage) && i < |coverage|
    ensures coverage[i].lo < coverage[i].hi && (i > 0 ==> coverage[i - 1].hi < coverage[i].lo)
  {}

  lemma {:induction false} GapAppends(gaps: seq<Interval>, gap: Interval)
    requires Canonical(gaps) && gap.lo < gap.hi && (gaps != [] ==> gaps[|gaps| - 1].hi < gap.lo)
    ensures Canonical(gaps + [gap])
  {}

  lemma {:induction false} LastGap(coverage: seq<Interval>, cursor: int, start: int, end: int, gaps: seq<Interval>)
    requires Canonical(coverage) && start <= cursor < end
    requires coverage != [] ==> coverage[|coverage| - 1].hi <= cursor
    requires Complement(gaps, coverage, start, cursor)
    ensures Complement(gaps + [Interval(cursor, end)], coverage, start, end)
  {
    GapOpen(coverage, |coverage|, cursor);
    CoveredAppend(gaps, Interval(cursor, end));
  }

  /** One turn of the loop: the stretch before interval `i` is uncovered, the interval itself is not. */
  lemma {:induction false} GapStep(coverage: seq<Interval>, i: nat, cursor: int, start: int, end: int, gaps: seq<Interval>)
    requires Canonical(coverage) && i < |coverage| && start <= cursor
    requires i > 0 ==> coverage[i - 1].hi <= cursor
    requires Complement(gaps, coverage, start, Min(cursor, end))
    ensures Complement(
      if cursor < Min(coverage[i].lo, end) then gaps + [Interval(cursor, Min(coverage[i].lo, end))] else gaps,
      coverage, start, Min(Max(cursor, coverage[i].hi), end))
  {
    var gap := Interval(cursor, Min(coverage[i].lo, end));
    var after := if cursor < gap.hi then gaps + [gap] else gaps;
    CoveredAppend(gaps, gap);
    GapOpen(coverage, i, cursor);
    var bound := Min(Max(cursor, coverage[i].hi), end);
    forall t ensures Covered(after, t) <==> start <= t < bound && !Covered(coverage, t) {
      assert Inside(t, coverage[i]) ==> Covered(coverage, t);
    }
  }

  /** No covered point lies between the cursor and the next interval. */
  lemma {:induction false} GapOpen(coverage: seq<Interval>, i: nat, cursor: int)
    requires Canonical(coverage) && i <= |coverage|
    requires i > 0 ==> coverage[i - 1].hi <= cursor
    ensures forall t :: cursor <= t && (i < |coverage| ==> t < coverage[i].lo) ==> !Covered(coverage, t)
  {}
}
