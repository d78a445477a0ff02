/** Monthly chunks of bars and the validation a stored payload must pass. */
module BarsCodec {
  import opened Wrappers
  import opened Intervals
  import opened Calendar

  /** The five stored columns of one bar. */
  datatype Values = Values(open: real, high: real, low: real, close: real, volume: real)

  datatype Row = Row(ts: int, values: Values)

  /** What upstream knows about one symbol at one resolution. */
  type Timeline = map<int, Values>

  datatype Chunk = Chunk(rows: seq<Row>, coverage: seq<Interval>)

  const EMPTY: Chunk := Chunk([], [])

  predicate Ascending(rows: seq<Row>) {
    forall i, j :: 0 <= i < j < |rows| ==> rows[i].ts < rows[j].ts
  }

  predicate WithinCoverage(rows: seq<Row>, coverage: seq<Interval>) {
    forall i :: 0 <= i < |rows| ==> Covered(coverage, rows[i].ts)
  }

  predicate WellFormed(c: Chunk) {
    Ascending(c.rows) && Canonical(c.coverage) && WithinCoverage(c.rows, c.coverage)
  }

  /** The timestamp-to-values dictionary a list of rows builds: the last occurrence wins. */
  function LastWins(rows: seq<Row>): Timeline {
    if rows == [] then map[]
    else LastWins(rows[..|rows| - 1])[rows[|rows| - 1].ts := rows[|rows| - 1].values]
  }

  function Restrict(tl: Timeline, start: int, end: int): Timeline {
    map ts | ts in tl && start <= ts < end :: tl[ts]
  }

  /** A chunk holds exactly what upstream holds on the chunk's own coverage. */
  ghost predicate Honest(c: Chunk, tl: Timeline) {
    && WellFormed(c)
    && LastWins(c.rows) == (map ts | ts in tl && Covered(c.coverage, ts) :: tl[ts])
  }

  // ---------------------------------------------------------------- rows

  predicate Stamped(rows: seq<Row>, ts: int) {
    exists i :: 0 <= i < |rows| && rows[i].ts == ts
  }

  lemma {:induction false} LastWinsKeys(rows: seq<Row>)
    ensures forall ts :: ts in LastWins(rows) <==> Stamped(rows, ts)
  {
    if rows != [] {
      var front, last := rows[..|rows| - 1], rows[|rows| - 1];
      LastWinsKeys(front);
      forall ts ensures Stamped(rows, ts) <==> Stamped(front, ts) || ts == last.ts {
        if Stamped(front, ts) {
          var i :| 0 <= i < |front| && front[i].ts == ts;
          assert rows[i].ts == ts;
        }
        if Stamped(rows, ts) && ts != last.ts {
          var i :| 0 <= i < |rows| && rows[i].ts == ts;
          assert front[i].ts == ts;
        }
      }
    }
  }

  lemma {:induction false} LastWinsConcat(a: seq<Row>, b: seq<Row>)
    ensures LastWins(a + b) == LastWins(a) + LastWins(b)
  {
    if b == [] {
      assert a + b == a;
    } else {
      assert (a + b)[..|a + b| - 1] == a + b[..|b| - 1];
      LastWinsConcat(a, b[..|b| - 1]);
    }
  }

  /** Ascending rows are found under their own timestamps, and nothing else is. */
  lemma {:induction false} AscendingLookup(rows: seq<Row>)
    requires Ascending(rows)
    ensures forall i :: 0 <= i < |rows| ==> rows[i].ts in LastWins(rows)
    ensures forall i :: 0 <= i < |rows| ==> LastWins(rows)[rows[i].ts] == rows[i].values
  {
    if rows != [] {
      var front := rows[..|rows| - 1];
      AscendingLookup(front);
      assert forall i :: 0 <= i < |front| ==> rows[i] == front[i];
    }
  }

  /** An ascending list of rows is determined by the dictionary it builds. */
  lemma {:induction false} AscendingUnique(a: seq<Row>, b: seq<Row>)
    requires Ascending(a) && Ascending(b) && LastWins(a) == LastWins(b)
    ensures a == b
    decreases |a|
  {
    LastWinsKeys(a);
    LastWinsKeys(b);
    assert a != [] ==> Stamped(a, a[0].ts);
    assert b != [] ==> Stamped(b, b[0].ts);
    if a != [] && b != [] {
      var x, y := a[|a| - 1], b[|b| - 1];
      assert Stamped(a, x.ts) && Stamped(b, y.ts);
      assert x == y;
      DropLast(a);
      DropLast(b);
      AscendingUnique(a[..|a| - 1], b[..|b| - 1]);
      assert a == a[..|a| - 1] + [x] && b == b[..|b| - 1] + [y];
    }
  }

  lemma {:induction false} DropLast(rows: seq<Row>)
    requires rows != [] && Ascending(rows)
    ensures LastWins(rows[..|rows| - 1]) == LastWins(rows) - {rows[|rows| - 1].ts}
  {
    LastWinsKeys(rows[..|rows| - 1]);
  }

  /** `searchsorted`: how many leading timestamps lie before `t`. */
  function LowerBound(rows: seq<Row>, t: int): (k: nat)
    requires Ascending(rows)
    ensures k <= |rows|
    ensures forall i :: 0 <= i < k ==> rows[i].ts < t
    ensures forall i :: k <= i < |rows| ==> t <= rows[i].ts
  {
    if rows == [] || rows[|rows| - 1].ts < t then |rows| else LowerBound(rows[..|rows| - 1], t)
  }

  /** `Chunk.bars`: the rows of `[start, end)`; an inverted window slices to nothing. */
  function Slice(rows: seq<Row>, start: int, end: int): seq<Row>
    requires Ascending(rows)
  {
    var left, right := LowerBound(rows, start), LowerBound(rows, end);
    if left <= right then rows[left..right] else []
  }

  function Until(tl: Timeline, t: int): Timeline {
    map ts | ts in tl && ts < t :: tl[ts]
  }

  function Since(tl: Timeline, t: int): Timeline {
    map ts | ts in tl && t <= ts :: tl[ts]
  }

  /** Cutting ascending rows at a timestamp cuts the dictionary at that timestamp. */
  lemma {:induction false} CutAt(rows: seq<Row>, t: int, k: nat)
    requires Ascending(rows) && k == LowerBound(rows, t)
    ensures LastWins(rows[..k]) == Until(LastWins(rows), t)
    ensures LastWins(rows[k..]) == Since(LastWins(rows), t)
  {
    hide LastWins, LowerBound, Ascending, Until, Since;
    var front, back := rows[..k], rows[k..];
    assert rows == front + back;
    LastWinsConcat(front, back);
    KeysBelow(front, t);
    KeysFrom(back, t);
    SplitByThreshold(LastWins(front), LastWins(back), t);
  }

  lemma {:induction false} KeysBelow(rows: seq<Row>, t: int)
    requires forall i :: 0 <= i < |rows| ==> rows[i].ts < t
    ensures forall ts :: ts in LastWins(rows) ==> ts < t
  {
    hide LastWins;
    LastWinsKeys(rows);
  }

  lemma {:induction false} KeysFrom(rows: seq<Row>, t: int)
    requires forall i :: 0 <= i < |rows| ==> t <= rows[i].ts
    ensures forall ts :: ts in LastWins(rows) ==> t <= ts
  {
    hide LastWins;
    LastWinsKeys(rows);
  }

  lemma {:induction false} SplitByThreshold(front: Timeline, back: Timeline, t: int)
    requires forall ts :: ts in front ==> ts < t
    requires forall ts :: ts in back ==> t <= ts
    ensures front == Until(front + back, t)
    ensures back == Since(front + back, t)
  {
    assert forall ts :: ts in Until(front + back, t) <==> ts in front;
  }

  lemma {:induction false} SliceIsRestriction(rows: seq<Row>, start: int, end: int)
    requires Ascending(rows)
    ensures Ascending(Slice(rows, start, end))
    ensures LastWins(Slice(rows, start, end)) == Restrict(LastWins(rows), start, end)
  {
    var left, right := LowerBound(rows, start), LowerBound(rows, end);
    CutAt(rows, end, right);
    assert Restrict(LastWins(rows), start, end) == Since(Until(LastWins(rows), end), start);
    if left <= right {
      var front := rows[..right];
      LowerBoundUnique(front, start, left);
      CutAt(front, start, left);
      assert front[left..] == Slice(rows, start, end);
    } else {
      assert rows[right].ts < start && end <= rows[right].ts;
      assert Restrict(LastWins(rows), start, end).Keys == {};
    }
  }

  lemma {:induction false} LowerBoundUnique(rows: seq<Row>, t: int, k: nat)
    requires Ascending(rows) && k <= |rows|
    requires forall i :: 0 <= i < k ==> rows[i].ts < t
    requires forall i :: k <= i < |rows| ==> t <= rows[i].ts
    ensures LowerBound(rows, t) == k
  {
    if rows != [] && t <= rows[|rows| - 1].ts {
      LowerBoundUnique(rows[..|rows| - 1], t, k);
    }
  }

  predicate NonDecreasing(rows: seq<Row>) {
    forall i, j :: 0 <= i < j < |rows| ==> rows[i].ts <= rows[j].ts
  }

  /** Stable insertion: equal timestamps keep their arrival order. */
  function InsertRow(rows: seq<Row>, r: Row): (s: seq<Row>)
    requires NonDecreasing(rows)
    ensures |s| == |rows| + 1
    ensures NonDecreasing(s)
    ensures rows == [] || rows[|rows| - 1].ts <= r.ts ==> s == rows + [r]
    ensures rows != [] && rows[|rows| - 1].ts > r.ts ==> s[|s| - 1] == rows[|rows| - 1]
  {
    if rows == [] || rows[|rows| - 1].ts <= r.ts then rows + [r]
    else InsertRow(rows[..|rows| - 1], r) + [rows[|rows| - 1]]
  }

  /** Inserting after all equal timestamps overwrites, as assigning to the dictionary does. */
  lemma {:induction false} InsertOverwrites(rows: seq<Row>, r: Row)
    requires NonDecreasing(rows)
    ensures LastWins(InsertRow(rows, r)) == LastWins(rows)[r.ts := r.values]
  {
    if rows == [] || rows[|rows| - 1].ts <= r.ts {
      LastWinsAppend(rows, r);
    } else {
      var front, last := rows[..|rows| - 1], rows[|rows| - 1];
      InsertOverwrites(front, r);
      LastWinsAppend(InsertRow(front, r), last);
    }
  }

  /** `argsort(kind="stable")`. */
  function StableSort(rows: seq<Row>): (s: seq<Row>)
    ensures |s| == |rows| && NonDecreasing(s)
  {
    if rows == [] then [] else InsertRow(StableSort(rows[..|rows| - 1]), rows[|rows| - 1])
  }

  lemma {:induction false} SortKeepsLastWins(rows: seq<Row>)
    ensures LastWins(StableSort(rows)) == LastWins(rows)
  {
    if rows != [] {
      SortKeepsLastWins(rows[..|rows| - 1]);
      InsertOverwrites(StableSort(rows[..|rows| - 1]), rows[|rows| - 1]);
    }
  }

  /** Keeps the last row of every run of equal timestamps. */
  function KeepLast(rows: seq<Row>): (s: seq<Row>)
    requires NonDecreasing(rows)
    ensures Ascending(s)
    ensures rows == [] ==> s == []
    ensures rows != [] ==> s != [] && s[|s| - 1] == rows[|rows| - 1]
  {
    if rows == [] then [] else
      var front, last := rows[..|rows| - 1], rows[|rows| - 1];
      var kept := KeepLast(front);
      if front != [] && front[|front| - 1].ts == last.ts then kept[..|kept| - 1] + [last] else kept + [last]
  }

  lemma {:induction false} KeepLastKeepsLastWins(rows: seq<Row>)
    requires NonDecreasing(rows)
    ensures LastWins(KeepLast(rows)) == LastWins(rows)
  {
    hide Ascending, LastWins;
    if rows != [] {
      var front, last := rows[..|rows| - 1], rows[|rows| - 1];
      var kept := KeepLast(front);
      KeepLastKeepsLastWins(front);
      LastWinsAppend(front, last);
      assert rows == front + [last];
      LastWinsAppend(kept, last);
      if front != [] && front[|front| - 1].ts == last.ts {
        OverwriteLast(kept, last);
      }
    }
  }

  lemma {:induction false} OverwriteLast(rows: seq<Row>, r: Row)
    requires rows != [] && rows[|rows| - 1].ts == r.ts
    ensures LastWins(rows[..|rows| - 1] + [r]) == LastWins(rows + [r])
  {
    LastWinsAppend(rows[..|rows| - 1], r);
    LastWinsAppend(rows, r);
  }

  lemma {:induction false} LastWinsAppend(rows: seq<Row>, r: Row)
    ensures LastWins(rows + [r]) == LastWins(rows)[r.ts := r.values]
  {
    assert (rows + [r])[..|rows|] == rows;
  }

  // -------------------------------------------------------------- chunks

  /** The chunk as it was known before `end`: later rows and coverage are cut off. */
  method Before(c: Chunk, end: int) returns (r: Chunk)
    requires WellFormed(c)
    ensures WellFormed(r)
    ensures forall t :: Covered(r.coverage, t) <==> Covered(c.coverage, t) && t < end
    ensures r.rows == c.rows[..LowerBound(c.rows, end)]
  {
    var clipped := seq(|c.coverage|, i requires 0 <= i < |c.coverage| =>
      Interval(c.coverage[i].lo, Min(c.coverage[i].hi, end)));
    forall t ensures Covered(clipped, t) <==> Covered(c.coverage, t) && t < end {
      if Covered(clipped, t) {
        var i :| 0 <= i < |clipped| && Inside(t, clipped[i]);
        assert Inside(t, c.coverage[i]);
      }
      if Covered(c.coverage, t) && t < end {
        var i :| 0 <= i < |c.coverage| && Inside(t, c.coverage[i]);
        assert Inside(t, clipped[i]);
      }
    }
    var coverage := Union(clipped);
    r := Chunk(c.rows[..LowerBound(c.rows, end)], coverage);
  }

  /** Adds freshly fetched rows and the interval they were fetched for; fresh values win. */
  method Merge(c: Chunk, added: seq<Row>, covered: Interval) returns (r: Chunk)
    requires WellFormed(c)
    requires forall i :: 0 <= i < |added| ==> Inside(added[i].ts, covered)
    ensures WellFormed(r)
    ensures forall t :: Covered(r.coverage, t) <==> Covered(c.coverage, t) || Inside(t, covered)
    ensures LastWins(r.rows) == LastWins(c.rows) + LastWins(added)
  {
    var coverage := Union(c.coverage + [covered]);
    CoveredAppend(c.coverage, covered);
    LastWinsConcat(c.rows, added);
    SortKeepsLastWins(c.rows + added);
    KeepLastKeepsLastWins(StableSort(c.rows + added));
    r := Chunk(KeepLast(StableSort(c.rows + added)), coverage);
    MergedRowsCovered(c, added, covered, r);
  }

  lemma {:induction false} MergedRowsCovered(c: Chunk, added: seq<Row>, covered: Interval, r: Chunk)
    requires WellFormed(c)
    requires forall i :: 0 <= i < |added| ==> Inside(added[i].ts, covered)
    requires LastWins(r.rows) == LastWins(c.rows) + LastWins(added)
    requires forall t :: Covered(r.coverage, t) <==> Covered(c.coverage, t) || Inside(t, covered)
    ensures WithinCoverage(r.rows, r.coverage)
  {
    LastWinsKeys(r.rows);
    LastWinsKeys(c.rows);
    LastWinsKeys(added);
    forall i | 0 <= i < |r.rows| ensures Covered(r.coverage, r.rows[i].ts) {
      var ts := r.rows[i].ts;
      assert Stamped(r.rows, ts);
      assert Stamped(c.rows, ts) || Stamped(added, ts);
    }
  }

  lemma {:induction false} BeforeStaysHonest(c: Chunk, end: int, r: Chunk, tl: Timeline)
    requires Honest(c, tl) && WellFormed(r)
    requires forall t :: Covered(r.coverage, t) <==> Covered(c.coverage, t) && t < end
    requires r.rows == c.rows[..LowerBound(c.rows, end)]
    ensures Honest(r, tl)
  {
    CutAt(c.rows, end, LowerBound(c.rows, end));
  }

  /** Merging upstream's own rows for an interval keeps a chunk honest. */
  lemma {:induction false} MergeStaysHonest(c: Chunk, added: seq<Row>, covered: Interval, r: Chunk, tl: Timeline)
    requires Honest(c, tl) && WellFormed(r)
    requires LastWins(added) == Restrict(tl, covered.lo, covered.hi)
    requires forall t :: Covered(r.coverage, t) <==> Covered(c.coverage, t) || Inside(t, covered)
    requires LastWins(r.rows) == LastWins(c.rows) + LastWins(added)
    ensures Honest(r, tl)
  {}

  /** What an honest chunk serves inside its coverage is what upstream holds there. */
  lemma {:induction false} HonestSlice(c: Chunk, start: int, end: int, tl: Timeline)
    requires Honest(c, tl)
    requires forall t :: start <= t < end ==> Covered(c.coverage, t)
    ensures Ascending(Slice(c.rows, start, end))
    ensures LastWins(Slice(c.rows, start, end)) == Restrict(tl, start, end)
  {
    SliceIsRestriction(c.rows, start, end);
  }

  // --------------------------------------------------------------- codec

  datatype Timeframe = Minutes(amount: nat) | Daily

  /** One cache key: `carch:bars:v2:<timeframe>:<symbol>:<month>`. */
  datatype Key = Key(timeframe: Timeframe, symbol: string, month: YearMonth)

  /** Stored bytes, as far as reading them back can tell: unreadable, or a table with metadata. */
  datatype Payload =
    | Garbage
    | Table(version: int, symbol: string, timeframe: Timeframe, month: YearMonth,
            coverage: seq<Interval>, schemaValid: bool, nulls: bool, rows: seq<Row>)

  function Encode(c: Chunk, key: Key): Payload {
    Table(2, key.symbol, key.timeframe, key.month, c.coverage, true, false, c.rows)
  }

  predicate InMonth(coverage: seq<Interval>, start: int, end: int) {
    forall i :: 0 <= i < |coverage| ==> start <= coverage[i].lo < coverage[i].hi <= end
  }

  /** A payload is readable exactly when it is a well-formed chunk of the key's own month. */
  predicate Readable(p: Payload, key: Key)
    requires ValidMonth(key.month)
  {
    var start, end := MonthStart(key.month), MonthStart(NextMonth(key.month));
    && p.Table? && p.schemaValid && !p.nulls
    && p.version == 2 && p.symbol == key.symbol && p.timeframe == key.timeframe && p.month == key.month
    && InMonth(p.coverage, start, end)
    && WellFormed(Chunk(p.rows, p.coverage))
  }

  /** The coverage mask, one interval after the other. */
  method AllCovered(rows: seq<Row>, coverage: seq<Interval>) returns (all: bool)
    ensures all <==> forall i :: 0 <= i < |rows| ==> Covered(coverage, rows[i].ts)
  {
    hide Covered;
    var covered := seq(|rows|, i => false);
    NothingCovered(rows);
    for j := 0 to |coverage|
      invariant |covered| == |rows|
      invariant forall i :: 0 <= i < |rows| ==> (covered[i] <==> Covered(coverage[..j], rows[i].ts))
    {
      CoveredAppend(coverage[..j], coverage[j]);
      assert coverage[..j + 1] == coverage[..j] + [coverage[j]];
      covered := seq(|rows|, i requires 0 <= i < |rows| && |covered| == |rows| =>
        covered[i] || Inside(rows[i].ts, coverage[j]));
    }
    assert coverage[..|coverage|] == coverage;
    all := forall i :: 0 <= i < |covered| ==> covered[i];
  }

  lemma {:induction false} NothingCovered(rows: seq<Row>)
    ensures forall i :: 0 <= i < |rows| ==> !Covered([], rows[i].ts)
  {}

  /** Validates and reads a payload, with the source's checks in the source's order. */
  method Decode(p: Payload, key: Key) returns (r: Result<Chunk>)
    requires ValidMonth(key.month)
    ensures r.Success? <==> Readable(p, key)
    ensures r.Success? ==> r.value == Chunk(p.rows, p.coverage)
  {
    hide Covered, Canonical, SamePoints, MonthStart, InMonth;
    var start, end := MonthStart(key.month), MonthStart(NextMonth(key.month));
    if p.Garbage? { return Failure("unreadable payload"); }
    if !p.schemaValid { return Failure("invalid bars schema"); }
    if p.version != 2 || p.symbol != key.symbol || p.timeframe != key.timeframe || p.month != key.month {
      return Failure("invalid bars identity");
    }
    if !InMonth(p.coverage, start, end) { return Failure("invalid bars coverage"); }
    var canonical := Union(p.coverage);
    UnionFixesCanonical(p.coverage, canonical);
    if p.coverage != canonical { return Failure("noncanonical bars coverage"); }
    if p.nulls { return Failure("null bars values"); }
    if Readable(p, key) { ReadableRowsInMonth(p, key); }
    if |p.rows| > 0 && (!Ascending(p.rows) || p.rows[0].ts < start || p.rows[|p.rows| - 1].ts >= end) {
      return Failure("unsorted, duplicate, or out-of-month bars");
    }
    var all := AllCovered(p.rows, p.coverage);
    if !all { return Failure("bars outside declared coverage"); }
    r := Success(Chunk(p.rows, p.coverage));
  }

  /** A readable payload's rows lie in its month even though only coverage is compared with it. */
  lemma {:induction false} ReadableRowsInMonth(p: Payload, key: Key)
    requires ValidMonth(key.month) && Readable(p, key)
    ensures forall i :: 0 <= i < |p.rows| ==>
              MonthStart(key.month) <= p.rows[i].ts < MonthStart(NextMonth(key.month))
  {
    forall i | 0 <= i < |p.rows|
      ensures MonthStart(key.month) <= p.rows[i].ts < MonthStart(NextMonth(key.month))
    {
      assert Covered(p.coverage, p.rows[i].ts);
      var j :| 0 <= j < |p.coverage| && Inside(p.rows[i].ts, p.coverage[j]);
    }
  }

  lemma {:induction false} UnionFixesCanonical(coverage: seq<Interval>, canonical: seq<Interval>)
    requires Canonical(canonical) && SamePoints(canonical, coverage)
    ensures coverage == canonical <==> Canonical(coverage)
  {
    if Canonical(coverage) {
      CanonicalUnique(coverage, canonical);
    }
  }
}
