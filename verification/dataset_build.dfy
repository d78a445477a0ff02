/** Assembling the rows of many symbols, and selecting some of them again. */
module DatasetBuild {
  import opened Wrappers
  import opened Collections
  import opened Broker
  import opened BarSeries
  import opened Dataset
  import opened DatasetLaws

  // ----------------------------------------------------------------- order

  /** Python's order on strings. */
  predicate Less(a: string, b: string) {
    if b == "" then false
    else if a == "" then true
    else if a[0] != b[0] then a[0] < b[0]
    else Less(a[1..], b[1..])
  }

  lemma {:induction false} LessTotal(a: string, b: string)
    ensures !Less(a, a)
    ensures a != b ==> Less(a, b) != Less(b, a)
    decreases |a|
  {
    if a != "" {
      LessTotal(a[1..], if b == "" then "" else b[1..]);
      assert a == [a[0]] + a[1..];
      if b != "" { assert b == [b[0]] + b[1..]; }
    }
  }

  lemma {:induction false} LessTransitive(a: string, b: string, c: string)
    requires Less(a, b) && Less(b, c)
    ensures Less(a, c)
    decreases |a|
  {
    if a != "" && a[0] == b[0] && b[0] == c[0] {
      LessTransitive(a[1..], b[1..], c[1..]);
    }
  }

  /** The sort key of records: time, then symbol. */
  predicate Before(a: Row, b: Row) {
    a.at < b.at || (a.at == b.at && Less(a.symbol, b.symbol))
  }

  predicate SameKey(a: Row, b: Row) {
    a.at == b.at && a.symbol == b.symbol
  }

  lemma {:induction false} BeforeTotal(a: Row, b: Row)
    ensures !Before(a, a) && (SameKey(a, b) || Before(a, b) != Before(b, a))
  {
    LessTotal(a.symbol, b.symbol);
    LessTotal(a.symbol, a.symbol);
  }

  lemma {:induction false} BeforeTransitive(a: Row, b: Row, c: Row)
    requires Before(a, b) && Before(b, c)
    ensures Before(a, c)
  {
    if a.at == b.at == c.at { LessTransitive(a.symbol, b.symbol, c.symbol); }
  }

  predicate Ascending(rows: seq<Row>) {
    forall i, j :: 0 <= i < j < |rows| ==> Before(rows[i], rows[j])
  }

  function InsertRow(rows: seq<Row>, r: Row): seq<Row> {
    if rows == [] || !Before(r, rows[|rows| - 1]) then rows + [r]
    else InsertRow(rows[..|rows| - 1], r) + [rows[|rows| - 1]]
  }

  /** `records.sort`, stable on equal keys. */
  function SortRows(rows: seq<Row>): seq<Row> {
    if rows == [] then [] else InsertRow(SortRows(rows[..|rows| - 1]), rows[|rows| - 1])
  }

  lemma {:induction false} InsertRowIs(rows: seq<Row>, r: Row)
    requires Ascending(rows) && forall x :: x in rows ==> !SameKey(x, r)
    ensures Ascending(InsertRow(rows, r)) && forall x :: x in InsertRow(rows, r) <==> x == r || x in rows
  {
    hide Before, SameKey;
    if rows != [] {
      var front, last := rows[..|rows| - 1], rows[|rows| - 1];
      assert rows == front + [last] && last in rows;
      BeforeTotal(r, last);
      BeforeTotal(last, r);
      if Before(r, last) {
        assert forall x :: x in front ==> x in rows && Before(x, last);
        InsertRowIs(front, r);
        AppendRow(InsertRow(front, r), last);
      } else {
        assert Before(last, r) by { KeysDiffer(last, r); }
        forall x | x in rows ensures Before(x, r) {
          if x != last { BeforeTransitive(x, last, r); }
        }
        AppendRow(rows, r);
      }
    }
  }

  lemma {:induction false} KeysDiffer(a: Row, b: Row)
    requires !SameKey(a, b) && !Before(b, a)
    ensures Before(a, b)
  {
    BeforeTotal(a, b);
  }

  lemma {:induction false} AppendRow(rows: seq<Row>, r: Row)
    requires Ascending(rows) && forall x :: x in rows ==> Before(x, r)
    ensures Ascending(rows + [r])
  {}

  predicate DistinctKeys(rows: seq<Row>) {
    forall i, j :: 0 <= i < j < |rows| ==> !SameKey(rows[i], rows[j])
  }

  lemma {:induction false} SortRowsIs(rows: seq<Row>)
    requires DistinctKeys(rows)
    ensures Ascending(SortRows(rows)) && forall x :: x in SortRows(rows) <==> x in rows
  {
    hide SameKey, InsertRow, Ascending, Before;
    if rows != [] {
      var front, last := rows[..|rows| - 1], rows[|rows| - 1];
      assert rows == front + [last];
      SortRowsIs(front);
      InsertRowIs(SortRows(front), last);
    } else {
      assert Ascending([]) by { NoRows(); }
    }
  }

  lemma {:induction false} NoRows()
    ensures Ascending([])
  {}

  /** Two ascending sequences with the same members are the same. */
  lemma {:induction false} AscendingUnique(a: seq<Row>, b: seq<Row>)
    requires Ascending(a) && Ascending(b) && forall x :: x in a <==> x in b
    ensures a == b
  {
    hide Before;
    if a == [] {
      HasMember(b);
    } else {
      var x := a[|a| - 1];
      assert x in a && x in b;
      var y := b[|b| - 1];
      assert y in b && y in a;
      LastIsLast(a, y);
      LastIsLast(b, x);
      AscendingFront(a);
      AscendingFront(b);
      BothLast(x, y);
      var frontA, frontB := a[..|a| - 1], b[..|b| - 1];
      forall z ensures z in frontA <==> z in frontB {
        assert z in a <==> z in b;
      }
      AscendingUnique(frontA, frontB);
    }
  }

  lemma {:induction false} BothLast(x: Row, y: Row)
    requires (x == y || Before(y, x)) && (x == y || Before(x, y))
    ensures x == y
  {
    BeforeTotal(x, y);
    if Before(x, y) && Before(y, x) { BeforeTransitive(x, y, x); BeforeTotal(x, x); }
  }

  lemma {:induction false} LastIsLast(a: seq<Row>, y: Row)
    requires Ascending(a) && y in a
    ensures y == a[|a| - 1] || Before(y, a[|a| - 1])
  {}

  lemma {:induction false} AscendingFront(a: seq<Row>)
    requires Ascending(a) && a != []
    ensures Ascending(a[..|a| - 1]) && forall x :: x in a[..|a| - 1] <==> x in a && x != a[|a| - 1]
  {
    forall i | 0 <= i < |a| - 1 ensures a[i] != a[|a| - 1] {
      BeforeTotal(a[i], a[i]);
      assert Before(a[i], a[|a| - 1]);
    }
  }

  // ----------------------------------------------------------------- build

  datatype Evidence = Evidence(
    expected: nat, attempted: nat, ready: nat, rejections: multiset<string>, usable: nat)

  datatype ModelDataset = ModelDataset(rows: seq<Row>, attempted: real, evidence: map<string, Evidence>)

  /** In-window bars whose feature vector is finite. */
  function ReadyCount(w: Split, p: Prepared, n: nat): nat
    requires n <= |p.bars| == |p.matrix|
  {
    if n == 0 then 0 else
      ReadyCount(w, p, n - 1) + if InWindow(w, p.bars[n - 1]) && p.matrix[n - 1].Some? then 1 else 0
  }

  function EvidenceOf(w: Split, target: Target, forward: Returns, symbol: string, p: Prepared): Evidence
    requires |p.matrix| == |p.bars| && w.horizon >= 1
  {
    Evidence(|ExpectedTimes(w, p)|, InWindowCount(w, p.bars), ReadyCount(w, p, |p.bars|),
             multiset(Reasons(w, forward, p, |p.bars|)), |Rows(w, target, forward, symbol, p, |p.bars|)|)
  }

  predicate AllPrepared(prepared: map<string, Prepared>, symbols: seq<string>) {
    forall s :: s in symbols ==> s in prepared && |prepared[s].matrix| == |prepared[s].bars|
  }

  /** The rows of the symbols, one symbol after the other. */
  function AllRows(w: Split, target: Target, forward: Returns, prepared: map<string, Prepared>, symbols: seq<string>): seq<Row>
    requires AllPrepared(prepared, symbols) && w.horizon >= 1
  {
    if symbols == [] then [] else
      var s := symbols[|symbols| - 1];
      AllRows(w, target, forward, prepared, symbols[..|symbols| - 1]) +
      Rows(w, target, forward, s, prepared[s], |prepared[s].bars|)
  }

  function AllEvidence(w: Split, target: Target, forward: Returns, prepared: map<string, Prepared>, symbols: seq<string>)
    : map<string, Evidence>
    requires AllPrepared(prepared, symbols) && w.horizon >= 1
  {
    map s | s in symbols :: EvidenceOf(w, target, forward, s, prepared[s])
  }

  function Attempts(evidence: map<string, Evidence>): map<string, real> {
    map s | s in evidence :: evidence[s].attempted as real
  }

  ghost function Build(w: Split, target: Target, forward: Returns, prepared: map<string, Prepared>, symbols: seq<string>): ModelDataset
    requires AllPrepared(prepared, symbols) && w.horizon >= 1
  {
    var evidence := AllEvidence(w, target, forward, prepared, symbols);
    ModelDataset(SortRows(AllRows(w, target, forward, prepared, symbols)), Sum(Attempts(evidence)), evidence)
  }

  /** `window_evidence` and the row loop of one symbol. */
  method SymbolEvidence(w: Split, target: Target, forward: Returns, symbol: string, p: Prepared)
    returns (records: seq<Row>, evidence: Evidence)
    requires |p.matrix| == |p.bars| && w.horizon >= 1
    ensures records == Rows(w, target, forward, symbol, p, |p.bars|)
    ensures evidence == EvidenceOf(w, target, forward, symbol, p)
  {
    hide Reason, Rows, Reasons, ExpectedTimes;
    var attempted, ready := 0, 0;
    for i := 0 to |p.bars|
      invariant attempted == InWindowCount(w, p.bars[..i]) && ready == ReadyCount(w, p, i)
    {
      assert p.bars[..i + 1][..i] == p.bars[..i];
      if w.start <= p.bars[i].at < w.end {
        attempted := attempted + 1;
        if p.matrix[i].Some? {
          ready := ready + 1;
        }
      }
    }
    assert p.bars[..|p.bars|] == p.bars;
    var rejects;
    records, rejects := SymbolRows(w, target, forward, symbol, p);
    EveryBarAccounted(w, target, forward, symbol, p, |p.bars|);
    evidence := Evidence(|ExpectedTimes(w, p)|, attempted, ready, rejects, attempted - |rejects|);
  }

  /** `dataset_from_prepared`. */
  method BuildDataset(w: Split, target: Target, forward: Returns, prepared: map<string, Prepared>, symbols: seq<string>)
    returns (d: ModelDataset)
    requires AllPrepared(prepared, symbols) && w.horizon >= 1
    ensures d == Build(w, target, forward, prepared, symbols)
  {
    hide Rows, EvidenceOf, Sum;
    var records, evidence := [], map[];
    for i := 0 to |symbols|
      invariant records == AllRows(w, target, forward, prepared, symbols[..i])
      invariant evidence == AllEvidence(w, target, forward, prepared, symbols[..i])
    {
      assert symbols[..i + 1][..i] == symbols[..i];
      assert symbols[i] in symbols;
      var rows, stats := SymbolEvidence(w, target, forward, symbols[i], prepared[symbols[i]]);
      records := records + rows;
      evidence := evidence[symbols[i] := stats];
    }
    assert symbols[..|symbols|] == symbols;
    var attempted := SumValues(Attempts(evidence));
    d := ModelDataset(SortRows(records), attempted, evidence);
  }

  // ---------------------------------------------------------------- select

  function Filter(rows: seq<Row>, selected: set<string>): seq<Row> {
    if rows == [] then [] else
      Filter(rows[..|rows| - 1], selected) + if rows[|rows| - 1].symbol in selected then [rows[|rows| - 1]] else []
  }

  /** `select_symbols`. */
  ghost function Select(d: ModelDataset, selected: set<string>): ModelDataset {
    var evidence := map s | s in d.evidence && s in selected :: d.evidence[s];
    ModelDataset(Filter(d.rows, selected), Sum(Attempts(evidence)), evidence)
  }

  lemma {:induction false} FilterIs(rows: seq<Row>, selected: set<string>)
    requires Ascending(rows)
    ensures Ascending(Filter(rows, selected))
    ensures forall x :: x in Filter(rows, selected) <==> x in rows && x.symbol in selected
  {
    hide Before, Ascending;
    if rows != [] {
      var front, last := rows[..|rows| - 1], rows[|rows| - 1];
      assert rows == front + [last];
      AscendingFront(rows);
      FilterIs(front, selected);
      forall x | x in front ensures Before(x, last) {
        LastIsLast(rows, x);
      }
      AppendRow(Filter(front, selected), last);
      assert Filter(front, selected) + [] == Filter(front, selected);
    }
  }

  predicate Distinct(symbols: seq<string>) {
    forall i, j :: 0 <= i < j < |symbols| ==> symbols[i] != symbols[j]
  }

  predicate AllIncreasing(prepared: map<string, Prepared>, symbols: seq<string>) {
    forall s :: s in symbols && s in prepared ==> StrictlyIncreasing(prepared[s].bars)
  }

  /** Across distinct symbols no two rows share a key, and each row belongs to its symbol. */
  lemma {:induction false} AllRowsAre(w: Split, target: Target, forward: Returns, prepared: map<string, Prepared>, symbols: seq<string>)
    requires AllPrepared(prepared, symbols) && w.horizon >= 1 && Distinct(symbols) && AllIncreasing(prepared, symbols)
    ensures DistinctKeys(AllRows(w, target, forward, prepared, symbols))
    ensures forall r :: r in AllRows(w, target, forward, prepared, symbols) <==>
              r.symbol in symbols && r in Rows(w, target, forward, r.symbol, prepared[r.symbol], |prepared[r.symbol].bars|)
  {
    hide Rows;
    if symbols != [] {
      var front, s := symbols[..|symbols| - 1], symbols[|symbols| - 1];
      assert symbols == front + [s];
      AllRowsAre(w, target, forward, prepared, front);
      RowsIncrease(w, target, forward, s, prepared[s], |prepared[s].bars|);
      var a, b := AllRows(w, target, forward, prepared, front), Rows(w, target, forward, s, prepared[s], |prepared[s].bars|);
      JoinDistinct(a, b, s);
    }
  }

  lemma {:induction false} JoinDistinct(a: seq<Row>, b: seq<Row>, s: string)
    requires DistinctKeys(a) && (forall r :: r in a ==> r.symbol != s) && (forall r :: r in b ==> r.symbol == s)
    requires TimesIncrease(b)
    ensures DistinctKeys(a + b)
  {
    forall i, j | 0 <= i < j < |a + b| ensures !SameKey((a + b)[i], (a + b)[j]) {
      if i < |a| {
        assert a[i] in a;
        if j >= |a| { assert b[j - |a|] in b; }
      }
    }
  }

  /** In sort order, equal keys allowed. */
  predicate Ordered(rows: seq<Row>) {
    forall i, j :: 0 <= i < j < |rows| ==> !Before(rows[j], rows[i])
  }

  lemma {:induction false} NotBeforeTransitive(a: Row, b: Row, c: Row)
    requires !Before(c, b) && !Before(b, a)
    ensures !Before(c, a)
  {
    hide Less;
    BeforeTotal(b, a);
    if Before(c, a) && Before(a, b) { BeforeTransitive(c, a, b); }
  }

  lemma {:induction false} InsertRowOrders(rows: seq<Row>, r: Row)
    requires Ordered(rows)
    ensures Ordered(InsertRow(rows, r)) && forall x :: x in InsertRow(rows, r) <==> x == r || x in rows
  {
    hide Before;
    if rows != [] {
      var front, last := rows[..|rows| - 1], rows[|rows| - 1];
      assert rows == front + [last];
      if Before(r, last) {
        BeforeTotal(r, last);
        InsertRowOrders(front, r);
        forall x | x in InsertRow(front, r) ensures !Before(last, x) {
          if x == r { AfterIsNotBefore(r, last); }
        }
        AppendOrdered(InsertRow(front, r), last);
      } else {
        NoneAfter(rows, r);
        AppendOrdered(rows, r);
      }
    }
  }

  lemma {:induction false} AfterIsNotBefore(a: Row, b: Row)
    requires Before(a, b)
    ensures !Before(b, a)
  {
    BeforeTotal(a, a);
    if Before(b, a) { BeforeTransitive(a, b, a); }
  }

  /** What does not come before the last row comes before none. */
  lemma {:induction false} NoneAfter(rows: seq<Row>, r: Row)
    requires Ordered(rows) && rows != [] && !Before(r, rows[|rows| - 1])
    ensures forall x :: x in rows ==> !Before(r, x)
  {
    hide Before;
    forall i | 0 <= i < |rows| ensures !Before(r, rows[i]) {
      if i < |rows| - 1 { NotBeforeTransitive(rows[i], rows[|rows| - 1], r); }
    }
  }

  lemma {:induction false} AppendOrdered(rows: seq<Row>, r: Row)
    requires Ordered(rows) && forall x :: x in rows ==> !Before(r, x)
    ensures Ordered(rows + [r])
  {
    hide Before;
  }

  lemma {:induction false} SortRowsOrders(rows: seq<Row>)
    ensures Ordered(SortRows(rows))
  {
    hide Before, InsertRow;
    if rows != [] {
      SortRowsOrders(rows[..|rows| - 1]);
      InsertRowOrders(SortRows(rows[..|rows| - 1]), rows[|rows| - 1]);
    }
  }

  lemma {:induction false} FilterAppends(rows: seq<Row>, r: Row, selected: set<string>)
    ensures Filter(rows + [r], selected) == Filter(rows, selected) + if r.symbol in selected then [r] else []
  {
    assert (rows + [r])[..|rows|] == rows;
  }

  lemma {:induction false} FilterMembers(rows: seq<Row>, selected: set<string>)
    ensures forall x :: x in Filter(rows, selected) ==> x in rows
  {
    if rows != [] { FilterMembers(rows[..|rows| - 1], selected); }
  }

  /** Filtering an insertion inserts into the filtered rows, or leaves them. */
  lemma {:induction false} FilterOfInsert(rows: seq<Row>, r: Row, selected: set<string>)
    requires Ordered(rows)
    ensures Filter(InsertRow(rows, r), selected) ==
              if r.symbol in selected then InsertRow(Filter(rows, selected), r) else Filter(rows, selected)
  {
    hide Before, Ordered, Filter;
    if rows == [] || !Before(r, rows[|rows| - 1]) {
      FilterAppends(rows, r, selected);
      if rows != [] { NoneAfter(rows, r); }
      FilterMembers(rows, selected);
      InsertLast(Filter(rows, selected), r);
    } else {
      var front, last := rows[..|rows| - 1], rows[|rows| - 1];
      assert rows == front + [last];
      assert Ordered(front) by { FrontOrdered(rows); }
      FilterOfInsert(front, r, selected);
      FilterAppends(InsertRow(front, r), last, selected);
      FilterAppends(front, last, selected);
      if last.symbol in selected {
        InsertBelow(Filter(front, selected), last, r);
      } else {
        assert Filter(front, selected) + [] == Filter(front, selected);
        assert Filter(InsertRow(front, r), selected) + [] == Filter(InsertRow(front, r), selected);
      }
    }
  }

  lemma {:induction false} FrontOrdered(rows: seq<Row>)
    requires Ordered(rows) && rows != []
    ensures Ordered(rows[..|rows| - 1])
  {
    hide Before;
  }

  lemma {:induction false} InsertLast(rows: seq<Row>, r: Row)
    requires forall x :: x in rows ==> !Before(r, x)
    ensures InsertRow(rows, r) == rows + [r]
  {
    hide Before;
  }

  lemma {:induction false} InsertBelow(front: seq<Row>, last: Row, r: Row)
    requires Before(r, last)
    ensures InsertRow(front + [last], r) == InsertRow(front, r) + [last]
  {
    hide Before;
    assert (front + [last])[..|front|] == front;
  }

  /** The stable sort and the filter commute. */
  lemma {:induction false} FilterOfSort(rows: seq<Row>, selected: set<string>)
    ensures Filter(SortRows(rows), selected) == SortRows(Filter(rows, selected))
  {
    hide InsertRow, Ordered;
    if rows != [] {
      var front, last := rows[..|rows| - 1], rows[|rows| - 1];
      FilterOfSort(front, selected);
      SortRowsOrders(front);
      FilterOfInsert(SortRows(front), last, selected);
      var kept := Filter(front, selected);
      assert (kept + [last])[..|kept|] == kept;
      assert kept + [] == kept;
    }
  }

  lemma {:induction false} FilterJoins(a: seq<Row>, b: seq<Row>, selected: set<string>)
    ensures Filter(a + b, selected) == Filter(a, selected) + Filter(b, selected)
  {
    hide Filter;
    if b == [] {
      assert a + b == a;
      NothingFiltered(selected);
    } else {
      var front, last := b[..|b| - 1], b[|b| - 1];
      assert a + b == (a + front) + [last] && b == front + [last];
      FilterJoins(a, front, selected);
      FilterAppends(a + front, last, selected);
      FilterAppends(front, last, selected);
    }
  }

  lemma {:induction false} NothingFiltered(selected: set<string>)
    ensures Filter([], selected) == []
  {}

  lemma {:induction false} FilterOneSymbol(rows: seq<Row>, s: string, selected: set<string>)
    requires forall r :: r in rows ==> r.symbol == s
    ensures Filter(rows, selected) == if s in selected then rows else []
  {
    if rows != [] {
      assert rows == rows[..|rows| - 1] + [rows[|rows| - 1]];
      FilterOneSymbol(rows[..|rows| - 1], s, selected);
    }
  }

  lemma {:induction false} RowsName(w: Split, target: Target, forward: Returns, s: string, p: Prepared, n: nat)
    requires n <= |p.bars| == |p.matrix| && w.horizon >= 1
    ensures forall r :: r in Rows(w, target, forward, s, p, n) ==> r.symbol == s
  {
    if n > 0 { RowsName(w, target, forward, s, p, n - 1); }
  }

  /** The requested symbols that are selected, repetitions included. */
  function Chosen(symbols: seq<string>, selected: set<string>): seq<string> {
    if symbols == [] then [] else
      Chosen(symbols[..|symbols| - 1], selected) +
      if symbols[|symbols| - 1] in selected then [symbols[|symbols| - 1]] else []
  }

  lemma {:induction false} ChosenAre(symbols: seq<string>, selected: set<string>)
    ensures forall s :: s in Chosen(symbols, selected) <==> s in symbols && s in selected
  {
    if symbols != [] {
      ChosenAre(symbols[..|symbols| - 1], selected);
      assert symbols == symbols[..|symbols| - 1] + [symbols[|symbols| - 1]];
    }
  }

  lemma {:induction false} FilterAllRows(
    w: Split, target: Target, forward: Returns, prepared: map<string, Prepared>, symbols: seq<string>, selected: set<string>)
    requires AllPrepared(prepared, symbols) && w.horizon >= 1
    ensures AllPrepared(prepared, Chosen(symbols, selected))
    ensures Filter(AllRows(w, target, forward, prepared, symbols), selected) ==
              AllRows(w, target, forward, prepared, Chosen(symbols, selected))
  {
    hide Rows, Filter;
    ChosenAre(symbols, selected);
    if symbols == [] {
      NothingFiltered(selected);
    } else {
      var front, s := symbols[..|symbols| - 1], symbols[|symbols| - 1];
      assert symbols == front + [s];
      var rows := Rows(w, target, forward, s, prepared[s], |prepared[s].bars|);
      FilterAllRows(w, target, forward, prepared, front, selected);
      FilterJoins(AllRows(w, target, forward, prepared, front), rows, selected);
      RowsName(w, target, forward, s, prepared[s], |prepared[s].bars|);
      FilterOneSymbol(rows, s, selected);
      var kept := Chosen(front, selected);
      assert (kept + [s])[..|kept|] == kept && kept + [] == kept;
    }
  }

  /** Building for many symbols and selecting some is building for those alone, whatever the lists repeat or lack. */
  lemma {:induction false} SelectCommutes(
    w: Split, target: Target, forward: Returns, prepared: map<string, Prepared>, symbols: seq<string>, selected: set<string>)
    requires AllPrepared(prepared, symbols) && w.horizon >= 1
    ensures AllPrepared(prepared, Chosen(symbols, selected))
    ensures Select(Build(w, target, forward, prepared, symbols), selected) ==
              Build(w, target, forward, prepared, Chosen(symbols, selected))
  {
    hide EvidenceOf, Sum, SortRows, AllRows, Filter, Chosen;
    ChosenAre(symbols, selected);
    FilterAllRows(w, target, forward, prepared, symbols, selected);
    FilterOfSort(AllRows(w, target, forward, prepared, symbols), selected);
    var evidence := AllEvidence(w, target, forward, prepared, symbols);
    assert (map s | s in evidence && s in selected :: evidence[s]) ==
           AllEvidence(w, target, forward, prepared, Chosen(symbols, selected));
  }

  /** Of distinct symbols, neither the order asked for nor the order selected in matters. */
  lemma {:induction false} SelectInAnyOrder(
    w: Split, target: Target, forward: Returns, prepared: map<string, Prepared>, symbols: seq<string>, chosen: seq<string>)
    requires AllPrepared(prepared, symbols) && w.horizon >= 1 && Distinct(symbols) && AllIncreasing(prepared, symbols)
    requires Distinct(chosen) && forall s :: s in chosen ==> s in symbols
    ensures Select(Build(w, target, forward, prepared, symbols), set s | s in chosen) ==
              Build(w, target, forward, prepared, chosen)
  {
    hide Rows, EvidenceOf, Sum, SortRows, AllRows, Filter, Ascending, DistinctKeys;
    var selected := set s | s in chosen;
    var all, some := AllRows(w, target, forward, prepared, symbols), AllRows(w, target, forward, prepared, chosen);
    AllRowsAre(w, target, forward, prepared, symbols);
    AllRowsAre(w, target, forward, prepared, chosen);
    SortRowsIs(all);
    SortRowsIs(some);
    FilterIs(SortRows(all), selected);
    AscendingUnique(Filter(SortRows(all), selected), SortRows(some));
    var evidence := AllEvidence(w, target, forward, prepared, symbols);
    assert (map s | s in evidence && s in selected :: evidence[s]) == AllEvidence(w, target, forward, prepared, chosen);
  }

  /** The counts of one symbol add up, and its usable rows are ready ones and no more than expected. */
  lemma {:induction false} EvidenceAddsUp(w: Split, target: Target, forward: Returns, symbol: string, p: Prepared)
    requires ValidSplit(w) && ValidPrepared(w, p)
    ensures
      var e := EvidenceOf(w, target, forward, symbol, p);
      e.usable + |e.rejections| == e.attempted && e.usable <= e.expected && e.usable <= e.ready <= e.attempted
  {
    hide Rows, Reasons, ExpectedTimes, InWindow;
    EveryBarAccounted(w, target, forward, symbol, p, |p.bars|);
    assert p.bars[..|p.bars|] == p.bars;
    UsableWithinExpected(w, target, forward, symbol, p);
    UsableAreReady(w, target, forward, symbol, p, |p.bars|);
  }

  lemma {:induction false} UsableAreReady(w: Split, target: Target, forward: Returns, symbol: string, p: Prepared, n: nat)
    requires n <= |p.bars| == |p.matrix| && w.horizon >= 1
    ensures |Rows(w, target, forward, symbol, p, n)| <= ReadyCount(w, p, n) <= InWindowCount(w, p.bars[..n])
  {
    hide InWindow, LeavesSession, OnStep;
    if n > 0 {
      assert p.bars[..n][..n - 1] == p.bars[..n - 1];
      UsableAreReady(w, target, forward, symbol, p, n - 1);
    }
  }
}
