/** Shuffling bar returns, with the two permutations as parameters. */
module BarPermutation {
  import opened Broker

  /** High, low and close as ratios to the open, and the volume that travels with them. */
  datatype Intrabar = Intrabar(high: real, low: real, close: real, volume: real)

  /** `exp(_log_ratio(price, reference))`: a price that is not positive counts as no move. */
  function Ratio(price: real, reference: real): (r: real)
    ensures r > 0.0
  {
    if price <= 0.0 || reference <= 0.0 then 1.0 else price / reference
  }

  function Times(a: real, b: real): real {
    a * b
  }

  function IntrabarOf(b: Bar): Intrabar {
    Intrabar(Ratio(b.high, b.open), Ratio(b.low, b.open), Ratio(b.close, b.open), b.volume)
  }

  /** The close that a bar of a window follows. */
  function CloseBefore(anchor: real, window: seq<Bar>, i: nat): real
    requires i <= |window|
  {
    if i == 0 then anchor else window[i - 1].close
  }

  /** Close-to-open ratios of a window that follows a close. */
  function Gaps(anchor: real, window: seq<Bar>): (g: seq<real>)
    ensures |g| == |window|
  {
    seq(|window|, i requires 0 <= i < |window| => Ratio(window[i].open, CloseBefore(anchor, window, i)))
  }

  function Intrabars(window: seq<Bar>): (s: seq<Intrabar>)
    ensures |s| == |window|
  {
    seq(|window|, i requires 0 <= i < |window| => IntrabarOf(window[i]))
  }

  /** The positions of a permutation, as a shuffle of `0..n` delivers them. */
  predicate IsPermutation(order: seq<nat>, n: nat) {
    multiset(order) == multiset(Range(n))
  }

  function Range(n: nat): (r: seq<nat>)
    ensures |r| == n && forall i :: 0 <= i < n ==> r[i] == i
  {
    seq(n, i requires 0 <= i < n => i)
  }

  lemma {:induction false} PermutationInRange(order: seq<nat>, n: nat)
    requires IsPermutation(order, n)
    ensures |order| == n && forall i :: 0 <= i < n ==> order[i] < n
  {
    assert |order| == |multiset(order)| == |multiset(Range(n))| == n;
    forall i | 0 <= i < n ensures order[i] < n {
      assert order[i] in multiset(order);
      assert order[i] in Range(n);
    }
  }

  function Taken<T>(xs: seq<T>, order: seq<nat>): (r: seq<T>)
    requires forall i :: 0 <= i < |order| ==> order[i] < |xs|
    ensures |r| == |order|
  {
    seq(|order|, i requires 0 <= i < |order| => xs[order[i]])
  }

  /** Removing one occurrence from both of two equal bags. */
  lemma {:induction false} RemoveOne<T>(a: seq<T>, b: seq<T>) returns (k: nat)
    requires multiset(a) == multiset(b) && a != []
    ensures |a| == |b| && k < |b| && b[k] == a[|a| - 1]
    ensures multiset(a[..|a| - 1]) == multiset(b[..k] + b[k + 1..])
    ensures a == a[..|a| - 1] + [a[|a| - 1]] && b == b[..k] + [b[k]] + b[k + 1..]
  {
    var n := |a| - 1;
    assert a == a[..n] + [a[n]];
    assert |a| == |multiset(a)| == |multiset(b)| == |b|;
    assert a[n] in multiset(b);
    k :| 0 <= k < |b| && b[k] == a[n];
    assert b == b[..k] + [b[k]] + b[k + 1..];
    var rest := b[..k] + b[k + 1..];
    assert multiset(b) == multiset(b[..k]) + multiset{b[k]} + multiset(b[k + 1..]);
    assert multiset(rest) == multiset(b) - multiset{b[k]};
    assert multiset(a[..n]) == multiset(a) - multiset{a[n]};
  }

  /** Taking the same positions in another order takes the same things. */
  lemma {:induction false} TakenSame<T>(xs: seq<T>, a: seq<nat>, b: seq<nat>)
    requires (forall i :: 0 <= i < |a| ==> a[i] < |xs|) && (forall i :: 0 <= i < |b| ==> b[i] < |xs|)
    requires multiset(a) == multiset(b)
    ensures multiset(Taken(xs, a)) == multiset(Taken(xs, b))
    decreases |a|
  {
    hide Taken;
    assert |a| == |multiset(a)| == |multiset(b)| == |b|;
    if a == [] {
      assert a == b;
    } else {
      var n := |a| - 1;
      var k := RemoveOne(a, b);
      var front, back := b[..k], b[k + 1..];
      TakenSame(xs, a[..n], front + back);
      TakenJoins(xs, a[..n], [a[n]]);
      TakenJoins(xs, front, back);
      TakenJoins(xs, front, [b[k]]);
      TakenJoins(xs, front + [b[k]], back);
    }
  }

  lemma {:induction false} TakenJoins<T>(xs: seq<T>, a: seq<nat>, b: seq<nat>)
    requires (forall i :: 0 <= i < |a| ==> a[i] < |xs|) && (forall i :: 0 <= i < |b| ==> b[i] < |xs|)
    ensures forall i :: 0 <= i < |a + b| ==> (a + b)[i] < |xs|
    ensures Taken(xs, a + b) == Taken(xs, a) + Taken(xs, b)
  {}

  lemma {:induction false} TakenAll<T>(xs: seq<T>, order: seq<nat>)
    requires IsPermutation(order, |xs|)
    ensures forall i :: 0 <= i < |order| ==> order[i] < |xs|
    ensures |order| == |xs|
    ensures multiset(Taken(xs, order)) == multiset(xs)
  {
    PermutationInRange(order, |xs|);
    assert Taken(xs, Range(|xs|)) == xs;
    TakenSame(xs, order, Range(|xs|));
  }

  // --------------------------------------------------------------- rebuild

  /** One rebuilt bar: the gap opens it, the intrabar tuple shapes it; the time stays where it was. */
  function Rebuilt(at: int, previousClose: real, gap: real, shape: Intrabar): Bar {
    var open := Times(previousClose, gap);
    Bar(at, open, Times(open, shape.high), Times(open, shape.low), Times(open, shape.close), shape.volume)
  }

  /** Position of the first bar at or after `start`: `bisect_left`. */
  function SplitAt(bars: seq<Bar>, start: int): (k: nat)
    ensures k <= |bars|
    ensures k < |bars| ==> start <= bars[k].at
    ensures (forall i, j :: 0 <= i < j < |bars| ==> bars[i].at <= bars[j].at) ==> forall i :: 0 <= i < k ==> bars[i].at < start
  {
    if bars == [] || bars[|bars| - 1].at < start then |bars| else SplitAt(bars[..|bars| - 1], start)
  }

  /** A window rebuilt from shuffled gaps and shapes, starting after a close. */
  predicate IsRebuilt(window: seq<Bar>, permuted: seq<Bar>, anchor: real, gaps: seq<real>, shapes: seq<Intrabar>) {
    && |permuted| == |window| == |gaps| == |shapes|
    && forall i :: 0 <= i < |permuted| ==> permuted[i] == Rebuilt(window[i].at, CloseBefore(anchor, permuted, i), gaps[i], shapes[i])
  }

  lemma {:induction false} RebuildNothing(anchor: real)
    ensures IsRebuilt([], [], anchor, [], [])
  {}

  lemma {:induction false} RebuildNext(
    window: seq<Bar>, permuted: seq<Bar>, anchor: real, gaps: seq<real>, shapes: seq<Intrabar>, i: nat)
    requires i < |window| == |gaps| == |shapes|
    requires IsRebuilt(window[..i], permuted, anchor, gaps[..i], shapes[..i])
    ensures |permuted| == i
    ensures
      var bar := Rebuilt(window[i].at, CloseBefore(anchor, permuted, i), gaps[i], shapes[i]);
      IsRebuilt(window[..i + 1], permuted + [bar], anchor, gaps[..i + 1], shapes[..i + 1])
  {
    hide Rebuilt;
    var bar := Rebuilt(window[i].at, CloseBefore(anchor, permuted, i), gaps[i], shapes[i]);
    var more := permuted + [bar];
    forall j | 0 <= j < i + 1
      ensures more[j] == Rebuilt(window[..i + 1][j].at, CloseBefore(anchor, more, j), gaps[..i + 1][j], shapes[..i + 1][j])
    {
      if j < i {
        assert permuted[j] == Rebuilt(window[..i][j].at, CloseBefore(anchor, permuted, j), gaps[..i][j], shapes[..i][j]);
        assert CloseBefore(anchor, more, j) == CloseBefore(anchor, permuted, j);
      }
    }
  }

  /** The first pass: gaps and intrabar tuples, carrying the previous close. */
  method Decompose(anchor: real, window: seq<Bar>) returns (gaps: seq<real>, shapes: seq<Intrabar>)
    ensures gaps == Gaps(anchor, window) && shapes == Intrabars(window)
  {
    hide IntrabarOf, Ratio;
    gaps, shapes := [], [];
    var previous := anchor;
    for i := 0 to |window|
      invariant |gaps| == |shapes| == i && previous == CloseBefore(anchor, window, i)
      invariant gaps == Gaps(anchor, window)[..i] && shapes == Intrabars(window)[..i]
    {
      gaps := gaps + [Ratio(window[i].open, previous)];
      shapes := shapes + [IntrabarOf(window[i])];
      previous := window[i].close;
    }
  }

  /** The second pass: one bar per gap and tuple, carrying the previous close. */
  method Rebuild(anchor: real, window: seq<Bar>, gaps: seq<real>, shapes: seq<Intrabar>) returns (permuted: seq<Bar>)
    requires |window| == |gaps| == |shapes|
    ensures IsRebuilt(window, permuted, anchor, gaps, shapes)
  {
    hide Rebuilt, IsRebuilt;
    RebuildNothing(anchor);
    permuted := [];
    var previous := anchor;
    for i := 0 to |window|
      invariant |permuted| == i && previous == CloseBefore(anchor, permuted, i)
      invariant IsRebuilt(window[..i], permuted, anchor, gaps[..i], shapes[..i])
    {
      RebuildNext(window, permuted, anchor, gaps, shapes, i);
      var bar := Rebuilt(window[i].at, previous, gaps[i], shapes[i]);
      permuted := permuted + [bar];
      previous := bar.close;
    }
    assert window[..|window|] == window && gaps[..|window|] == gaps && shapes[..|window|] == shapes;
  }

  /** A window rebuilt from its own gaps and shapes, each shuffled by its permutation. */
  ghost predicate IsPermuted(window: seq<Bar>, permuted: seq<Bar>, anchor: real, gapOrder: seq<nat>, shapeOrder: seq<nat>) {
    && IsPermutation(gapOrder, |window|) && IsPermutation(shapeOrder, |window|)
    && (forall i :: 0 <= i < |gapOrder| ==> gapOrder[i] < |window|) && (forall i :: 0 <= i < |shapeOrder| ==> shapeOrder[i] < |window|)
    && IsRebuilt(window, permuted, anchor, Taken(Gaps(anchor, window), gapOrder), Taken(Intrabars(window), shapeOrder))
  }

  /** `permute_symbol_bars`: two passes that carry the previous close. */
  method PermuteBars(bars: seq<Bar>, start: int, gapOrder: seq<nat>, shapeOrder: seq<nat>) returns (result: seq<Bar>)
    requires
      var n := |bars| - SplitAt(bars, start);
      IsPermutation(gapOrder, n) && IsPermutation(shapeOrder, n)
    ensures |result| == |bars|
    ensures
      var split := SplitAt(bars, start);
      if |bars| - split < 2 then result == bars
      else
        var window, anchor := bars[split..], if split > 0 then bars[split - 1].close else bars[split].open;
        result[..split] == bars[..split] && IsPermuted(window, result[split..], anchor, gapOrder, shapeOrder)
  {
    hide IsPermutation, SplitAt, Rebuilt, IsRebuilt, IntrabarOf, Ratio;
    var split := SplitAt(bars, start);
    var window := bars[split..];
    if |window| < 2 { return bars; }
    var anchor := if split > 0 then bars[split - 1].close else bars[split].open;
    var gaps, shapes := Decompose(anchor, window);
    PermutationInRange(gapOrder, |window|);
    PermutationInRange(shapeOrder, |window|);
    var permuted := Rebuild(anchor, window, Taken(gaps, gapOrder), Taken(shapes, shapeOrder));
    assert |permuted| == |window| by { RebuiltTimes(window, permuted, anchor, Taken(gaps, gapOrder), Taken(shapes, shapeOrder)); }
    result := bars[..split] + permuted;
    assert result[split..] == permuted;
  }

  // ------------------------------------------------------------------ laws

  lemma {:induction false} TimesLaws(a: real, b: real, c: real)
    ensures Times(a, b) == Times(b, a) && Times(Times(a, b), c) == Times(a, Times(b, c)) && Times(1.0, a) == a
  {}

  lemma {:induction false} TimesPositive(a: real, b: real)
    requires b > 0.0
    ensures (Times(a, b) > 0.0 <==> a > 0.0) && (Times(a, b) == 0.0 <==> a == 0.0)
  {}

  lemma {:induction false} RatioTimes(price: real, reference: real, ratio: real)
    requires reference > 0.0 && ratio > 0.0
    ensures Ratio(Times(reference, ratio), reference) == ratio
    ensures price > 0.0 ==> Times(reference, Ratio(price, reference)) == price
  {
    assert reference * ratio > 0.0;
    assert (reference * ratio) / reference == ratio;
  }

  function Product(xs: seq<real>): real {
    if xs == [] then 1.0 else Times(Product(xs[..|xs| - 1]), xs[|xs| - 1])
  }

  lemma {:induction false} ProductConcat(a: seq<real>, b: seq<real>)
    ensures Product(a + b) == Times(Product(a), Product(b))
    decreases |b|
  {
    hide Times;
    if b == [] {
      assert a + b == a;
      TimesLaws(Product(a), 1.0, 1.0);
      TimesLaws(1.0, Product(a), 1.0);
    } else {
      var front, last := b[..|b| - 1], b[|b| - 1];
      assert (a + b)[..|a + b| - 1] == a + front;
      ProductConcat(a, front);
      TimesLaws(Product(a), Product(front), last);
    }
  }

  lemma {:induction false} ProductOne(x: real)
    ensures Product([x]) == x
  {
    assert [x][..0] == [];
  }

  lemma {:induction false} ProductShuffled(a: seq<real>, b: seq<real>)
    requires multiset(a) == multiset(b)
    ensures Product(a) == Product(b)
    decreases |a|
  {
    hide Times;
    assert |a| == |multiset(a)| == |multiset(b)| == |b|;
    if a != [] {
      var n := |a| - 1;
      var k := RemoveOne(a, b);
      var front, back := b[..k], b[k + 1..];
      ProductShuffled(a[..n], front + back);
      ProductConcat(front, back);
      ProductConcat(front + [b[k]], back);
      ProductConcat(front, [b[k]]);
      ProductOne(b[k]);
      TimesLaws(Product(front), Product(back), b[k]);
      TimesLaws(Product(front), b[k], Product(back));
      TimesLaws(Product(back), b[k], 1.0);
    }
  }

  function ClosesOf(shapes: seq<Intrabar>): (r: seq<real>)
    ensures |r| == |shapes|
  {
    seq(|shapes|, i requires 0 <= i < |shapes| => shapes[i].close)
  }

  /** Where a rebuilt window's `n`-th close ends up. */
  function EndOf(anchor: real, gaps: seq<real>, closes: seq<real>): real {
    Times(anchor, Times(Product(gaps), Product(closes)))
  }

  lemma {:induction false} EndMoves(anchor: real, gaps: seq<real>, closes: seq<real>, gap: real, close: real)
    ensures EndOf(anchor, gaps + [gap], closes + [close]) == Times(Times(EndOf(anchor, gaps, closes), gap), close)
  {
    var p, q := Product(gaps), Product(closes);
    assert (gaps + [gap])[..|gaps|] == gaps && (closes + [close])[..|closes|] == closes;
    assert anchor * ((p * gap) * (q * close)) == ((anchor * (p * q)) * gap) * close;
  }

  /** A rebuilt window ends where its gaps and closes multiply up to. */
  lemma {:induction false} RebuiltEnd(
    window: seq<Bar>, permuted: seq<Bar>, anchor: real, gaps: seq<real>, shapes: seq<Intrabar>, n: nat)
    requires IsRebuilt(window, permuted, anchor, gaps, shapes) && n <= |permuted|
    ensures CloseBefore(anchor, permuted, n) == EndOf(anchor, gaps[..n], ClosesOf(shapes)[..n])
  {
    hide Times, EndOf, IsRebuilt;
    RebuiltTimes(window, permuted, anchor, gaps, shapes);
    var closes := ClosesOf(shapes);
    if n > 0 {
      RebuiltEnd(window, permuted, anchor, gaps, shapes, n - 1);
      RebuiltClose(window, permuted, anchor, gaps, shapes, n - 1);
      EndMoves(anchor, gaps[..n - 1], closes[..n - 1], gaps[n - 1], closes[n - 1]);
      assert gaps[..n] == gaps[..n - 1] + [gaps[n - 1]] && closes[..n] == closes[..n - 1] + [closes[n - 1]];
    } else {
      assert gaps[..0] == [] && closes[..0] == [];
      EndOfNothing(anchor);
    }
  }

  lemma {:induction false} RebuiltClose(
    window: seq<Bar>, permuted: seq<Bar>, anchor: real, gaps: seq<real>, shapes: seq<Intrabar>, i: nat)
    requires IsRebuilt(window, permuted, anchor, gaps, shapes) && i < |permuted|
    ensures permuted[i].close == Times(Times(CloseBefore(anchor, permuted, i), gaps[i]), shapes[i].close)
  {
    hide Times, CloseBefore;
  }

  lemma {:induction false} EndOfNothing(anchor: real)
    ensures EndOf(anchor, [], []) == anchor
  {}

  predicate Positive(s: Intrabar) {
    s.high > 0.0 && s.low > 0.0 && s.close > 0.0
  }

  predicate AllPositive(gaps: seq<real>, shapes: seq<Intrabar>) {
    (forall i :: 0 <= i < |gaps| ==> gaps[i] > 0.0) && forall i :: 0 <= i < |shapes| ==> Positive(shapes[i])
  }

  lemma {:induction false} RatiosPositive(anchor: real, window: seq<Bar>)
    ensures AllPositive(Gaps(anchor, window), Intrabars(window))
  {
    hide Ratio;
  }

  lemma {:induction false} TakenPositive(gaps: seq<real>, shapes: seq<Intrabar>, gapOrder: seq<nat>, shapeOrder: seq<nat>)
    requires AllPositive(gaps, shapes)
    requires (forall i :: 0 <= i < |gapOrder| ==> gapOrder[i] < |gaps|) && (forall i :: 0 <= i < |shapeOrder| ==> shapeOrder[i] < |shapes|)
    ensures AllPositive(Taken(gaps, gapOrder), Taken(shapes, shapeOrder))
  {
    hide Positive;
  }

  /** A bar rebuilt after a positive close has exactly its gap and its shape again. */
  lemma {:induction false} RebuiltBar(at: int, previousClose: real, gap: real, shape: Intrabar)
    requires previousClose > 0.0 && gap > 0.0 && Positive(shape)
    ensures
      var b := Rebuilt(at, previousClose, gap, shape);
      b.at == at && b.close > 0.0 && Ratio(b.open, previousClose) == gap && IntrabarOf(b) == shape
  {
    hide Times, Ratio;
    var open := Times(previousClose, gap);
    TimesPositive(previousClose, gap);
    TimesPositive(open, shape.close);
    RatioTimes(1.0, previousClose, gap);
    RatioTimes(1.0, open, shape.high);
    RatioTimes(1.0, open, shape.low);
    RatioTimes(1.0, open, shape.close);
  }

  /** A bar rebuilt after a close that is not positive has no positive close and counts as no move. */
  lemma {:induction false} FlatBar(at: int, previousClose: real, gap: real, shape: Intrabar)
    requires previousClose <= 0.0 && gap > 0.0 && Positive(shape)
    ensures
      var b := Rebuilt(at, previousClose, gap, shape);
      b.close <= 0.0 && (b.close == 0.0 <==> previousClose == 0.0) && Ratio(b.open, previousClose) == 1.0 && IntrabarOf(b) == Intrabar(1.0, 1.0, 1.0, shape.volume)
  {
    hide Times;
    TimesPositive(previousClose, gap);
    TimesPositive(Times(previousClose, gap), shape.close);
  }

  /** All closes of a rebuilt window are on the anchor's side of zero. */
  lemma {:induction false} ClosesKeepSign(
    window: seq<Bar>, permuted: seq<Bar>, anchor: real, gaps: seq<real>, shapes: seq<Intrabar>, n: nat)
    requires IsRebuilt(window, permuted, anchor, gaps, shapes) && AllPositive(gaps, shapes) && n <= |permuted|
    ensures CloseBefore(anchor, permuted, n) > 0.0 <==> anchor > 0.0
    ensures CloseBefore(anchor, permuted, n) == 0.0 <==> anchor == 0.0
  {
    hide Rebuilt, IntrabarOf, Ratio, Positive;
    if n > 0 {
      ClosesKeepSign(window, permuted, anchor, gaps, shapes, n - 1);
      var previous := CloseBefore(anchor, permuted, n - 1);
      if previous > 0.0 {
        RebuiltBar(window[n - 1].at, previous, gaps[n - 1], shapes[n - 1]);
      } else {
        FlatBar(window[n - 1].at, previous, gaps[n - 1], shapes[n - 1]);
      }
    }
  }

  /** Rebuilding after a positive close loses no return: the window has exactly what it was built from. */
  lemma {:induction false} RebuiltHas(window: seq<Bar>, permuted: seq<Bar>, anchor: real, gaps: seq<real>, shapes: seq<Intrabar>)
    requires IsRebuilt(window, permuted, anchor, gaps, shapes) && AllPositive(gaps, shapes) && anchor > 0.0
    ensures Gaps(anchor, permuted) == gaps && Intrabars(permuted) == shapes
  {
    hide Rebuilt, IntrabarOf, CloseBefore, Ratio, Positive;
    forall i | 0 <= i < |permuted|
      ensures Gaps(anchor, permuted)[i] == gaps[i] && Intrabars(permuted)[i] == shapes[i]
    {
      ClosesKeepSign(window, permuted, anchor, gaps, shapes, i);
      RebuiltBar(window[i].at, CloseBefore(anchor, permuted, i), gaps[i], shapes[i]);
    }
  }

  predicate NoMove(s: Intrabar) {
    s.high == s.low == s.close == 1.0
  }

  /** Every return of a window is flat. */
  predicate NoMoves(gaps: seq<real>, shapes: seq<Intrabar>) {
    (forall i :: 0 <= i < |gaps| ==> gaps[i] == 1.0) && forall i :: 0 <= i < |shapes| ==> NoMove(shapes[i])
  }

  lemma {:induction false} RebuiltFlat(window: seq<Bar>, permuted: seq<Bar>, anchor: real, gaps: seq<real>, shapes: seq<Intrabar>)
    requires IsRebuilt(window, permuted, anchor, gaps, shapes) && AllPositive(gaps, shapes) && anchor <= 0.0
    ensures NoMoves(Gaps(anchor, permuted), Intrabars(permuted))
    ensures forall i :: 0 <= i < |permuted| ==> permuted[i].volume == shapes[i].volume
  {
    hide IntrabarOf, CloseBefore, Ratio, Positive, Times;
    forall i | 0 <= i < |permuted|
      ensures Gaps(anchor, permuted)[i] == 1.0 && NoMove(Intrabars(permuted)[i]) && permuted[i].volume == shapes[i].volume
    {
      ClosesKeepSign(window, permuted, anchor, gaps, shapes, i);
      FlatBar(window[i].at, CloseBefore(anchor, permuted, i), gaps[i], shapes[i]);
    }
  }

  // -------------------------------------------------------------- theorems

  lemma {:induction false} PermutedFacts(
    window: seq<Bar>, permuted: seq<Bar>, anchor: real, gapOrder: seq<nat>, shapeOrder: seq<nat>)
    requires IsPermuted(window, permuted, anchor, gapOrder, shapeOrder)
    ensures
      var gaps, shapes := Taken(Gaps(anchor, window), gapOrder), Taken(Intrabars(window), shapeOrder);
      && IsRebuilt(window, permuted, anchor, gaps, shapes) && AllPositive(gaps, shapes)
      && multiset(gaps) == multiset(Gaps(anchor, window)) && multiset(shapes) == multiset(Intrabars(window))
      && Product(gaps) == Product(Gaps(anchor, window)) && Product(ClosesOf(shapes)) == Product(ClosesOf(Intrabars(window)))
  {
    hide IsPermutation, Taken, Gaps, Intrabars, IsRebuilt, AllPositive, Product;
    RatiosPositive(anchor, window);
    TakenPositive(Gaps(anchor, window), Intrabars(window), gapOrder, shapeOrder);
    TakenAll(Gaps(anchor, window), gapOrder);
    TakenAll(Intrabars(window), shapeOrder);
    ProductShuffled(Taken(Gaps(anchor, window), gapOrder), Gaps(anchor, window));
    ClosesShuffled(Intrabars(window), shapeOrder);
  }

  lemma {:induction false} ClosesShuffled(shapes: seq<Intrabar>, order: seq<nat>)
    requires IsPermutation(order, |shapes|) && forall i :: 0 <= i < |order| ==> order[i] < |shapes|
    ensures Product(ClosesOf(Taken(shapes, order))) == Product(ClosesOf(shapes))
  {
    hide IsPermutation, Product;
    TakenAll(ClosesOf(shapes), order);
    assert ClosesOf(Taken(shapes, order)) == Taken(ClosesOf(shapes), order);
    ProductShuffled(ClosesOf(Taken(shapes, order)), ClosesOf(shapes));
  }

  /** A window whose opens and closes are positive multiplies up to its own last close. */
  lemma {:induction false} OwnEnd(anchor: real, window: seq<Bar>, n: nat)
    requires anchor > 0.0 && n <= |window| && forall i :: 0 <= i < n ==> window[i].open > 0.0 && window[i].close > 0.0
    ensures EndOf(anchor, Gaps(anchor, window)[..n], ClosesOf(Intrabars(window))[..n]) == CloseBefore(anchor, window, n)
  {
    hide Times, Product, Ratio, EndOf;
    var gaps, closes := Gaps(anchor, window), ClosesOf(Intrabars(window));
    if n > 0 {
      OwnEnd(anchor, window, n - 1);
      EndMoves(anchor, gaps[..n - 1], closes[..n - 1], gaps[n - 1], closes[n - 1]);
      assert gaps[..n] == gaps[..n - 1] + [gaps[n - 1]] && closes[..n] == closes[..n - 1] + [closes[n - 1]];
      RatioTimes(window[n - 1].open, CloseBefore(anchor, window, n - 1), 1.0);
      RatioTimes(window[n - 1].close, window[n - 1].open, 1.0);
    } else {
      assert gaps[..0] == [] && closes[..0] == [];
      EndOfNothing(anchor);
    }
  }

  /**
   * What every permutation keeps: each bar's own time; a final close that no order of the returns can
   * move, and that is the window's own when its opens and closes and the close before are positive.
   */
  lemma {:induction false} PermutationKeepsEnd(
    window: seq<Bar>, permuted: seq<Bar>, anchor: real, gapOrder: seq<nat>, shapeOrder: seq<nat>)
    requires window != [] && IsPermuted(window, permuted, anchor, gapOrder, shapeOrder)
    ensures |permuted| == |window| && forall i :: 0 <= i < |permuted| ==> permuted[i].at == window[i].at
    ensures permuted[|permuted| - 1].close == EndOf(anchor, Gaps(anchor, window), ClosesOf(Intrabars(window)))
    ensures (anchor > 0.0 && forall i :: 0 <= i < |window| ==> window[i].open > 0.0 && window[i].close > 0.0) ==>
              permuted[|permuted| - 1].close == window[|window| - 1].close
  {
    hide Times, Product, Ratio, IsPermutation, IsRebuilt, AllPositive, Taken, Gaps, Intrabars, ClosesOf, Rebuilt;
    PermutedFacts(window, permuted, anchor, gapOrder, shapeOrder);
    var gaps, shapes, n := Taken(Gaps(anchor, window), gapOrder), Taken(Intrabars(window), shapeOrder), |window|;
    RebuiltTimes(window, permuted, anchor, gaps, shapes);
    RebuiltEnd(window, permuted, anchor, gaps, shapes, n);
    assert gaps[..n] == gaps && ClosesOf(shapes)[..n] == ClosesOf(shapes);
    if anchor > 0.0 && forall i :: 0 <= i < |window| ==> window[i].open > 0.0 && window[i].close > 0.0 {
      OwnEnd(anchor, window, n);
      var closes := ClosesOf(Intrabars(window));
      assert Gaps(anchor, window)[..n] == Gaps(anchor, window) && closes[..n] == closes;
    }
  }

  lemma {:induction false} RebuiltTimes(window: seq<Bar>, permuted: seq<Bar>, anchor: real, gaps: seq<real>, shapes: seq<Intrabar>)
    requires IsRebuilt(window, permuted, anchor, gaps, shapes)
    ensures |permuted| == |window| == |gaps| == |shapes| && forall i :: 0 <= i < |permuted| ==> permuted[i].at == window[i].at
  {
    hide Times;
  }

  /** The prices that returns are taken between: the close before, then each open and close. */
  function Prices(anchor: real, window: seq<Bar>, n: nat): (ps: seq<real>)
    requires n <= |window|
    ensures ps != [] && ps[|ps| - 1] == CloseBefore(anchor, window, n)
  {
    if n == 0 then [anchor] else Prices(anchor, window, n - 1) + [window[n - 1].open, window[n - 1].close]
  }

  /** All ratios between neighbouring prices. */
  function Moved(ps: seq<real>): real {
    if |ps| < 2 then 1.0 else
      var front := ps[..|ps| - 1];
      Times(Moved(front), Ratio(ps[|ps| - 1], front[|front| - 1]))
  }

  predicate AnyPrice(ps: seq<real>) {
    exists i :: 0 <= i < |ps| && ps[i] > 0.0
  }

  /** The newest positive price, or 1 if there is none. */
  function NewestPrice(ps: seq<real>): (p: real)
    ensures p > 0.0
  {
    if ps == [] then 1.0
    else if ps[|ps| - 1] > 0.0 then ps[|ps| - 1]
    else NewestPrice(ps[..|ps| - 1])
  }

  /** The first positive price, or 1 if there is none. */
  function FirstPrice(ps: seq<real>): (p: real)
    ensures p > 0.0
  {
    if ps == [] then 1.0
    else if ps[0] > 0.0 then ps[0]
    else FirstPrice(ps[1..])
  }

  /**
   * What is lost over prices that are not positive: for each positive price that follows such a one, how far it
   * is from the newest positive price before it.
   */
  function Lost(ps: seq<real>): (f: real)
    ensures f > 0.0
  {
    if |ps| < 2 then 1.0 else
      var front, last := ps[..|ps| - 1], ps[|ps| - 1];
      if last > 0.0 && front[|front| - 1] <= 0.0 && AnyPrice(front) then
        TimesPositive(Lost(front), last / NewestPrice(front));
        Times(Lost(front), last / NewestPrice(front))
      else Lost(front)
  }

  lemma {:induction false} FirstPriceNext(front: seq<real>, last: real)
    ensures FirstPrice(front + [last]) == if AnyPrice(front) then FirstPrice(front) else if last > 0.0 then last else 1.0
    ensures !AnyPrice(front) ==> FirstPrice(front) == 1.0
  {
    var ps := front + [last];
    if front != [] {
      assert ps[1..] == front[1..] + [last];
      FirstPriceNext(front[1..], last);
      AnyPriceTail(front);
    } else {
      assert ps[1..] == [];
    }
  }

  lemma {:induction false} AnyPriceTail(ps: seq<real>)
    requires ps != []
    ensures AnyPrice(ps) <==> ps[0] > 0.0 || AnyPrice(ps[1..])
  {
    if AnyPrice(ps) {
      var i :| 0 <= i < |ps| && ps[i] > 0.0;
      assert i > 0 ==> ps[1..][i - 1] == ps[i];
    }
    if AnyPrice(ps[1..]) {
      var i :| 0 <= i < |ps[1..]| && ps[1..][i] > 0.0;
      assert ps[i + 1] == ps[1..][i];
    }
  }

  lemma {:induction false} NothingNewest(ps: seq<real>)
    requires !AnyPrice(ps)
    ensures NewestPrice(ps) == 1.0
  {
    if ps != [] {
      var front := ps[..|ps| - 1];
      assert ps[|ps| - 1] <= 0.0;
      forall i | 0 <= i < |front| ensures front[i] <= 0.0 { assert ps[i] <= 0.0; }
      NothingNewest(front);
    }
  }

  /** From the first positive price to the newest: the ratios account for everything but what is lost. */
  lemma {:induction false} MovedIs(ps: seq<real>)
    requires ps != []
    ensures Times(Times(Moved(ps), FirstPrice(ps)), Lost(ps)) == NewestPrice(ps)
  {
    hide Times, FirstPrice, AnyPrice;
    var front, last := ps[..|ps| - 1], ps[|ps| - 1];
    assert ps == front + [last];
    FirstPriceNext(front, last);
    if front == [] {
      NoneBefore();
      TimesLaws(1.0, FirstPrice(ps), 1.0);
      TimesLaws(FirstPrice(ps), 1.0, 1.0);
      TimesLaws(1.0, 1.0, 1.0);
    } else {
      MovedIs(front);
      MovedStep(front, last);
    }
  }

  lemma {:induction false} NoneBefore()
    ensures !AnyPrice([]) && FirstPrice([]) == NewestPrice([]) == 1.0
  {}

  lemma {:induction false} MovedStep(front: seq<real>, last: real)
    requires front != [] && Times(Times(Moved(front), FirstPrice(front)), Lost(front)) == NewestPrice(front)
    ensures
      var ps := front + [last];
      Times(Times(Moved(ps), FirstPrice(ps)), Lost(ps)) == NewestPrice(ps)
  {
    hide Times, FirstPrice, AnyPrice, Ratio;
    var ps, previous := front + [last], front[|front| - 1];
    assert ps[..|front|] == front;
    FirstPriceNext(front, last);
    var m, f, l := Moved(front), FirstPrice(front), Lost(front);
    RatioCases(last, previous);
    if last <= 0.0 || (previous <= 0.0 && !AnyPrice(front)) {
      TimesLaws(m, 1.0, 1.0);
      TimesLaws(1.0, m, 1.0);
      if !AnyPrice(front) {
        NothingNewest(front);
        FirstFactor(m, l, last);
      }
    } else if previous > 0.0 {
      assert AnyPrice(front) by { HasPrice(front); }
      MoveFactor(m, f, l, previous, last);
    } else {
      TimesLaws(m, 1.0, 1.0);
      TimesLaws(1.0, m, 1.0);
      LostFactor(m, f, l, NewestPrice(front), last);
    }
  }

  lemma {:induction false} RatioCases(price: real, reference: real)
    ensures (price <= 0.0 || reference <= 0.0) ==> Ratio(price, reference) == 1.0
    ensures price > 0.0 && reference > 0.0 ==> Ratio(price, reference) == price / reference
  {}

  lemma {:induction false} HasPrice(ps: seq<real>)
    requires ps != [] && ps[|ps| - 1] > 0.0
    ensures AnyPrice(ps)
  {}

  lemma {:induction false} FirstFactor(m: real, l: real, first: real)
    requires Times(Times(m, 1.0), l) == 1.0
    ensures Times(Times(m, first), l) == first
  {
    assert m * first * l == (m * l) * first;
  }

  lemma {:induction false} MoveFactor(m: real, f: real, l: real, previous: real, price: real)
    requires previous > 0.0 && Times(Times(m, f), l) == previous
    ensures Times(Times(Times(m, price / previous), f), l) == price
  {
    var r := price / previous;
    assert ((m * r) * f) * l == ((m * f) * l) * r;
    assert previous * r == price;
  }

  lemma {:induction false} LostFactor(m: real, f: real, l: real, newest: real, price: real)
    requires newest > 0.0 && Times(Times(m, f), l) == newest
    ensures Times(Times(m, f), Times(l, price / newest)) == price
  {
    var r := price / newest;
    assert (m * f) * (l * r) == ((m * f) * l) * r;
    assert newest * r == price;
  }

  lemma {:induction false} EndIsMoved(anchor: real, window: seq<Bar>, n: nat)
    requires n <= |window|
    ensures EndOf(anchor, Gaps(anchor, window)[..n], ClosesOf(Intrabars(window))[..n]) == Times(anchor, Moved(Prices(anchor, window, n)))
  {
    hide Times, EndOf, Ratio;
    var gaps, closes := Gaps(anchor, window), ClosesOf(Intrabars(window));
    if n > 0 {
      EndIsMoved(anchor, window, n - 1);
      EndMoves(anchor, gaps[..n - 1], closes[..n - 1], gaps[n - 1], closes[n - 1]);
      assert gaps[..n] == gaps[..n - 1] + [gaps[n - 1]] && closes[..n] == closes[..n - 1] + [closes[n - 1]];
      var before, b := Prices(anchor, window, n - 1), window[n - 1];
      var until := before + [b.open];
      assert Prices(anchor, window, n) == until + [b.close];
      MovedNext(before, b.open);
      MovedNext(until, b.close);
      TimesLaws(anchor, Moved(before), gaps[n - 1]);
      TimesLaws(anchor, Moved(until), closes[n - 1]);
    } else {
      assert gaps[..0] == [] && closes[..0] == [];
      EndOfNothing(anchor);
      TimesLaws(1.0, anchor, 1.0);
      TimesLaws(anchor, 1.0, 1.0);
    }
  }

  lemma {:induction false} MovedNext(front: seq<real>, last: real)
    requires front != []
    ensures Moved(front + [last]) == Times(Moved(front), Ratio(last, front[|front| - 1]))
  {
    hide Times, Ratio;
    assert (front + [last])[..|front|] == front;
  }

  /**
   * The final close is the window's own exactly when what the ratios account for, from the first positive price
   * to the newest, is what really happened. After a positive close: the last close is positive and nothing is
   * lost over prices that are not.
   */
  lemma {:induction false} EndKeptExactly(
    window: seq<Bar>, permuted: seq<Bar>, anchor: real, gapOrder: seq<nat>, shapeOrder: seq<nat>)
    requires window != [] && IsPermuted(window, permuted, anchor, gapOrder, shapeOrder)
    ensures
      var ps, last := Prices(anchor, window, |window|), window[|window| - 1].close;
      && |permuted| == |window|
      && (permuted[|permuted| - 1].close == last <==>
            Times(Times(last, FirstPrice(ps)), Lost(ps)) == Times(anchor, NewestPrice(ps)))
      && (anchor > 0.0 ==> (permuted[|permuted| - 1].close == last <==> last > 0.0 && Lost(ps) == 1.0))
  {
    hide IsPermuted, Moved, Times, EndOf, Gaps, Intrabars, ClosesOf;
    var n := |window|;
    var ps, last := Prices(anchor, window, n), window[n - 1].close;
    PermutationKeepsEnd(window, permuted, anchor, gapOrder, shapeOrder);
    var gaps, closes := Gaps(anchor, window), ClosesOf(Intrabars(window));
    assert gaps[..n] == gaps && closes[..n] == closes;
    EndIsMoved(anchor, window, n);
    MovedIs(ps);
    SameEnd(anchor, Moved(ps), FirstPrice(ps), Lost(ps), NewestPrice(ps), last);
    if anchor > 0.0 {
      FirstIsAnchor(anchor, window, n);
      LossDecides(anchor, Lost(ps), NewestPrice(ps), last);
      assert last > 0.0 ==> NewestPrice(ps) == last;
    }
  }

  lemma {:induction false} SameEnd(anchor: real, moved: real, first: real, lost: real, newest: real, last: real)
    requires first > 0.0 && lost > 0.0 && Times(Times(moved, first), lost) == newest
    ensures Times(anchor, moved) == last <==> Times(Times(last, first), lost) == Times(anchor, newest)
  {
    assert ((anchor * moved) * first) * lost == anchor * ((moved * first) * lost);
    var scale, end := first * lost, anchor * moved;
    assert scale > 0.0 && (last * first) * lost == last * scale && (end * first) * lost == end * scale;
    assert (last - end) * scale == last * scale - end * scale;
  }

  lemma {:induction false} LossDecides(anchor: real, lost: real, newest: real, last: real)
    requires anchor > 0.0 && lost > 0.0 && newest > 0.0
    ensures last <= 0.0 ==> Times(Times(last, anchor), lost) != Times(anchor, newest)
    ensures last > 0.0 && newest == last ==> (Times(Times(last, anchor), lost) == Times(anchor, newest) <==> lost == 1.0)
  {
    assert anchor * newest > 0.0;
    var scale := anchor * lost;
    assert scale > 0.0 && (last * anchor) * lost == last * scale;
    if last > 0.0 && newest == last {
      var whole := last * anchor;
      assert whole > 0.0 && Times(anchor, newest) == whole;
      assert Times(Times(last, anchor), lost) == whole * lost;
      Unscaled(whole, lost);
    } else if last <= 0.0 {
      assert last * scale <= 0.0;
    }
  }

  lemma {:induction false} Unscaled(whole: real, factor: real)
    requires whole > 0.0
    ensures whole * factor == whole <==> factor == 1.0
  {
    if factor > 1.0 {
      assert whole * (factor - 1.0) > 0.0;
    } else if factor < 1.0 {
      assert whole * (1.0 - factor) > 0.0;
    }
  }

  lemma {:induction false} FirstIsAnchor(anchor: real, window: seq<Bar>, n: nat)
    requires anchor > 0.0 && n <= |window|
    ensures Prices(anchor, window, n)[0] == anchor && FirstPrice(Prices(anchor, window, n)) == anchor
  {
    if n > 0 { FirstIsAnchor(anchor, window, n - 1); }
  }

  /** With positive closes, what is lost is the way from close to close over the bars whose open is not positive. */
  function LostOverOpens(anchor: real, window: seq<Bar>, n: nat): real
    requires n <= |window| && anchor > 0.0 && forall i :: 0 <= i < n ==> window[i].close > 0.0
  {
    if n == 0 then 1.0 else
      var before := LostOverOpens(anchor, window, n - 1);
      if window[n - 1].open <= 0.0 then Times(before, window[n - 1].close / CloseBefore(anchor, window, n - 1)) else before
  }

  lemma {:induction false} LostIsOverOpens(anchor: real, window: seq<Bar>, n: nat)
    requires n <= |window| && anchor > 0.0 && forall i :: 0 <= i < n ==> window[i].close > 0.0
    ensures Lost(Prices(anchor, window, n)) == LostOverOpens(anchor, window, n)
  {
    hide Times, AnyPrice;
    if n > 0 {
      LostIsOverOpens(anchor, window, n - 1);
      var before, b := Prices(anchor, window, n - 1), window[n - 1];
      var until := before + [b.open];
      assert Prices(anchor, window, n) == until + [b.close];
      assert (until + [b.close])[..|until|] == until && until[..|before|] == before;
      PriceStays(before, b.open);
    }
  }

  lemma {:induction false} PriceStays(front: seq<real>, last: real)
    requires front != [] && front[|front| - 1] > 0.0
    ensures AnyPrice(front + [last]) && NewestPrice(front) == front[|front| - 1]
    ensures last <= 0.0 ==> NewestPrice(front + [last]) == front[|front| - 1]
  {
    var ps := front + [last];
    assert ps[|front| - 1] == front[|front| - 1] && ps[..|front|] == front;
  }

  /** An open that is not positive breaks that: from 10, through a bar that closes at 20, back to 10. */
  lemma {:induction false} BadOpenMovesTheEnd(permuted: seq<Bar>, gapOrder: seq<nat>, shapeOrder: seq<nat>)
    requires
      var window := [Bar(0, 0.0, 20.0, 0.0, 20.0, 1.0), Bar(1, 20.0, 20.0, 20.0, 20.0, 1.0)];
      IsPermuted(window, permuted, 10.0, gapOrder, shapeOrder)
    ensures |permuted| == 2 && permuted[1].close == 10.0
  {
    hide IsPermuted;
    var window := [Bar(0, 0.0, 20.0, 0.0, 20.0, 1.0), Bar(1, 20.0, 20.0, 20.0, 20.0, 1.0)];
    PermutationKeepsEnd(window, permuted, 10.0, gapOrder, shapeOrder);
    var gaps, closes := Gaps(10.0, window), ClosesOf(Intrabars(window));
    assert gaps == [1.0, 1.0] && closes == [1.0, 1.0];
    assert [1.0, 1.0] == [1.0] + [1.0];
    ProductConcat([1.0], [1.0]);
    ProductOne(1.0);
  }

  /** A price moved from one level to another by what `price` was to `reference`, or not at all where either is no price. */
  predicate MovedLike(to: real, level: real, price: real, reference: real) {
    if price > 0.0 && reference > 0.0 then to * reference == level * price else to == level
  }

  /**
   * Every permuted bar, in numbers: it keeps its own time, opens over the close before it as the bar
   * its gap was taken from did over the close before that one, and has the volume, and over its open
   * the high, the low and the close, of the bar that its shape was taken from.
   */
  lemma {:induction false} PermutedBarIs(
    window: seq<Bar>, permuted: seq<Bar>, anchor: real, gapOrder: seq<nat>, shapeOrder: seq<nat>, i: nat)
    requires IsPermuted(window, permuted, anchor, gapOrder, shapeOrder) && i < |window|
    ensures i < |permuted| == |gapOrder| == |shapeOrder| == |window| && gapOrder[i] < |window| && shapeOrder[i] < |window|
    ensures
      var b, g, shape := permuted[i], gapOrder[i], window[shapeOrder[i]];
      && b.at == window[i].at && b.volume == shape.volume
      && MovedLike(b.open, if i == 0 then anchor else permuted[i - 1].close,
                   window[g].open, if g == 0 then anchor else window[g - 1].close)
      && MovedLike(b.high, b.open, shape.high, shape.open)
      && MovedLike(b.low, b.open, shape.low, shape.open)
      && MovedLike(b.close, b.open, shape.close, shape.open)
  {
    hide Ratio, Times, MovedLike, IsPermutation;
    var g, shape := gapOrder[i], window[shapeOrder[i]];
    assert permuted[i] == Rebuilt(window[i].at, CloseBefore(anchor, permuted, i), Gaps(anchor, window)[g], IntrabarOf(shape));
    RatioMoves(CloseBefore(anchor, permuted, i), window[g].open, CloseBefore(anchor, window, g));
    RatioMoves(permuted[i].open, shape.high, shape.open);
    RatioMoves(permuted[i].open, shape.low, shape.open);
    RatioMoves(permuted[i].open, shape.close, shape.open);
  }

  lemma {:induction false} RatioMoves(level: real, price: real, reference: real)
    ensures MovedLike(Times(level, Ratio(price, reference)), level, price, reference)
  {
    if price > 0.0 && reference > 0.0 {
      var ratio := price / reference;
      assert ratio * reference == price;
      assert level * ratio * reference == level * (ratio * reference);
    }
  }

  /**
   * The bags of returns survive exactly when the close before the window is positive, or when nothing
   * in the window counts as a move anyway.
   */
  lemma {:induction false} PermutationKeepsReturns(
    window: seq<Bar>, permuted: seq<Bar>, anchor: real, gapOrder: seq<nat>, shapeOrder: seq<nat>)
    requires IsPermuted(window, permuted, anchor, gapOrder, shapeOrder)
    ensures (multiset(Gaps(anchor, permuted)) == multiset(Gaps(anchor, window)) &&
             multiset(Intrabars(permuted)) == multiset(Intrabars(window))) <==>
            anchor > 0.0 || NoMoves(Gaps(anchor, window), Intrabars(window))
  {
    hide Ratio, IsPermutation, IsRebuilt, AllPositive, Taken, Gaps, Intrabars, IntrabarOf, NoMoves, Product;
    PermutedFacts(window, permuted, anchor, gapOrder, shapeOrder);
    var gaps, shapes := Taken(Gaps(anchor, window), gapOrder), Taken(Intrabars(window), shapeOrder);
    RebuiltTimes(window, permuted, anchor, gaps, shapes);
    if anchor > 0.0 {
      RebuiltHas(window, permuted, anchor, gaps, shapes);
    } else {
      RebuiltFlat(window, permuted, anchor, gaps, shapes);
      if NoMoves(Gaps(anchor, window), Intrabars(window)) {
        SameMoves(Gaps(anchor, window), Intrabars(window), gaps, shapes);
        FlatIsSame(permuted, anchor, gaps, shapes);
      } else if multiset(Gaps(anchor, permuted)) == multiset(Gaps(anchor, window)) &&
                multiset(Intrabars(permuted)) == multiset(Intrabars(window)) {
        SameMoves(Gaps(anchor, permuted), Intrabars(permuted), Gaps(anchor, window), Intrabars(window));
        assert false;
      }
    }
  }

  /** Being flat is a property of the bags. */
  lemma {:induction false} SameMoves(gaps: seq<real>, shapes: seq<Intrabar>, gaps': seq<real>, shapes': seq<Intrabar>)
    requires multiset(gaps) == multiset(gaps') && multiset(shapes) == multiset(shapes') && NoMoves(gaps, shapes)
    ensures NoMoves(gaps', shapes')
  {
    hide NoMove;
    forall i | 0 <= i < |gaps'| ensures gaps'[i] == 1.0 {
      assert gaps'[i] in multiset(gaps') && gaps'[i] in gaps;
    }
    forall i | 0 <= i < |shapes'| ensures NoMove(shapes'[i]) {
      assert shapes'[i] in multiset(shapes') && shapes'[i] in shapes;
    }
  }

  lemma {:induction false} FlatIsSame(permuted: seq<Bar>, anchor: real, gaps: seq<real>, shapes: seq<Intrabar>)
    requires |permuted| == |gaps| == |shapes| && NoMoves(gaps, shapes) && NoMoves(Gaps(anchor, permuted), Intrabars(permuted))
    requires forall i :: 0 <= i < |permuted| ==> permuted[i].volume == shapes[i].volume
    ensures Gaps(anchor, permuted) == gaps && Intrabars(permuted) == shapes
  {
    hide Ratio;
    assert forall i :: 0 <= i < |permuted| ==> NoMove(Intrabars(permuted)[i]) && NoMove(shapes[i]);
  }

  // ----------------------------------------------------------------- shape

  /** High and low bound open and close. */
  predicate Shaped(b: Bar) {
    b.low <= b.open <= b.high && b.low <= b.close <= b.high
  }

  predicate ShapedRatios(s: Intrabar) {
    s.low <= 1.0 <= s.high && s.low <= s.close <= s.high
  }

  /** What a bar's prices must be for its ratios to keep its shape: it does not fall through a low at or below zero. */
  predicate KeepsShape(b: Bar) {
    b.open <= 0.0 || b.low > 0.0 || b.close <= 0.0 || b.open <= b.close
  }

  lemma {:induction false} RatioOrder(a: real, b: real, reference: real)
    requires reference > 0.0 && a > 0.0 && b > 0.0
    ensures Ratio(a, reference) <= Ratio(b, reference) <==> a <= b
  {
    TimesOrder(Ratio(a, reference), Ratio(b, reference), reference);
    assert reference * (a / reference) == a && reference * (b / reference) == b;
  }

  lemma {:induction false} TimesOrder(a: real, b: real, scale: real)
    requires scale > 0.0
    ensures Times(scale, a) <= Times(scale, b) <==> a <= b
  {
    if a <= b {
      assert scale * (b - a) >= 0.0;
    } else {
      assert scale * (a - b) > 0.0;
    }
  }

  lemma {:induction false} RatioOfItself(reference: real)
    ensures Ratio(reference, reference) == 1.0
  {
    assert reference != 0.0 ==> reference / reference == 1.0;
  }

  lemma {:induction false} RatiosOfShape(b: Bar)
    requires Shaped(b)
    ensures ShapedRatios(IntrabarOf(b)) <==> KeepsShape(b)
  {
    if b.open > 0.0 {
      RatioOfItself(b.open);
      RatioOrder(b.open, b.high, b.open);
      if b.close > 0.0 {
        RatioOrder(b.close, b.high, b.open);
        RatioOrder(b.open, b.close, b.open);
      }
      if b.low > 0.0 {
        RatioOrder(b.low, b.open, b.open);
        RatioOrder(b.low, b.close, b.open);
      }
    }
  }

  lemma {:induction false} RebuiltShape(at: int, previousClose: real, gap: real, shape: Intrabar)
    requires previousClose > 0.0 && gap > 0.0
    ensures Shaped(Rebuilt(at, previousClose, gap, shape)) <==> ShapedRatios(shape)
  {
    hide Times;
    var open := Times(previousClose, gap);
    TimesPositive(previousClose, gap);
    TimesLaws(open, 1.0, 1.0);
    TimesLaws(1.0, open, 1.0);
    TimesOrder(shape.low, 1.0, open);
    TimesOrder(1.0, shape.high, open);
    TimesOrder(shape.low, shape.close, open);
    TimesOrder(shape.close, shape.high, open);
  }

  /** Below zero a bar is turned over, so only these ratios keep it well shaped. */
  predicate FlippedRatios(s: Intrabar) {
    s.high <= 1.0 <= s.low && s.high <= s.close <= s.low
  }

  lemma {:induction false} FlippedIsNoMove(b: Bar)
    requires Shaped(b)
    ensures FlippedRatios(IntrabarOf(b)) <==> NoMove(IntrabarOf(b))
  {
    if b.open > 0.0 {
      RatioOfItself(b.open);
      RatioOrder(b.open, b.high, b.open);
      if b.low > 0.0 { RatioOrder(b.low, b.open, b.open); }
    }
  }

  lemma {:induction false} RebuiltShapeBelow(at: int, previousClose: real, gap: real, shape: Intrabar)
    requires previousClose < 0.0 && gap > 0.0
    ensures Shaped(Rebuilt(at, previousClose, gap, shape)) <==> FlippedRatios(shape)
  {
    hide Times;
    var open := Times(previousClose, gap);
    TimesPositive(previousClose, gap);
    TimesLaws(open, 1.0, 1.0);
    TimesLaws(1.0, open, 1.0);
    TimesFlips(shape.low, 1.0, open);
    TimesFlips(1.0, shape.high, open);
    TimesFlips(shape.low, shape.close, open);
    TimesFlips(shape.close, shape.high, open);
  }

  lemma {:induction false} TimesFlips(a: real, b: real, scale: real)
    requires scale < 0.0
    ensures Times(scale, a) <= Times(scale, b) <==> b <= a
  {
    if b <= a {
      assert scale * (a - b) <= 0.0;
    } else {
      assert scale * (b - a) < 0.0;
    }
  }

  lemma {:induction false} ZeroShape(at: int, gap: real, shape: Intrabar)
    ensures Shaped(Rebuilt(at, 0.0, gap, shape))
  {}

  predicate AllShaped(bars: seq<Bar>) {
    forall i :: 0 <= i < |bars| ==> Shaped(bars[i])
  }

  /**
   * When well-shaped bars stay so, exactly. After a positive close: when no bar opens above zero, falls, and has
   * a low that is not positive. After a close of zero: always. After a negative one: when no bar moves.
   */
  lemma {:induction false} PermutationKeepsShape(
    window: seq<Bar>, permuted: seq<Bar>, anchor: real, gapOrder: seq<nat>, shapeOrder: seq<nat>)
    requires IsPermuted(window, permuted, anchor, gapOrder, shapeOrder) && AllShaped(window)
    ensures anchor > 0.0 ==> (AllShaped(permuted) <==> forall i :: 0 <= i < |window| ==> KeepsShape(window[i]))
    ensures anchor == 0.0 ==> AllShaped(permuted)
    ensures anchor < 0.0 ==> (AllShaped(permuted) <==> forall i :: 0 <= i < |window| ==> NoMove(IntrabarOf(window[i])))
  {
    hide Ratio, IsPermutation, AllPositive, Taken, Gaps, IntrabarOf, Shaped, KeepsShape, ShapedRatios, FlippedRatios, NoMove,
      Product, Rebuilt;
    PermutedFacts(window, permuted, anchor, gapOrder, shapeOrder);
    var gaps, shapes := Taken(Gaps(anchor, window), gapOrder), Taken(Intrabars(window), shapeOrder);
    forall i | 0 <= i < |window|
      ensures ShapedRatios(Intrabars(window)[i]) <==> KeepsShape(window[i])
      ensures FlippedRatios(Intrabars(window)[i]) <==> NoMove(IntrabarOf(window[i]))
    {
      RatiosOfShape(window[i]);
      FlippedIsNoMove(window[i]);
    }
    forall i | 0 <= i < |permuted|
      ensures anchor > 0.0 ==> (Shaped(permuted[i]) <==> ShapedRatios(shapes[i]))
      ensures anchor == 0.0 ==> Shaped(permuted[i])
      ensures anchor < 0.0 ==> (Shaped(permuted[i]) <==> FlippedRatios(shapes[i]))
    {
      RebuiltShapeOf(window, permuted, anchor, gaps, shapes, i);
    }
    BagsAlike(Intrabars(window), shapes);
    BagsAlike(shapes, Intrabars(window));
  }

  lemma {:induction false} RebuiltShapeOf(
    window: seq<Bar>, permuted: seq<Bar>, anchor: real, gaps: seq<real>, shapes: seq<Intrabar>, i: nat)
    requires IsRebuilt(window, permuted, anchor, gaps, shapes) && AllPositive(gaps, shapes) && i < |permuted|
    ensures anchor > 0.0 ==> (Shaped(permuted[i]) <==> ShapedRatios(shapes[i]))
    ensures anchor == 0.0 ==> Shaped(permuted[i])
    ensures anchor < 0.0 ==> (Shaped(permuted[i]) <==> FlippedRatios(shapes[i]))
  {
    hide Shaped, ShapedRatios, FlippedRatios, Rebuilt, CloseBefore, AllPositive;
    ClosesKeepSign(window, permuted, anchor, gaps, shapes, i);
    PositiveAt(gaps, shapes, i);
    var previous := CloseBefore(anchor, permuted, i);
    if previous > 0.0 {
      RebuiltShape(window[i].at, previous, gaps[i], shapes[i]);
    } else if previous < 0.0 {
      RebuiltShapeBelow(window[i].at, previous, gaps[i], shapes[i]);
    } else {
      ZeroShape(window[i].at, gaps[i], shapes[i]);
    }
  }

  lemma {:induction false} PositiveAt(gaps: seq<real>, shapes: seq<Intrabar>, i: nat)
    requires AllPositive(gaps, shapes) && i < |gaps|
    ensures gaps[i] > 0.0
  {}

  /** What holds of every tuple holds of them in any other order. */
  lemma {:induction false} BagsAlike(a: seq<Intrabar>, b: seq<Intrabar>)
    requires multiset(a) == multiset(b)
    ensures (forall i :: 0 <= i < |a| ==> ShapedRatios(a[i])) ==> forall i :: 0 <= i < |b| ==> ShapedRatios(b[i])
    ensures (forall i :: 0 <= i < |a| ==> FlippedRatios(a[i])) ==> forall i :: 0 <= i < |b| ==> FlippedRatios(b[i])
  {
    hide ShapedRatios, FlippedRatios;
    forall i | 0 <= i < |b| ensures b[i] in a {
      assert b[i] in multiset(b) && b[i] in multiset(a);
    }
  }
}
