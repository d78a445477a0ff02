/** Bars in time order. */
module BarSeries {
  import opened Broker

  predicate SortedBars(bars: seq<Bar>) {
    forall i, j :: 0 <= i < j < |bars| ==> bars[i].at <= bars[j].at
  }

  /** Placing a bar after those of its own time, as a stable sort does. */
  function InsertBar(bars: seq<Bar>, bar: Bar): (r: seq<Bar>)
    requires SortedBars(bars)
    ensures SortedBars(r) && |r| == |bars| + 1
    ensures bars != [] && bars[|bars| - 1].at > bar.at ==> r[|r| - 1] == bars[|bars| - 1]
    ensures bars == [] || bars[|bars| - 1].at <= bar.at ==> r == bars + [bar]
  {
    if bars == [] || bars[|bars| - 1].at <= bar.at then bars + [bar] else
      InsertBar(bars[..|bars| - 1], bar) + [bars[|bars| - 1]]
  }

  /** Inserting loses no bar and invents none. */
  lemma {:induction false} InsertBarKeeps(bars: seq<Bar>, bar: Bar)
    requires SortedBars(bars)
    ensures multiset(InsertBar(bars, bar)) == multiset(bars) + multiset{bar}
  {
    hide SortedBars;
    if bars != [] && bars[|bars| - 1].at > bar.at {
      SortedFront(bars);
      assert bars == bars[..|bars| - 1] + [bars[|bars| - 1]];
      InsertBarKeeps(bars[..|bars| - 1], bar);
    }
  }

  lemma {:induction false} SortedFront(bars: seq<Bar>)
    requires SortedBars(bars) && bars != []
    ensures SortedBars(bars[..|bars| - 1])
  {}

  /** No two bars share a time. */
  predicate StrictlyIncreasing(bars: seq<Bar>) {
    forall i, j :: 0 <= i < j < |bars| ==> bars[i].at < bars[j].at
  }

  lemma {:induction false} IncreasingIsSorted(bars: seq<Bar>)
    requires StrictlyIncreasing(bars)
    ensures SortedBars(bars)
  {}

  lemma {:induction false} InsertMembers(bars: seq<Bar>, bar: Bar)
    requires SortedBars(bars)
    ensures forall b :: b in InsertBar(bars, bar) <==> b == bar || b in bars
  {
    hide SortedBars, InsertBar;
    InsertBarKeeps(bars, bar);
    assert forall b :: b in InsertBar(bars, bar) <==> b in multiset(InsertBar(bars, bar));
  }

  lemma {:induction false} InsertIncreasing(bars: seq<Bar>, bar: Bar)
    requires SortedBars(bars) && StrictlyIncreasing(bars) && forall b :: b in bars ==> b.at != bar.at
    ensures StrictlyIncreasing(InsertBar(bars, bar))
  {
    if bars != [] {
      var front, last := bars[..|bars| - 1], bars[|bars| - 1];
      assert last in bars && forall b :: b in front ==> b in bars && b.at < last.at;
      if last.at > bar.at {
        SortedFront(bars);
        InsertIncreasing(front, bar);
        InsertMembers(front, bar);
        AppendIncreasing(InsertBar(front, bar), last);
      } else {
        AppendIncreasing(bars, bar);
      }
    }
  }

  lemma {:induction false} AppendIncreasing(bars: seq<Bar>, bar: Bar)
    requires StrictlyIncreasing(bars) && forall b :: b in bars ==> b.at < bar.at
    ensures StrictlyIncreasing(bars + [bar])
  {}
}
