/** Prediction to target exposure, with hysteresis and session safety. */
module DecisionPolicy {
  import opened Wrappers
  import opened Trading
  import opened Session

  /** Thresholds are returns or probabilities; the windows are whole minutes. */
  datatype Policy = Policy(
    longEntry: real, shortEntry: real, longExit: real, shortExit: real, classThreshold: real,
    entryDelay: int, entryCutoff: int, flatten: int)

  /** What configuration validation guarantees. */
  predicate ValidPolicy(p: Policy) {
    && p.longExit <= p.longEntry && p.shortEntry <= p.shortExit
    && p.shortEntry <= 0.0 <= p.longEntry
    && 5 <= p.flatten <= p.entryCutoff && 0 <= p.entryDelay
  }

  /** A regression value, or class probabilities in their dictionary order (never empty). */
  datatype Prediction =
    | Regression(value: real)
    | Classification(first: (Exposure, real), others: seq<(Exposure, real)>)

  function ExposureOf(qty: real): Exposure {
    if qty > 0.0 then Long else if qty < 0.0 then Short else Flat
  }

  function CurrentOf(position: Option<real>): Exposure {
    if position.Some? then ExposureOf(position.value) else Flat
  }

  function RegressionTarget(p: Policy, value: real, current: Exposure): Exposure {
    if current == Long then
      if value >= p.longExit then Long else if value <= p.shortEntry then Short else Flat
    else if current == Short then
      if value <= p.shortExit then Short else if value >= p.longEntry then Long else Flat
    else if value >= p.longEntry then Long
    else if value <= p.shortEntry then Short
    else Flat
  }

  /** The first most probable class. */
  function MostProbable(best: (Exposure, real), others: seq<(Exposure, real)>): (Exposure, real)
    decreases |others|
  {
    if others == [] then best
    else MostProbable(if others[0].1 > best.1 then others[0] else best, others[1..])
  }

  function ClassTarget(p: Policy, best: (Exposure, real)): Exposure {
    if best.1 < p.classThreshold then Flat else best.0
  }

  predicate EntriesAllowed(p: Policy, sinceOpen: int, untilClose: int) {
    sinceOpen >= p.entryDelay * MINUTE && untilClose > p.entryCutoff * MINUTE
  }

  function Decide(p: Policy, prediction: Prediction, position: Option<real>, sinceOpen: int, untilClose: int): Exposure {
    var current := CurrentOf(position);
    if position.Some? && untilClose <= p.flatten * MINUTE then Flat else
      var target := match prediction
        case Regression(value) => RegressionTarget(p, value, current)
        case Classification(first, others) => ClassTarget(p, MostProbable(first, others));
      if current == Flat && (target == Long || target == Short) then
        if !EntriesAllowed(p, sinceOpen, untilClose) then Flat else target
      else if (current == Long || current == Short) && target != current && target != Flat &&
              !EntriesAllowed(p, sinceOpen, untilClose) then Flat
      else target
  }

  /** Exposure is opened or reversed only inside the entry window, whatever the model predicts. */
  lemma {:induction false} EntriesOnlyInWindow(
    p: Policy, prediction: Prediction, position: Option<real>, sinceOpen: int, untilClose: int)
    ensures
      var target := Decide(p, prediction, position, sinceOpen, untilClose);
      (target == Long || target == Short) && target != CurrentOf(position) ==> EntriesAllowed(p, sinceOpen, untilClose)
  {}

  /** In the flatten zone a valid policy can only ask for FLAT, or stay silent. */
  lemma {:induction false} FlatInFlattenZone(
    p: Policy, prediction: Prediction, position: Option<real>, sinceOpen: int, untilClose: int)
    requires ValidPolicy(p) && untilClose <= p.flatten * MINUTE
    ensures
      var target := Decide(p, prediction, position, sinceOpen, untilClose);
      target == Flat || (position.None? && target == Unchanged)
  {
    assert p.flatten * MINUTE <= p.entryCutoff * MINUTE;
  }

  /**
   * What a regression value decides: a position is kept while the value holds to its side's exit
   * threshold; otherwise, and from flat, a value beyond an entry threshold opens its side if the entry
   * window is open, and anything else is FLAT. Nothing is kept once the flatten zone begins.
   */
  lemma {:induction false} RegressionDecides(p: Policy, value: real, position: Option<real>, sinceOpen: int, untilClose: int)
    ensures
      var target := Decide(p, Regression(value), position, sinceOpen, untilClose);
      var held := if position.Some? then position.value else 0.0;
      var enters := sinceOpen >= p.entryDelay * MINUTE && untilClose > p.entryCutoff * MINUTE;
      && (position.Some? && untilClose <= p.flatten * MINUTE ==> target == Flat)
      && (position.None? || untilClose > p.flatten * MINUTE ==>
            && (target == Long <==>
                  if held > 0.0 then value >= p.longExit
                  else enters && value >= p.longEntry && (held < 0.0 ==> value > p.shortExit))
            && (target == Short <==>
                  if held < 0.0 then value <= p.shortExit
                  else enters && value <= p.shortEntry && value < (if held > 0.0 then p.longExit else p.longEntry))
            && (target == Long || target == Short || target == Flat))
  {}

  /** Position `k` of the class probabilities is the first of the largest. */
  predicate FirstLargest(classes: seq<(Exposure, real)>, k: nat) {
    && k < |classes| && (forall i :: 0 <= i < k ==> classes[i].1 < classes[k].1)
    && forall i :: k <= i < |classes| ==> classes[i].1 <= classes[k].1
  }

  lemma {:induction false} MostProbableIsFirst(best: (Exposure, real), others: seq<(Exposure, real)>) returns (k: nat)
    ensures FirstLargest([best] + others, k) && MostProbable(best, others) == ([best] + others)[k]
    decreases |others|
  {
    var all := [best] + others;
    if others == [] {
      k := 0;
    } else {
      var rest := others[1..];
      var takes := others[0].1 > best.1;
      var front := [if takes then others[0] else best] + rest;
      var j := MostProbableIsFirst(front[0], rest);
      assert front[j] == MostProbable(best, others);
      k := if j == 0 && !takes then 0 else j + 1;
      assert forall i :: 2 <= i < |all| ==> all[i] == front[i - 1];
    }
  }

  /**
   * What class probabilities decide: the first most probable class, or FLAT below the threshold; a
   * change of side outside the entry window, or a position in the flatten zone, becomes FLAT.
   */
  lemma {:induction false} ClassesDecide(
    p: Policy, first: (Exposure, real), others: seq<(Exposure, real)>, position: Option<real>, sinceOpen: int, untilClose: int)
    returns (k: nat)
    ensures FirstLargest([first] + others, k)
    ensures
      var target := Decide(p, Classification(first, others), position, sinceOpen, untilClose);
      var held := if position.Some? then position.value else 0.0;
      var enters := sinceOpen >= p.entryDelay * MINUTE && untilClose > p.entryCutoff * MINUTE;
      var (named, probability) := ([first] + others)[k];
      && (position.Some? && untilClose <= p.flatten * MINUTE ==> target == Flat)
      && (position.None? || untilClose > p.flatten * MINUTE ==>
            && (probability < p.classThreshold ==> target == Flat)
            && (probability >= p.classThreshold ==>
                  && (target == Long <==> named == Long && (held > 0.0 || enters))
                  && (target == Short <==> named == Short && (held < 0.0 || enters))
                  && (target == Unchanged <==> named == Unchanged && (held == 0.0 || enters))))
  {
    k := MostProbableIsFirst(first, others);
    hide MostProbable, FirstLargest;
  }

  /**
   * Hysteresis: inside the entry window a long position survives exactly while the value stays at or
   * above its exit threshold, which never exceeds the entry threshold; shorts mirror it.
   */
  lemma {:induction false} Hysteresis(p: Policy, value: real, qty: real, sinceOpen: int, untilClose: int)
    requires ValidPolicy(p) && qty != 0.0 && untilClose > p.flatten * MINUTE
    ensures
      var target := Decide(p, Regression(value), Some(qty), sinceOpen, untilClose);
      && (qty > 0.0 ==> (target == Long <==> value >= p.longExit))
      && (qty < 0.0 ==> (target == Short <==> value <= p.shortExit))
      && (Decide(p, Regression(value), None, sinceOpen, untilClose) == Long && qty > 0.0 ==> target == Long)
      && (Decide(p, Regression(value), None, sinceOpen, untilClose) == Short && qty < 0.0 ==> target == Short)
  {}
}
