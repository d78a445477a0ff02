/** What stage timing measures: slices of time, each belonging to the stages that were running through it. */
module MonitorSlices {
  import opened Wrappers
  import opened Collections
  import opened Trading
  import opened Monitor

  /** What happened to one monitor, with the clock readings it happened at. */
  datatype Event = Enter(name: string, at: real) | Exit(at: real) | Publish(from: real, to: real)

  function Begins(e: Event): real {
    if e.Publish? then e.from else e.at
  }

  function Ends(e: Event): real {
    if e.Publish? then e.to else e.at
  }

  /** The names of the running stages, outermost first. */
  function Open(history: seq<Event>): StagePath {
    if history == [] then [] else
      var before := Open(history[..|history| - 1]);
      match history[|history| - 1]
      case Enter(name, at) => before + [name]
      case Exit(at) => if before == [] then [] else before[..|before| - 1]
      case Publish(from, to) => before
  }

  /** When the last event was over. */
  function Last(history: seq<Event>, start: real): real {
    if history == [] then start else Ends(history[|history| - 1])
  }

  /** Events follow one another in time, and only a running stage is left. */
  predicate Legal(history: seq<Event>, start: real) {
    history == [] ||
    (var front, e := history[..|history| - 1], history[|history| - 1];
     && Legal(front, start) && Last(front, start) <= Begins(e) <= Ends(e)
     && (e.Exit? ==> Open(front) != []))
  }

  /** A stage runs while its path leads to the innermost running stage. */
  predicate Runs(history: seq<Event>, p: StagePath) {
    p != [] && p <= Open(history)
  }

  /** How often a stage was entered. */
  function Calls(history: seq<Event>, p: StagePath): nat {
    if history == [] then 0 else
      Calls(history[..|history| - 1], p) + if history[|history| - 1].Enter? && Open(history) == p then 1 else 0
  }

  /** The time up to `t` through which a stage ran, publications left out. */
  function TimeIn(history: seq<Event>, p: StagePath, t: real): real {
    if history == [] then 0.0 else
      var e := history[|history| - 1];
      TimeIn(history[..|history| - 1], p, Begins(e)) + if Runs(history, p) then t - Ends(e) else 0.0
  }

  /** The time up to `t` through which a stage was the innermost one. */
  function OwnTime(history: seq<Event>, p: StagePath, t: real): real {
    if history == [] then 0.0 else
      var e := history[|history| - 1];
      OwnTime(history[..|history| - 1], p, Begins(e)) + if p != [] && p == Open(history) then t - Ends(e) else 0.0
  }

  /** How long a stage has been running at `t` since it was last entered. */
  function Running(history: seq<Event>, p: StagePath, t: real): real {
    if history == [] || !Runs(history, p) then 0.0 else
      var e := history[|history| - 1];
      if e.Enter? && Open(history) == p then t - Ends(e)
      else Running(history[..|history| - 1], p, Begins(e)) + (t - Ends(e))
  }

  /** The longest a stage has run at a stretch. */
  function Longest(history: seq<Event>, p: StagePath, t: real): real {
    if history == [] then 0.0 else
      MaxReal(Longest(history[..|history| - 1], p, Begins(history[|history| - 1])), Running(history, p, t))
  }

  /** The state that a history leads to. */
  function After(history: seq<Event>, start: real): State {
    if history == [] then State(start, start, 0.0, [], map[]) else
      var before := After(history[..|history| - 1], start);
      match history[|history| - 1]
      case Enter(name, at) => Entered(before, name, at)
      case Exit(at) => if before.frames == [] then before else Exited(before, at)
      case Publish(from, to) => Published(before, from, to)
  }

  /** What a snapshot at clock time `t` reports. */
  function Snapped(s: State, t: real): map<StagePath, Stage> {
    Observed(s, Work(s, t), |s.frames|)
  }

  /** The frames are the running stages, each named by its path. */
  predicate Stacked(frames: seq<Frame>, open: StagePath) {
    |frames| == |open| && forall i :: 0 <= i < |frames| ==> frames[i].path == open[..i + 1]
  }

  // ---------------------------------------------------------------- states

  /** What a snapshot says of a running stage. */
  function RunningStage(s: State, t: real, i: nat): Stage
    requires i < |s.frames|
  {
    var frame := s.frames[i];
    var duration := Work(s, t) - frame.start;
    var recorded := Recorded(s.stages, frame.path);
    Stage(recorded.calls + 1, recorded.inclusive + duration,
          recorded.exclusive + (Until(s.frames, i, Work(s, t)) - frame.start - frame.children),
          MaxReal(recorded.longest, duration))
  }

  lemma {:induction false} ObservedAt(s: State, t: real, open: StagePath, n: nat, p: StagePath)
    requires Inv(s) && s.now <= t && Stacked(s.frames, open) && n <= |s.frames|
    ensures
      var observed := Observed(s, Work(s, t), n);
      if p != [] && |p| <= n && p <= open then
        p in observed && observed[p] == RunningStage(s, t, |p| - 1)
      else (p in observed <==> p in s.stages) && Recorded(observed, p) == Recorded(s.stages, p)
  {
    hide Inv, RunningStage, Observed;
    if n == 0 {
      NothingObserved(s, Work(s, t));
    } else {
      var path := s.frames[n - 1].path;
      ObservedAt(s, t, open, n - 1, p);
      ObservedAt(s, t, open, n - 1, path);
      ObservedOneMore(s, t, n);
      assert path == open[..n];
      assert p <= open && |p| == n ==> p == open[..n];
    }
  }

  lemma {:induction false} NothingObserved(s: State, now: real)
    ensures Observed(s, now, 0) == s.stages
  {}

  /** Observing a running frame, with no clamp firing. */
  lemma {:induction false} ObservedOneMore(s: State, t: real, n: nat)
    requires Inv(s) && s.now <= t && 1 <= n <= |s.frames|
    requires Recorded(Observed(s, Work(s, t), n - 1), s.frames[n - 1].path) == Recorded(s.stages, s.frames[n - 1].path)
    ensures Observed(s, Work(s, t), n) == Observed(s, Work(s, t), n - 1)[s.frames[n - 1].path := RunningStage(s, t, n - 1)]
  {
    hide Inv, Recorded;
    NoClampFires(s, t, n - 1);
  }

  lemma {:induction false} SnappedAt(s: State, t: real, open: StagePath, p: StagePath)
    requires Inv(s) && s.now <= t && Stacked(s.frames, open)
    ensures p in Snapped(s, t) <==> p in s.stages || (p != [] && p <= open)
    ensures Recorded(Snapped(s, t), p) ==
              if p != [] && p <= open then RunningStage(s, t, |p| - 1) else Recorded(s.stages, p)
  {
    hide Inv, RunningStage, Observed;
    ObservedAt(s, t, open, |s.frames|, p);
  }

  /** Entering a stage: one more call of it, and nothing else in the snapshot moves. */
  lemma {:induction false} SnapEnter(s: State, name: string, t: real, open: StagePath, p: StagePath)
    requires Inv(s) && s.now <= t && Stacked(s.frames, open) && Recorded(s.stages, open + [name]).longest >= 0.0
    ensures
      var s' := Entered(s, name, t);
      var was := Recorded(Snapped(s, t), p);
      && Inv(s') && Stacked(s'.frames, open + [name])
      && Recorded(Snapped(s', t), p) == (if p == open + [name] then was.(calls := was.calls + 1) else was)
      && (p in Snapped(s', t) <==> p in Snapped(s, t) || p == open + [name])
  {
    hide Inv, Recorded, Snapped;
    var s' := Entered(s, name, t);
    EnterKeeps(s, name, t);
    PushStacked(s.frames, open, name, Work(s, t));
    SnappedAt(s, t, open, p);
    SnappedAt(s', t, open + [name], p);
    if p <= open + [name] && p != open + [name] { ProperPrefix(p, open, name); }
    if p <= open { PrefixGrows(p, open, name); }
  }

  lemma {:induction false} ProperPrefix(p: StagePath, open: StagePath, name: string)
    requires p <= open + [name] && p != open + [name]
    ensures p <= open
  {
    assert |p| <= |open|;
  }

  lemma {:induction false} PrefixGrows(p: StagePath, open: StagePath, name: string)
    requires p <= open
    ensures p <= open + [name]
  {}

  lemma {:induction false} PushStacked(frames: seq<Frame>, open: StagePath, name: string, work: real)
    requires Stacked(frames, open)
    ensures Names(frames) == open && Stacked(frames + [Frame(open + [name], work, 0.0)], open + [name])
  {
    assert open[..|open|] == open;
    var more := frames + [Frame(open + [name], work, 0.0)];
    forall i | 0 <= i < |more| ensures more[i].path == (open + [name])[..i + 1] {
      if i < |frames| { assert open[..i + 1] == (open + [name])[..i + 1]; }
    }
  }

  /** Leaving a stage records exactly what a snapshot would have shown. */
  lemma {:induction false} SnapExit(s: State, t: real, open: StagePath, p: StagePath)
    requires Inv(s) && s.now <= t && Stacked(s.frames, open) && open != []
    ensures
      var s' := Exited(s, t);
      && Inv(s') && Stacked(s'.frames, open[..|open| - 1])
      && Recorded(Snapped(s', t), p) == Recorded(Snapped(s, t), p)
      && (p in Snapped(s', t) <==> p in Snapped(s, t))
  {
    hide Inv, Snapped, Exited, Plus;
    var s', inner := Exited(s, t), open[..|open| - 1];
    ExitKeeps(s, t);
    ExitedIs(s, t);
    PopStacked(s.frames, open, Work(s, t) - s.frames[|s.frames| - 1].start);
    SnappedAt(s, t, open, p);
    SnappedAt(s', t, inner, p);
    if p <= open && p != open { ShorterPrefix(p, open); }
    if p <= inner { assert p <= open; }
    LeftStage(s, t, open, p);
  }

  lemma {:induction false} ShorterPrefix(p: StagePath, open: StagePath)
    requires p <= open && p != open
    ensures open != [] && p <= open[..|open| - 1]
  {
    assert |p| < |open|;
  }

  lemma {:induction false} PopStacked(frames: seq<Frame>, open: StagePath, duration: real)
    requires Stacked(frames, open) && frames != []
    ensures Stacked(Popped(frames, duration), open[..|open| - 1])
  {
    var rest := Popped(frames, duration);
    forall i | 0 <= i < |rest| ensures rest[i].path == open[..|open| - 1][..i + 1] {
      assert frames[i].path == open[..i + 1] == open[..|open| - 1][..i + 1];
    }
  }

  lemma {:induction false} LeftStage(s: State, t: real, open: StagePath, p: StagePath)
    requires Inv(s) && s.now <= t && Stacked(s.frames, open) && open != []
    ensures
      var s', n := Exited(s, t), |open|;
      && (p == open ==> p in s'.stages && s'.stages[p] == RunningStage(s, t, n - 1))
      && (p != open ==> Recorded(s'.stages, p) == Recorded(s.stages, p) && (p in s'.stages <==> p in s.stages))
      && |s'.frames| == n - 1
      && (p != [] && p <= open && p != open ==> RunningStage(s', t, |p| - 1) == RunningStage(s, t, |p| - 1))
  {
    hide Inv, Exited;
    var n := |open|;
    ExitKeeps(s, t);
    ExitedIs(s, t);
    NoClampFires(s, t, n - 1);
    assert s.frames[n - 1].path == open[..n] == open;
    if p != [] && p <= open && p != open {
      assert |p| < n;
      assert s.frames[|p| - 1].path == open[..|p|] == p;
    }
  }

  lemma {:induction false} SnapPublish(s: State, from: real, to: real)
    requires s.now <= from <= to
    ensures Snapped(Published(s, from, to), to) == Snapped(s, from)
  {
    assert Work(Published(s, from, to), to) == Work(s, from);
    SameObserved(s, Published(s, from, to), Work(s, from), |s.frames|);
  }

  // --------------------------------------------------------------- histories

  /** The slices' account of a stage. */
  function SliceOf(history: seq<Event>, p: StagePath, t: real): Stage {
    Stage(Calls(history, p), TimeIn(history, p, t), OwnTime(history, p, t), Longest(history, p, t))
  }

  lemma {:induction false} LongestAtLeast(history: seq<Event>, p: StagePath, t: real)
    ensures 0.0 <= Longest(history, p, t) && Running(history, p, t) <= Longest(history, p, t)
  {
    if history != [] {
      LongestAtLeast(history[..|history| - 1], p, Begins(history[|history| - 1]));
    }
  }

  /** An event takes no time from the slices, and only entering a stage counts a call. */
  lemma {:induction false} SliceStep(front: seq<Event>, e: Event, p: StagePath)
    requires p != []
    ensures
      var history := front + [e];
      var was := SliceOf(front, p, Begins(e));
      SliceOf(history, p, Ends(e)) == if e.Enter? && Open(history) == p then was.(calls := was.calls + 1) else was
  {
    hide Runs, Open;
    var history := front + [e];
    assert history[..|history| - 1] == front;
    LongestAtLeast(front, p, Begins(e));
  }

  /** As time passes, it belongs to the running stages, and is the innermost one's own. */
  lemma {:induction false} SlicePasses(history: seq<Event>, p: StagePath, t: real)
    requires history != [] && p != []
    ensures
      var end := Ends(history[|history| - 1]);
      var was, now := SliceOf(history, p, end), SliceOf(history, p, t);
      && now.calls == was.calls
      && now.inclusive == was.inclusive + (if p <= Open(history) then t - end else 0.0)
      && now.exclusive == was.exclusive + (if p == Open(history) then t - end else 0.0)
      && (t >= end ==> now.longest == MaxReal(was.longest, Running(history, p, t)))
  {
    hide Open;
  }

  /** A running stage's frame started when it was last entered. */
  predicate Started(s: State, history: seq<Event>, p: StagePath, t: real) {
    p != [] && p <= Open(history) && |p| <= |s.frames| ==> Running(history, p, t) == Work(s, t) - s.frames[|p| - 1].start
  }

  /** What a snapshot shows as time passes. */
  lemma {:induction false} SnapPasses(s: State, open: StagePath, p: StagePath, end: real, t: real)
    requires Inv(s) && s.now <= end <= t && Stacked(s.frames, open)
    ensures
      var was, now := Recorded(Snapped(s, end), p), Recorded(Snapped(s, t), p);
      && (p in Snapped(s, end) <==> p in Snapped(s, t))
      && now.calls == was.calls
      && now.inclusive == was.inclusive + (if p != [] && p <= open then t - end else 0.0)
      && now.exclusive == was.exclusive + (if p != [] && p == open then t - end else 0.0)
      && now.longest == if p != [] && p <= open then MaxReal(was.longest, Work(s, t) - s.frames[|p| - 1].start) else was.longest
  {
    hide Inv, Recorded, Snapped;
    SnappedAt(s, end, open, p);
    SnappedAt(s, t, open, p);
    assert |p| == |open| && p <= open ==> p == open;
  }

  /** The history so far, its state, and every stage's account agree at time `t`. */
  ghost predicate Agrees(history: seq<Event>, start: real, p: StagePath, t: real) {
    var s := After(history, start);
    && Inv(s) && s.now == Last(history, start) && Stacked(s.frames, Open(history))
    && Recorded(Snapped(s, t), p) == SliceOf(history, p, t)
    && (p in Snapped(s, t) <==> Calls(history, p) > 0)
    && Started(s, history, p, t)
  }

  lemma {:induction false} PassingAgrees(history: seq<Event>, start: real, p: StagePath, t: real)
    requires p != [] && history != [] && Agrees(history, start, p, Last(history, start)) && Last(history, start) <= t
    ensures Agrees(history, start, p, t)
  {
    hide Inv, Snapped, Open, Calls, TimeIn, OwnTime, Longest, After, Stacked, Work;
    var s, end := After(history, start), Last(history, start);
    assert |s.frames| == |Open(history)| by { StackedLength(s.frames, Open(history)); }
    SnapPasses(s, Open(history), p, end, t);
    SlicePasses(history, p, t);
    LongestAtLeast(history, p, end);
    StartedPasses(s, history, p, end, t);
  }

  lemma {:induction false} StackedLength(frames: seq<Frame>, open: StagePath)
    requires Stacked(frames, open)
    ensures |frames| == |open|
  {}

  lemma {:induction false} StartedPasses(s: State, history: seq<Event>, p: StagePath, end: real, t: real)
    requires history != [] && end == Ends(history[|history| - 1]) && Started(s, history, p, end)
    ensures Started(s, history, p, t)
    ensures p != [] && !(p <= Open(history)) ==> Running(history, p, t) == 0.0
  {
    hide Open;
  }

  /** What an event does to the history it ends. */
  lemma {:induction false} HistoryStep(front: seq<Event>, e: Event, start: real)
    ensures
      var history := front + [e];
      && Last(history, start) == Ends(e)
      && (e.Enter? ==>
            Open(history) == Open(front) + [e.name] && After(history, start) == Entered(After(front, start), e.name, e.at))
      && (e.Exit? && Open(front) != [] ==> Open(history) == Open(front)[..|Open(front)| - 1])
      && (e.Exit? && After(front, start).frames != [] ==> After(history, start) == Exited(After(front, start), e.at))
      && (e.Publish? ==> Open(history) == Open(front) && After(history, start) == Published(After(front, start), e.from, e.to))
  {
    hide Entered, Exited, Published;
    assert (front + [e])[..|front|] == front;
  }

  lemma {:induction false} RunningStep(front: seq<Event>, e: Event, p: StagePath)
    requires p != [] && p <= Open(front + [e])
    ensures Running(front + [e], p, Ends(e)) ==
              if e.Enter? && Open(front + [e]) == p then 0.0 else Running(front, p, Begins(e))
  {
    hide Open;
    assert (front + [e])[..|front|] == front;
  }

  lemma {:induction false} EnterAgrees(front: seq<Event>, e: Event, start: real, p: StagePath)
    requires p != [] && e.Enter? && Last(front, start) <= e.at
    requires Agrees(front, start, p, e.at) && Agrees(front, start, Open(front) + [e.name], e.at)
    ensures Agrees(front + [e], start, p, e.at)
  {
    hide Inv, Snapped, Recorded, Calls, TimeIn, OwnTime, Longest, After, Open, Running;
    var s, open, name := After(front, start), Open(front), e.name;
    HistoryStep(front, e, start);
    SliceStep(front, e, p);
    LongestAtLeast(front, open + [name], e.at);
    SnappedAt(s, e.at, open, open + [name]);
    SnapEnter(s, name, e.at, open, p);
    if p <= open + [name] {
      RunningStep(front, e, p);
      if p != open + [name] { ProperPrefix(p, open, name); }
    }
  }

  lemma {:induction false} ExitAgrees(front: seq<Event>, e: Event, start: real, p: StagePath)
    requires p != [] && e.Exit? && Last(front, start) <= e.at && Open(front) != []
    requires Agrees(front, start, p, e.at)
    ensures Agrees(front + [e], start, p, e.at)
  {
    hide Inv, Snapped, Recorded, Calls, TimeIn, OwnTime, Longest, After, Open, Running, Exited;
    var s, open := After(front, start), Open(front);
    HistoryStep(front, e, start);
    SliceStep(front, e, p);
    SnapExit(s, e.at, open, p);
    FramesStay(s, e.at, open, p);
    if p <= open[..|open| - 1] {
      assert p <= open;
      RunningStep(front, e, p);
    }
  }

  /** The frames that stay keep their start. */
  lemma {:induction false} FramesStay(s: State, t: real, open: StagePath, p: StagePath)
    requires Inv(s) && s.now <= t && Stacked(s.frames, open) && open != []
    ensures Exited(s, t).now == t && |Exited(s, t).frames| == |open| - 1 && Work(Exited(s, t), t) == Work(s, t)
    ensures 0 < |p| < |open| ==> Exited(s, t).frames[|p| - 1].start == s.frames[|p| - 1].start
  {
    hide Inv, Exited;
    ExitKeeps(s, t);
    ExitedIs(s, t);
  }

  lemma {:induction false} PublishAgrees(front: seq<Event>, e: Event, start: real, p: StagePath)
    requires p != [] && e.Publish? && Last(front, start) <= e.from <= e.to
    requires Agrees(front, start, p, e.from)
    ensures Agrees(front + [e], start, p, e.to)
  {
    hide Inv, Snapped, Recorded, Calls, TimeIn, OwnTime, Longest, After, Open, Running;
    var s := After(front, start);
    HistoryStep(front, e, start);
    SliceStep(front, e, p);
    PublishKeeps(s, e.from, e.to);
    SnapPublish(s, e.from, e.to);
    if p <= Open(front) { RunningStep(front, e, p); }
  }

  lemma {:induction false} NothingYet(start: real, p: StagePath, t: real)
    requires start <= t
    ensures Agrees([], start, p, t)
  {
    assert Exclusives(map[]) == map[] && Outermost(map[]) == map[];
    SumEmpty<StagePath>();
  }

  /**
   * What any snapshot reports, after any history of entering, leaving and publishing: each stage that
   * was ever entered, with how often it was, the time through which it ran, the part of that through
   * which nothing ran inside it, and its longest run; time spent publishing belongs to no stage.
   */
  lemma {:induction false} SnapshotIsSlices(history: seq<Event>, start: real, p: StagePath, t: real)
    requires Legal(history, start) && Last(history, start) <= t && p != []
    ensures Inv(After(history, start)) && Agrees(history, start, p, t)
    ensures p in Snapped(After(history, start), t) <==> Calls(history, p) > 0
    ensures p in Snapped(After(history, start), t) ==>
              Snapped(After(history, start), t)[p] ==
                Stage(Calls(history, p), TimeIn(history, p, t), OwnTime(history, p, t), Longest(history, p, t))
  {
    hide Agrees, Inv, Snapped, Calls, TimeIn, OwnTime, Longest, After;
    if history == [] {
      NothingYet(start, p, t);
    } else {
      var front, e := history[..|history| - 1], history[|history| - 1];
      assert history == front + [e];
      SnapshotIsSlices(front, start, p, Begins(e));
      match e {
        case Enter(name, at) =>
          SnapshotIsSlices(front, start, Open(front) + [name], at);
          EnterAgrees(front, e, start, p);
        case Exit(at) => ExitAgrees(front, e, start, p);
        case Publish(from, to) => PublishAgrees(front, e, start, p);
      }
      PassingAgrees(history, start, p, t);
    }
    AgreesMeans(history, start, p, t);
  }

  lemma {:induction false} AgreesMeans(history: seq<Event>, start: real, p: StagePath, t: real)
    requires Agrees(history, start, p, t)
    ensures Inv(After(history, start))
    ensures p in Snapped(After(history, start), t) <==> Calls(history, p) > 0
    ensures Recorded(Snapped(After(history, start), t), p) == SliceOf(history, p, t)
  {
    hide Inv, Snapped, Calls, After, Recorded;
  }
}
