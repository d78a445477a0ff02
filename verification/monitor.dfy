/** Stage timing: a stack of running frames, and what their recorded times add up to. */
module Monitor {
  import opened Wrappers
  import opened Collections
  import opened Trading

  const MAX_DEPTH := 8
  const MAX_STAGES := 128

  /** The names on the stack, outermost first. */
  type StagePath = seq<string>

  datatype Stage = Stage(calls: nat, inclusive: real, exclusive: real, longest: real)

  /** A running stage: when it started, in work time, and what its finished children took. */
  datatype Frame = Frame(path: StagePath, start: real, children: real)

  /** `now` is the last clock reading; work time is the clock less the time spent publishing. */
  datatype State = State(start: real, now: real, telemetry: real, frames: seq<Frame>, stages: map<StagePath, Stage>)

  function Work(s: State, t: real): real {
    t - s.telemetry
  }

  function Recorded(stages: map<StagePath, Stage>, path: StagePath): Stage {
    if path in stages then stages[path] else Stage(0, 0.0, 0.0, 0.0)
  }

  /** One more call of a stage. */
  function Plus(recorded: Stage, duration: real, exclusive: real): Stage {
    Stage(recorded.calls + 1, recorded.inclusive + duration, recorded.exclusive + MaxReal(0.0, exclusive), MaxReal(recorded.longest, duration))
  }

  function Names(frames: seq<Frame>): StagePath {
    if frames == [] then [] else frames[|frames| - 1].path
  }

  function Entered(s: State, name: string, t: real): State {
    s.(now := t, frames := s.frames + [Frame(Names(s.frames) + [name], Work(s, t), 0.0)])
  }

  /** The innermost stage ends: its time is recorded, and becomes child time of the one around it. */
  function Exited(s: State, t: real): State
    requires s.frames != []
  {
    var frame := s.frames[|s.frames| - 1];
    var rest := s.frames[..|s.frames| - 1];
    var duration := MaxReal(0.0, Work(s, t) - frame.start);
    var stage := Plus(Recorded(s.stages, frame.path), duration, duration - frame.children);
    s.(now := t, stages := s.stages[frame.path := stage],
       frames := if rest == [] then [] else
         rest[|rest| - 1 := rest[|rest| - 1].(children := rest[|rest| - 1].children + duration)])
  }

  /** A publication between two clock readings counts as telemetry, not as anyone's work. */
  function Published(s: State, from: real, to: real): State {
    s.(now := to, telemetry := s.telemetry + MaxReal(0.0, to - from))
  }

  /** What a snapshot at work time `now` reports, the first `n` running frames included. */
  function Observed(s: State, now: real, n: nat): map<StagePath, Stage>
    requires n <= |s.frames|
  {
    if n == 0 then s.stages else
      var frame := s.frames[n - 1];
      var before := Observed(s, now, n - 1);
      var duration := MaxReal(0.0, now - frame.start);
      var child := if n < |s.frames| then MaxReal(0.0, now - s.frames[n].start) else 0.0;
      before[frame.path := Plus(Recorded(before, frame.path), duration, duration - frame.children - child)]
  }

  // --------------------------------------------------------------- totals

  function Exclusives(stages: map<StagePath, Stage>): map<StagePath, real> {
    map p | p in stages :: stages[p].exclusive
  }

  /** Inclusive time of the outermost stages. */
  function Outermost(stages: map<StagePath, Stage>): map<StagePath, real> {
    map p | p in stages && |p| == 1 :: stages[p].inclusive
  }

  function Children(frames: seq<Frame>): real {
    if frames == [] then 0.0 else Children(frames[..|frames| - 1]) + frames[|frames| - 1].children
  }

  /** When the time that a frame spends on its own is over: at its running child's start, or now. */
  function Until(frames: seq<Frame>, i: nat, work: real): real
    requires i < |frames|
  {
    if i + 1 < |frames| then frames[i + 1].start else work
  }

  /** Frames nest: each starts after the finished children of the one around it, and by `work` at the latest. */
  predicate Nested(frames: seq<Frame>, work: real) {
    forall i :: 0 <= i < |frames| ==>
      && |frames[i].path| == i + 1
      && frames[i].children >= 0.0
      && frames[i].start + frames[i].children <= Until(frames, i, work)
  }

  function Since(s: State): real {
    if s.frames == [] then Work(s, s.now) else s.frames[0].start
  }

  /** Exclusive time of everything finished is inclusive time of what finished outermost, plus what is still enclosed. */
  ghost predicate Balanced(s: State) {
    && Sum(Exclusives(s.stages)) == Sum(Outermost(s.stages)) + Children(s.frames)
    && Sum(Outermost(s.stages)) <= Since(s) - s.start
  }

  ghost predicate Inv(s: State) {
    Nested(s.frames, Work(s, s.now)) && Balanced(s) && s.telemetry >= 0.0
  }

  // ----------------------------------------------------------------- steps

  lemma {:induction false} NestedLater(frames: seq<Frame>, work: real, later: real)
    requires Nested(frames, work) && work <= later
    ensures Nested(frames, later)
  {
    forall i | 0 <= i < |frames| ensures frames[i].start + frames[i].children <= Until(frames, i, later) {
      assert frames[i].start + frames[i].children <= Until(frames, i, work);
    }
  }

  lemma {:induction false} NestedPush(frames: seq<Frame>, work: real, f: Frame)
    requires Nested(frames, work) && |f.path| == |frames| + 1 && f.start == work && f.children == 0.0
    ensures Nested(frames + [f], work)
  {
    forall i | 0 <= i < |frames| ensures frames[i].start + frames[i].children <= Until(frames + [f], i, work) {
      assert frames[i].start + frames[i].children <= Until(frames, i, work);
    }
  }

  /** The time of a frame that ends becomes child time of the frame around it. */
  lemma {:induction false} NestedPop(frames: seq<Frame>, work: real)
    requires Nested(frames, work) && frames != []
    ensures
      var n := |frames|;
      var frame := frames[n - 1];
      && work - frame.start >= frame.children >= 0.0
      && (n == 1 ==> Nested([], work))
      && (n > 1 ==>
            var outer := frames[n - 2];
            && Nested(frames[..n - 2] + [outer.(children := outer.children + (work - frame.start))], work))
  {
    var n := |frames|;
    assert frames[n - 1].start + frames[n - 1].children <= Until(frames, n - 1, work);
    if n > 1 {
      var outer := frames[n - 2];
      assert outer.start + outer.children <= Until(frames, n - 2, work);
      var rest := frames[..n - 2] + [outer.(children := outer.children + (work - frames[n - 1].start))];
      forall i | 0 <= i < |rest|
        ensures |rest[i].path| == i + 1 && rest[i].children >= 0.0
        ensures rest[i].start + rest[i].children <= Until(rest, i, work)
      {
        assert frames[i].start + frames[i].children <= Until(frames, i, work);
      }
    }
  }

  lemma {:induction false} ChildrenPlus(frames: seq<Frame>, f: Frame)
    ensures Children(frames + [f]) == Children(frames) + f.children
  {
    assert (frames + [f])[..|frames|] == frames;
  }

  lemma {:induction false} Recording(stages: map<StagePath, Stage>, path: StagePath, stage: Stage)
    ensures Sum(Exclusives(stages[path := stage])) == Sum(Exclusives(stages)) - Recorded(stages, path).exclusive + stage.exclusive
    ensures |path| == 1 ==>
              Sum(Outermost(stages[path := stage])) == Sum(Outermost(stages)) - Recorded(stages, path).inclusive + stage.inclusive
    ensures |path| != 1 ==> Outermost(stages[path := stage]) == Outermost(stages)
  {
    hide Sum;
    SumAssign(Exclusives(stages), path, stage.exclusive);
    assert Exclusives(stages[path := stage]) == Exclusives(stages)[path := stage.exclusive];
    if |path| == 1 {
      SumAssign(Outermost(stages), path, stage.inclusive);
      assert Outermost(stages[path := stage]) == Outermost(stages)[path := stage.inclusive];
    }
  }

  lemma {:induction false} EnterKeeps(s: State, name: string, t: real)
    requires Inv(s) && s.now <= t
    ensures Inv(Entered(s, name, t))
  {
    hide Sum, Children, Nested;
    var f := Frame(Names(s.frames) + [name], Work(s, t), 0.0);
    assert |Names(s.frames)| == |s.frames| by { NamesLength(s.frames, Work(s, s.now)); }
    NestedLater(s.frames, Work(s, s.now), Work(s, t));
    NestedPush(s.frames, Work(s, t), f);
    ChildrenPlus(s.frames, f);
  }

  lemma {:induction false} NamesLength(frames: seq<Frame>, work: real)
    requires Nested(frames, work)
    ensures |Names(frames)| == |frames|
  {}

  /** The frames left after the innermost one ends, having taken `duration`. */
  function Popped(frames: seq<Frame>, duration: real): seq<Frame>
    requires frames != []
  {
    var n := |frames|;
    if n == 1 then [] else frames[..n - 2] + [frames[n - 2].(children := frames[n - 2].children + duration)]
  }

  lemma {:induction false} ChildrenPop(frames: seq<Frame>, duration: real)
    requires frames != []
    ensures Children(Popped(frames, duration)) ==
              Children(frames) - frames[|frames| - 1].children + (if |frames| == 1 then 0.0 else duration)
  {
    hide Children;
    var n := |frames|;
    assert frames == frames[..n - 1] + [frames[n - 1]];
    ChildrenPlus(frames[..n - 1], frames[n - 1]);
    if n == 1 {
      assert frames[..0] == [];
      NoChildren();
    } else {
      var outer := frames[n - 2];
      assert frames[..n - 1] == frames[..n - 2] + [outer];
      ChildrenPlus(frames[..n - 2], outer);
      ChildrenPlus(frames[..n - 2], outer.(children := outer.children + duration));
    }
  }

  lemma {:induction false} ExitedIs(s: State, t: real)
    requires s.frames != [] && Work(s, t) - s.frames[|s.frames| - 1].start >= 0.0
    ensures
      var frame := s.frames[|s.frames| - 1];
      var duration := Work(s, t) - frame.start;
      Exited(s, t) == s.(now := t, frames := Popped(s.frames, duration),
        stages := s.stages[frame.path := Plus(Recorded(s.stages, frame.path), duration, duration - frame.children)])
  {
    hide Plus, Recorded;
    var n := |s.frames|;
    if n > 1 {
      var rest := s.frames[..n - 1];
      var outer := rest[n - 2].(children := rest[n - 2].children + (Work(s, t) - s.frames[n - 1].start));
      assert rest[n - 2 := outer] == s.frames[..n - 2] + [outer];
    }
  }

  /** Closing a frame fires no clamp and moves time from the frame to its stage and its surrounding frame. */
  lemma {:induction false} ExitKeeps(s: State, t: real)
    requires Inv(s) && s.now <= t && s.frames != []
    ensures Inv(Exited(s, t))
    ensures
      var frame := s.frames[|s.frames| - 1];
      Work(s, t) - frame.start >= frame.children >= 0.0
  {
    hide Sum, Children, Nested, Exclusives, Outermost, Exited;
    var n := |s.frames|;
    var frame := s.frames[n - 1];
    var duration := Work(s, t) - frame.start;
    NestedLater(s.frames, Work(s, s.now), Work(s, t));
    NestedPop(s.frames, Work(s, t));
    ExitedIs(s, t);
    assert |frame.path| == n by { NamesLength(s.frames, Work(s, s.now)); }
    Recording(s.stages, frame.path, Plus(Recorded(s.stages, frame.path), duration, duration - frame.children));
    ChildrenPop(s.frames, duration);
  }

  lemma {:induction false} NoChildren()
    ensures Children([]) == 0.0
  {}

  /** Publishing takes no work time away from the stages. */
  lemma {:induction false} PublishKeeps(s: State, from: real, to: real)
    requires Inv(s) && s.now <= from <= to
    ensures Inv(Published(s, from, to))
    ensures Work(Published(s, from, to), to) == Work(s, from)
  {
    hide Sum, Children, Nested;
    NestedLater(s.frames, Work(s, s.now), Work(s, from));
  }

  lemma {:induction false} LaterKeeps(s: State, t: real)
    requires Inv(s) && s.now <= t
    ensures Inv(s.(now := t))
  {
    hide Sum, Children, Nested;
    NestedLater(s.frames, Work(s, s.now), Work(s, t));
  }

  // ------------------------------------------------------------- snapshots

  /** Later clock readings only move the innermost frame's bound. */
  lemma {:induction false} ObservedTotals(s: State, now: real, n: nat)
    requires Inv(s) && Work(s, s.now) <= now && n <= |s.frames|
    ensures Sum(Exclusives(Observed(s, now, n))) ==
              Sum(Exclusives(s.stages)) - Children(s.frames[..n]) +
              (if n == 0 then 0.0 else Until(s.frames, n - 1, now) - s.frames[0].start)
    ensures Sum(Outermost(Observed(s, now, n))) ==
              Sum(Outermost(s.stages)) + (if n == 0 then 0.0 else now - s.frames[0].start)
  {
    hide Sum, Children, Balanced, Nested, Exclusives, Outermost, Recorded;
    if n == 0 {
      NoChildren();
      assert s.frames[..0] == [];
    } else {
      ObservedTotals(s, now, n - 1);
      var stage := ObservedNext(s, now, n);
      var frame := s.frames[n - 1];
      Recording(Observed(s, now, n - 1), frame.path, stage);
      assert s.frames[..n] == s.frames[..n - 1] + [frame];
      ChildrenPlus(s.frames[..n - 1], frame);
    }
  }

  /** Observing one more running frame adds its own time so far, unclamped. */
  lemma {:induction false} ObservedNext(s: State, now: real, n: nat) returns (stage: Stage)
    requires Inv(s) && Work(s, s.now) <= now && 1 <= n <= |s.frames|
    ensures
      var frame, before := s.frames[n - 1], Observed(s, now, n - 1);
      && |frame.path| == n
      && Observed(s, now, n) == before[frame.path := stage]
      && stage.exclusive == Recorded(before, frame.path).exclusive + (Until(s.frames, n - 1, now) - frame.start - frame.children)
      && stage.inclusive == Recorded(before, frame.path).inclusive + (now - frame.start)
  {
    hide Sum, Children, Balanced, Recorded;
    StartsAscend(s, now, n - 1);
    if n < |s.frames| { StartsAscend(s, now, n); }
    assert s.frames[n - 1].children >= 0.0;
    var frame, before := s.frames[n - 1], Observed(s, now, n - 1);
    var child := if n < |s.frames| then MaxReal(0.0, now - s.frames[n].start) else 0.0;
    stage := Plus(Recorded(before, frame.path), now - frame.start, now - frame.start - frame.children - child);
  }

  lemma {:induction false} StartsAscend(s: State, now: real, i: nat)
    requires Inv(s) && Work(s, s.now) <= now && i < |s.frames|
    ensures s.frames[i].start + s.frames[i].children <= Until(s.frames, i, now) <= now
    decreases |s.frames| - i
  {
    hide Balanced;
    assert s.frames[i].start + s.frames[i].children <= Until(s.frames, i, Work(s, s.now));
    if i + 1 < |s.frames| {
      StartsAscend(s, now, i + 1);
      assert s.frames[i + 1].children >= 0.0;
    }
  }

  /**
   * Conservation: in every snapshot, whatever is running and whatever was published before, exclusive
   * times add up to the inclusive times of the outermost stages, and fit in wall time less telemetry.
   */
  lemma {:induction false} SnapshotConserves(s: State, t: real, wall: real)
    requires Inv(s) && s.now <= t <= wall
    ensures
      var stages := Observed(s, Work(s, t), |s.frames|);
      && Sum(Exclusives(stages)) == Sum(Outermost(stages))
      && Sum(Exclusives(stages)) <= (wall - s.start) - s.telemetry
  {
    hide Sum, Children, Nested;
    ObservedTotals(s, Work(s, t), |s.frames|);
    assert s.frames[..|s.frames|] == s.frames;
    NoChildren();
  }

  /** No clamp at zero ever fires while observing a running frame. */
  lemma {:induction false} NoClampFires(s: State, t: real, i: nat)
    requires Inv(s) && s.now <= t && i < |s.frames|
    ensures
      var now := Work(s, t);
      var child := if i + 1 < |s.frames| then now - s.frames[i + 1].start else 0.0;
      now - s.frames[i].start >= 0.0 && child >= 0.0 && now - s.frames[i].start - s.frames[i].children - child >= 0.0
  {
    hide Balanced;
    StartsAscend(s, Work(s, t), i);
    if i + 1 < |s.frames| { StartsAscend(s, Work(s, t), i + 1); }
  }

  // ----------------------------------------------------------------- class

  /** A clock never runs backwards. */
  ghost predicate Steady(clock: nat -> real) {
    forall i, j :: 0 <= i <= j ==> clock(i) <= clock(j)
  }

  /** What one snapshot reports: the stages, wall time and telemetry time. */
  datatype Report = Report(stages: map<StagePath, Stage>, wall: real, telemetry: real)

  /** The law every report obeys. */
  ghost predicate Conserved(r: Report) {
    Sum(Exclusives(r.stages)) == Sum(Outermost(r.stages)) <= r.wall - r.telemetry
  }

  class StageMonitor {
    const clock: nat -> real
    const names: set<string>
    const interval: real
    const publishes: bool
    var readings: nat
    var started: real
    var telemetry: real
    var frames: seq<Frame>
    var stages: map<StagePath, Stage>
    var errors: nat
    var periodic: bool
    var lastCheckpoint: real
    ghost var latest: real

    ghost function Value(): State
      reads this
    {
      State(started, latest, telemetry, frames, stages)
    }

    ghost predicate Valid()
      reads this
    {
      Steady(clock) && Inv(Value()) && forall i :: i >= readings ==> latest <= clock(i)
    }

    /** The start of an execution. */
    constructor (clock: nat -> real, names: set<string>, interval: real, publishes: bool)
      requires Steady(clock)
      ensures Valid() && frames == [] && stages == map[] && telemetry == 0.0
      ensures this.clock == clock && this.names == names
    {
      this.clock, this.names, this.interval, this.publishes := clock, names, interval, publishes;
      readings, started, latest, lastCheckpoint := 1, clock(0), clock(0), clock(0);
      telemetry, frames, stages, errors := 0.0, [], map[], 0;
      periodic := interval > 0.0 && publishes;
      new;
      assert Exclusives(map[]) == map[] && Outermost(map[]) == map[];
      SumEmpty<StagePath>();
    }

    method ReadClock() returns (t: real)
      requires Valid()
      modifies this`readings, this`latest
      ensures Valid() && latest == t && old(latest) <= t && Value() == old(Value()).(now := t)
      ensures t == clock(old(readings)) && readings == old(readings) + 1
    {
      hide Inv;
      t := clock(readings);
      readings := readings + 1;
      latest := t;
      LaterKeeps(old(Value()), t);
    }

    /** Entering a stage; an unknown name, a full stack or too many paths is refused and changes nothing. */
    method Enter(name: string) returns (ok: bool)
      requires Valid()
      modifies this
      ensures Valid()
      ensures ok <==> name in names && |old(frames)| < MAX_DEPTH &&
                      (Names(old(frames)) + [name] in old(stages) || |old(stages)| < MAX_STAGES)
      ensures Value() == if ok then Entered(old(Value()), name, latest) else old(Value())
    {
      hide Inv;
      if name !in names || |frames| >= MAX_DEPTH { return false; }
      var path := Names(frames) + [name];
      if path !in stages && |stages| >= MAX_STAGES { return false; }
      EnterFromNow(Value(), name);
      var t := ReadClock();
      EnterKeeps(old(Value()), name, t);
      frames := frames + [Frame(path, t - telemetry, 0.0)];
      ok := true;
    }

    /** Leaving the innermost stage. */
    method Exit()
      requires Valid() && frames != []
      modifies this
      ensures Valid() && Value() == Exited(old(Value()), latest)
    {
      hide Inv;
      var t := ReadClock();
      ExitKeeps(old(Value()), t);
      var frame := frames[|frames| - 1];
      var duration := MaxReal(0.0, t - telemetry - frame.start);
      frames := frames[..|frames| - 1];
      stages := stages[frame.path := Plus(Recorded(stages, frame.path), duration, duration - frame.children)];
      if frames != [] {
        var outer := frames[|frames| - 1];
        frames := frames[|frames| - 1 := outer.(children := outer.children + duration)];
      }
    }

    /** A snapshot shows every stage as of the next clock reading, and conserves time, whatever is running. */
    method Snapshot() returns (r: Report)
      requires Valid()
      modifies this`readings, this`latest
      ensures Valid() && Value() == old(Value()).(now := latest) && old(latest) <= latest
      ensures Conserved(r) && r.telemetry == telemetry && readings == old(readings) + 2
      ensures old(latest) <= clock(old(readings)) <= latest == clock(old(readings) + 1)
      ensures r.stages == Observed(old(Value()), clock(old(readings)) - telemetry, |frames|)
      ensures r.wall == MaxReal(0.0, latest - started)
    {
      hide Inv, Steady, Recorded, Plus, Exclusives, Outermost, Sum;
      var t := ReadClock();
      var now := t - telemetry;
      var observed := stages;
      SameObserved(old(Value()), Value(), now, |frames|);
      for n := 0 to |frames|
        invariant observed == Observed(Value(), now, n)
      {
        var frame := frames[n];
        var duration := MaxReal(0.0, now - frame.start);
        var child := if n + 1 < |frames| then MaxReal(0.0, now - frames[n + 1].start) else 0.0;
        observed := observed[frame.path := Plus(Recorded(observed, frame.path), duration, duration - frame.children - child)];
      }
      ghost var before := Value();
      var wall := ReadClock();
      SnapshotConserves(before, t, wall);
      r := Report(observed, MaxReal(0.0, wall - started), telemetry);
    }

    /** `_publication`: whether or not the publisher fails, what it sees conserves time and it costs no stage anything. */
    method Publish(fails: bool) returns (published: Option<Report>)
      requires Valid()
      modifies this
      ensures Valid() && frames == old(frames) && stages == old(stages) && telemetry >= old(telemetry)
      ensures published.Some? <==> publishes
      ensures published.None? ==> Value() == old(Value())
      ensures published.Some? ==>
                && old(latest) <= clock(old(readings)) <= latest
                && Value() == Published(old(Value()), clock(old(readings)), latest)
      ensures lastCheckpoint == old(lastCheckpoint)
      ensures published.Some? ==> Conserved(published.value)
      // Periodic publication goes on exactly while publishing neither fails nor takes over a tenth of a second.
      ensures published.Some? ==> (periodic <==> old(periodic) && !fails && telemetry - old(telemetry) <= 0.1)
      ensures errors == old(errors) + (if published.Some? && fails then 1 else 0)
    {
      hide Inv, Conserved, Observed, Nested, Balanced;
      if !publishes { return None; }
      var from := ReadClock();
      ghost var before := Value();
      var report := Snapshot();
      if fails {
        errors := errors + 1;
      }
      var to := ReadClock();
      var elapsed := MaxReal(0.0, to - from);
      PublishKeeps(before, from, to);
      telemetry := telemetry + elapsed;
      if periodic && (fails || elapsed > 0.1) {
        periodic := false;
      }
      published := Some(report);
    }

    /** `checkpoint`: publish when the interval has passed. */
    method Checkpoint(fails: bool) returns (published: Option<Report>)
      requires Valid()
      modifies this
      ensures Valid() && frames == old(frames) && stages == old(stages)
      ensures published.Some? ==> Conserved(published.value)
      ensures
        var now, due := clock(old(readings)), old(periodic) && clock(old(readings)) - old(lastCheckpoint) >= interval;
        (published.Some? <==> due && publishes) && lastCheckpoint == if due then now else old(lastCheckpoint)
    {
      hide Inv, Conserved;
      var now := ReadClock();
      if !periodic || now - lastCheckpoint < interval { return None; }
      lastCheckpoint := now;
      published := Publish(fails);
    }
  }

  /** What is observed depends on the frames and the stages alone. */
  lemma {:induction false} SameObserved(s: State, s': State, now: real, n: nat)
    requires s.frames == s'.frames && s.stages == s'.stages && n <= |s.frames|
    ensures Observed(s, now, n) == Observed(s', now, n)
  {
    hide Plus, Recorded;
    if n > 0 { SameObserved(s, s', now, n - 1); }
  }

  lemma {:induction false} EnterFromNow(s: State, name: string)
    ensures forall t :: Entered(s, name, t) == s.(now := t, frames := s.frames + [Frame(Names(s.frames) + [name], t - s.telemetry, 0.0)])
  {}
}
