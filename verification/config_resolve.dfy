/** Resolving a profile: the depth-first `extends` walk, then the merge of what it found. */
module ConfigResolve {
  import opened Wrappers
  import opened ConfigTrees
  import opened ConfigMerge
  import opened ConfigLaws

  const MAX_EXTENDS_DEPTH := 8

  /** A layer file: unreadable, or a body and the files it extends, in order. */
  datatype File = Malformed | File(body: map<string, Value>, parents: seq<string>)

  type Files = map<string, File>

  function Extends(files: Files, f: string): seq<string> {
    if f in files && files[f].File? then files[f].parents else []
  }

  // ---------------------------------------------------------------- graph

  /** Each file extends the next. */
  predicate Chain(files: Files, fs: seq<string>) {
    forall i :: 0 <= i < |fs| - 1 ==> fs[i + 1] in Extends(files, fs[i])
  }

  ghost predicate Reaches(files: Files, a: string, b: string) {
    exists fs :: Links(files, a, fs, b)
  }

  predicate Links(files: Files, a: string, fs: seq<string>, b: string) {
    fs != [] && fs[0] == a && fs[|fs| - 1] == b && Chain(files, fs)
  }

  predicate Distinct(fs: seq<string>) {
    forall i, j :: 0 <= i < j < |fs| ==> fs[i] != fs[j]
  }

  /** Every file comes after all files it extends. */
  predicate ParentsFirst(files: Files, out: seq<string>) {
    forall i :: 0 <= i < |out| ==> forall e :: e in Extends(files, out[i]) ==> e in out[..i]
  }

  predicate AllReadable(files: Files, fs: seq<string>) {
    forall f :: f in fs ==> f in files && files[f].File?
  }

  /** Every chain of extensions from the file is readable and at most `depth` files long. */
  predicate Fits(files: Files, f: string, depth: int)
    decreases depth
  {
    depth >= 1 && f in files && files[f].File? && forall e :: e in files[f].parents ==> Fits(files, e, depth - 1)
  }

  lemma {:induction false} ReachesStep(files: Files, a: string, e: string, b: string)
    requires e in Extends(files, a) && Reaches(files, e, b)
    ensures Reaches(files, a, b)
  {
    var fs :| Links(files, e, fs, b);
    assert Links(files, a, [a] + fs, b);
  }

  lemma {:induction false} ReachesSelf(files: Files, a: string)
    ensures Reaches(files, a, a)
  {
    assert Links(files, a, [a], a);
  }

  /** A list with parents first contains everything its members reach. */
  lemma {:induction false} ClosedUnderReach(files: Files, out: seq<string>, fs: seq<string>)
    requires ParentsFirst(files, out) && fs != [] && Chain(files, fs) && fs[0] in out
    ensures fs[|fs| - 1] in out
    decreases |fs|
  {
    if |fs| > 1 {
      var i :| 0 <= i < |out| && out[i] == fs[0];
      assert fs[1] in Extends(files, fs[0]);
      forall j | 0 <= j < |fs[1..]| - 1 ensures fs[1..][j + 1] in Extends(files, fs[1..][j]) {
        assert fs[j + 1 + 1] in Extends(files, fs[j + 1]);
      }
      ClosedUnderReach(files, out, fs[1..]);
    }
  }

  /** Along a chain, positions strictly fall. */
  lemma {:induction false} ChainFalls(files: Files, out: seq<string>, fs: seq<string>, i: nat, j: nat)
    requires ParentsFirst(files, out) && Distinct(out) && Chain(files, fs)
    requires |fs| > 1 && i < |out| && j < |out| && out[i] == fs[0] && out[j] == fs[|fs| - 1]
    ensures j < i
    decreases |fs|
  {
    assert fs[1] in Extends(files, fs[0]);
    var k :| 0 <= k < i && out[k] == fs[1];
    if |fs| > 2 {
      forall m | 0 <= m < |fs[1..]| - 1 ensures fs[1..][m + 1] in Extends(files, fs[1..][m]) {
        assert fs[m + 1 + 1] in Extends(files, fs[m + 1]);
      }
      ChainFalls(files, out, fs[1..], k, j);
    }
  }

  /** A distinct list with parents first admits no cycle. */
  lemma {:induction false} NoCycle(files: Files, out: seq<string>, fs: seq<string>)
    requires ParentsFirst(files, out) && Distinct(out) && Chain(files, fs) && |fs| > 1 && fs[0] in out
    ensures fs[0] != fs[|fs| - 1]
  {
    var i :| 0 <= i < |out| && out[i] == fs[0];
    if fs[0] == fs[|fs| - 1] {
      ChainFalls(files, out, fs, i, i);
    }
  }

  /** Nothing on a cycle fits any depth. */
  lemma {:induction false} CycleNeverFits(files: Files, fs: seq<string>, depth: int)
    requires Chain(files, fs) && |fs| > 1 && fs[0] == fs[|fs| - 1]
    ensures !Fits(files, fs[0], depth)
    decreases depth
  {
    if Fits(files, fs[0], depth) {
      var last := FitsAlong(files, fs, depth, |fs| - 1);
      CycleNeverFits(files, fs, depth - (|fs| - 1));
    }
  }

  lemma {:induction false} FitsAlong(files: Files, fs: seq<string>, depth: int, n: nat) returns (left: int)
    requires Chain(files, fs) && n < |fs| && Fits(files, fs[0], depth)
    ensures left == depth - n && Fits(files, fs[n], left)
  {
    left := depth;
    if n > 0 {
      left := FitsAlong(files, fs, depth, n - 1);
      assert fs[n - 1 + 1] in Extends(files, fs[n - 1]);
      left := left - 1;
    }
  }

  // ----------------------------------------------------------------- walk

  /** A walk from `path` only appends files, all of them reachable from it. */
  ghost predicate Walked(files: Files, path: string, before: seq<string>, after: seq<string>) {
    before <= after && forall f :: f in after ==> f in before || Reaches(files, path, f)
  }

  predicate AllIn(fs: seq<string>, out: seq<string>) {
    forall e :: e in fs ==> e in out
  }

  lemma {:induction false} NothingWalked(files: Files, path: string, out: seq<string>)
    ensures Walked(files, path, out, out) && AllIn([], out)
  {}

  /** One more parent walked: still only files reachable from the child, and one more parent out. */
  lemma {:induction false} ParentWalked(
    files: Files, path: string, parents: seq<string>, i: nat, before: seq<string>, mid: seq<string>, after: seq<string>)
    requires i < |parents| && parents[i] in Extends(files, path)
    requires Walked(files, path, before, mid) && AllIn(parents[..i], mid)
    requires Walked(files, parents[i], mid, after) && parents[i] in after
    ensures Walked(files, path, before, after) && AllIn(parents[..i + 1], after)
  {
    hide Reaches;
    forall f | f in after && f !in mid ensures Reaches(files, path, f) {
      ReachesStep(files, path, parents[i], f);
    }
    forall e | e in parents[..i + 1] ensures e in after {
      if e != parents[i] { assert e in parents[..i] && e in mid; }
    }
  }

  lemma {:induction false} SelfWalked(files: Files, path: string, before: seq<string>, after: seq<string>)
    requires Walked(files, path, before, after)
    ensures Walked(files, path, before, after + [path])
  {
    ReachesSelf(files, path);
  }

  // ---------------------------------------------------------------- order

  ghost predicate ReachedFrom(files: Files, ps: seq<string>, n: nat, f: string)
    requires n <= |ps|
  {
    exists j :: 0 <= j < n && Reaches(files, ps[j], f)
  }

  /** The first `k` files are those out before and what the first `n` of the list reach, no more and no less. */
  ghost predicate Upto(files: Files, ps: seq<string>, n: nat, before: seq<string>, out: seq<string>, k: nat)
    requires n <= |ps|
  {
    |before| <= k <= |out| && forall f :: f in out[..k] <==> f in before || ReachedFrom(files, ps, n, f)
  }

  /** Between two stops one file of the list is dealt with: nothing if it is out, else what it extends, in order, and itself. */
  ghost predicate Between(files: Files, e: string, out: seq<string>, from: nat, to: nat)
    decreases |out|, 0
  {
    from <= to <= |out| &&
    if e in out[..from] then to == from
    else from < to && out[to - 1] == e && ListedInOrder(files, Extends(files, e), out[..from], out[..to - 1])
  }

  ghost predicate Stops(files: Files, ps: seq<string>, before: seq<string>, out: seq<string>, ks: seq<nat>)
    decreases |out|, 1
  {
    && |ks| == |ps| + 1 && ks[0] == |before| && ks[|ps|] == |out|
    && (forall n :: 0 <= n <= |ps| ==> Upto(files, ps, n, before, out, ks[n]))
    && forall n :: 0 <= n < |ps| ==> Between(files, ps[n], out, ks[n], ks[n + 1])
  }

  /** A list of files, each with all it extends, was added to what was out before, in the order of the list, throughout. */
  ghost predicate ListedInOrder(files: Files, ps: seq<string>, before: seq<string>, out: seq<string>)
    decreases |out|, 2
  {
    before <= out && exists ks :: Stops(files, ps, before, out, ks)
  }

  lemma {:induction false} NothingListed(files: Files, out: seq<string>)
    ensures Stops(files, [], out, out, [|out|])
  {
    assert out[..|out|] == out;
  }

  /** One more file of the list walked is one more stop. */
  lemma {:induction false} NextStop(
    files: Files, ps: seq<string>, i: nat, before: seq<string>, mid: seq<string>, after: seq<string>, ks: seq<nat>)
    requires i < |ps| && before <= mid && mid <= after
    requires Stops(files, ps[..i], before, mid, ks)
    requires forall f :: f in after <==> f in mid || Reaches(files, ps[i], f)
    requires if ps[i] in mid then after == mid
             else |mid| < |after| && after[|after| - 1] == ps[i] &&
                  ListedInOrder(files, Extends(files, ps[i]), mid, after[..|after| - 1])
    ensures Stops(files, ps[..i + 1], before, after, ks + [|after|])
  {
    hide Reaches, ListedInOrder;
    var front, list, more := ps[..i], ps[..i + 1], ks + [|after|];
    assert list[..i] == front && mid[..|mid|] == mid && after[..|after|] == after && after[..|mid|] == mid;
    forall n | 0 <= n <= i ensures Upto(files, list, n, before, after, more[n]) {
      assert Upto(files, front, n, before, mid, ks[n]);
      assert after[..ks[n]] == mid[..ks[n]];
      forall f ensures ReachedFrom(files, list, n, f) <==> ReachedFrom(files, front, n, f) {
        SameReached(files, front, list, n, f);
      }
    }
    forall f ensures f in after <==> f in before || ReachedFrom(files, list, i + 1, f) {
      assert Upto(files, front, i, before, mid, ks[i]);
      SameReached(files, front, list, i, f);
      OneMoreReached(files, list, i, f);
    }
    assert Upto(files, list, i + 1, before, after, more[i + 1]);
    forall n | 0 <= n <= i ensures Between(files, list[n], after, more[n], more[n + 1]) {
      if n < i {
        assert Between(files, front[n], mid, ks[n], ks[n + 1]);
        SameBetween(files, list[n], mid, after, ks[n], ks[n + 1]);
      }
    }
  }

  lemma {:induction false} SameReached(files: Files, a: seq<string>, b: seq<string>, n: nat, f: string)
    requires n <= |a| && a <= b
    ensures ReachedFrom(files, a, n, f) <==> ReachedFrom(files, b, n, f)
  {
    hide Reaches;
    assert forall j :: 0 <= j < n ==> a[j] == b[j];
  }

  lemma {:induction false} OneMoreReached(files: Files, ps: seq<string>, n: nat, f: string)
    requires n < |ps|
    ensures ReachedFrom(files, ps, n + 1, f) <==> ReachedFrom(files, ps, n, f) || Reaches(files, ps[n], f)
  {
    hide Reaches;
  }

  lemma {:induction false} SameBetween(files: Files, e: string, mid: seq<string>, after: seq<string>, from: nat, to: nat)
    requires mid <= after && Between(files, e, mid, from, to)
    ensures Between(files, e, after, from, to)
  {
    hide ListedInOrder;
    assert after[..from] == mid[..from];
    if to > 0 { assert after[..to - 1] == mid[..to - 1]; }
  }

  /** The order leaves no choice: what was out before and the list determine it. */
  lemma {:induction false} OneOrder(files: Files, ps: seq<string>, before: seq<string>, a: seq<string>, b: seq<string>)
    requires ListedInOrder(files, ps, before, a) && ListedInOrder(files, ps, before, b)
    ensures a == b
    decreases |a|, 1, 0
  {
    hide Upto, Between;
    var ks :| Stops(files, ps, before, a, ks);
    var js :| Stops(files, ps, before, b, js);
    SameStops(files, ps, before, a, b, ks, js, |ps|);
    assert a[..|a|] == a && b[..|b|] == b;
  }

  lemma {:induction false} SameStops(
    files: Files, ps: seq<string>, before: seq<string>, a: seq<string>, b: seq<string>, ks: seq<nat>, js: seq<nat>, n: nat)
    requires before <= a && before <= b && n <= |ps|
    requires Stops(files, ps, before, a, ks) && Stops(files, ps, before, b, js)
    ensures ks[n] <= |a| && js[n] <= |b| && a[..ks[n]] == b[..js[n]]
    decreases |a|, 0, n
  {
    hide Reaches, ListedInOrder;
    assert Upto(files, ps, n, before, a, ks[n]) && Upto(files, ps, n, before, b, js[n]);
    if n > 0 {
      SameStops(files, ps, before, a, b, ks, js, n - 1);
      var e, k, j := ps[n - 1], ks[n - 1], js[n - 1];
      assert Between(files, e, a, k, ks[n]) && Between(files, e, b, j, js[n]);
      if e !in a[..k] {
        var walkedA, walkedB := a[..ks[n] - 1], b[..js[n] - 1];
        OneOrder(files, Extends(files, e), a[..k], walkedA, walkedB);
        assert a[..ks[n]] == walkedA + [e] && b[..js[n]] == walkedB + [e];
      }
    }
  }

  /** Of two files of a list the later one is out later, unless something up to the earlier one extends it. */
  lemma {:induction false} SiblingsInOrder(
    files: Files, ps: seq<string>, before: seq<string>, out: seq<string>, m: nat, n: nat) returns (k: nat)
    requires ListedInOrder(files, ps, before, out) && m < n < |ps|
    requires ps[n] !in before && !ReachedFrom(files, ps, m + 1, ps[n])
    ensures k <= |out| && ps[m] in out[..k] && ps[n] in out[k..]
  {
    hide Reaches, Between;
    var ks :| Stops(files, ps, before, out, ks);
    k := ks[m + 1];
    assert Upto(files, ps, m + 1, before, out, k) && Upto(files, ps, |ps|, before, out, ks[|ps|]);
    ReachesSelf(files, ps[m]);
    ReachesSelf(files, ps[n]);
    assert out[..|out|] == out;
    assert out == out[..k] + out[k..];
  }

  class LayerCollector {
    const files: Files
    var out: seq<string>
    var stack: seq<string>
    var visited: set<string>

    constructor (files: Files)
      ensures this.files == files && out == [] && stack == [] && visited == {}
    {
      this.files, out, stack, visited := files, [], [], {};
    }

    ghost predicate Valid()
      reads this
    {
      Consistent(files, out, stack, visited)
    }

    /**
     * `_collect_layers`: parents before the file's own body, each file once. On success the output
     * has grown by files reachable from this one, ending with it unless it was already there.
     */
    method Collect(path: string) returns (r: Result<()>)
      requires path in files && Valid() && (stack != [] ==> path in Extends(files, stack[|stack| - 1]))
      modifies this
      ensures r.Success? ==> Valid() && stack == old(stack)
      ensures r.Success? ==> Walked(files, path, old(out), out) && path in out
      ensures r.Success? && path in old(out) ==> out == old(out)
      ensures r.Success? && path !in old(out) ==>
                |old(out)| < |out| && out[|out| - 1] == path &&
                ListedInOrder(files, Extends(files, path), old(out), out[..|out| - 1])
      ensures Fits(files, path, MAX_EXTENDS_DEPTH - |old(stack)|) ==> r.Success?
      decreases MAX_EXTENDS_DEPTH - |stack|, 0
    {
      hide Fits, Reaches, Consistent, Walked, ListedInOrder;
      ConsistentMeans(files, out, stack, visited);
      ghost var depth := MAX_EXTENDS_DEPTH - |stack|;
      if path in stack {
        CycleInStack(files, stack, path, depth);
        return Failure("extends cycle");
      }
      FitsMeans(files, path, depth);
      if |stack| >= MAX_EXTENDS_DEPTH { return Failure("extends depth exceeded"); }
      NothingWalked(files, path, out);
      if path in visited { return Success(()); }
      if files[path].Malformed? { return Failure("unreadable layer"); }
      Pushed(files, out, stack, visited, path);
      stack := stack + [path];
      r := CollectParents(path);
      if r.Failure? { return; }
      Popped(files, out, stack, visited, path);
      SelfWalked(files, path, old(out), out);
      stack := stack[..|stack| - 1];
      visited := visited + {path};
      assert (out + [path])[..|out|] == out;
      out := out + [path];
      r := Success(());
    }

    /** The loop over the files that the one on top of the stack extends. */
    method CollectParents(path: string) returns (r: Result<()>)
      requires path in files && files[path].File? && Valid()
      requires stack != [] && stack[|stack| - 1] == path
      modifies this
      ensures r.Success? ==> Valid() && stack == old(stack)
      ensures r.Success? ==> Walked(files, path, old(out), out) && AllIn(files[path].parents, out)
      ensures r.Success? ==> ListedInOrder(files, files[path].parents, old(out), out)
      ensures (forall e :: e in files[path].parents ==> e in files && Fits(files, e, MAX_EXTENDS_DEPTH - |old(stack)|)) ==> r.Success?
      decreases MAX_EXTENDS_DEPTH - |stack|, 1
    {
      hide Fits, Walked, AllIn, Consistent, Stops, ListedInOrder, Reaches;
      var parents := files[path].parents;
      ghost var stops: seq<nat> := [|out|];
      NothingWalked(files, path, out);
      NothingListed(files, out);
      for i := 0 to |parents|
        invariant Valid() && stack == old(stack)
        invariant Walked(files, path, old(out), out) && AllIn(parents[..i], out)
        invariant Stops(files, parents[..i], old(out), out, stops)
      {
        if parents[i] !in files { return Failure("extended layer does not exist"); }
        ghost var mid := out;
        r := Collect(parents[i]);
        if r.Failure? { return; }
        assert old(out) <= mid by { WalkedGrows(files, path, old(out), mid); }
        ReachedNow(files, parents[i], mid, out, stack, visited);
        NextStop(files, parents, i, old(out), mid, out, stops);
        ParentWalked(files, path, parents, i, old(out), mid, out);
        stops := stops + [|out|];
      }
      assert parents[..|parents|] == parents;
      AllListed(files, path, parents, old(out), out, stops);
      r := Success(());
    }
  }

  /** What holds whenever a file is about to be collected. */
  ghost predicate Consistent(files: Files, out: seq<string>, stack: seq<string>, visited: set<string>) {
    && Distinct(out) && ParentsFirst(files, out) && AllReadable(files, out)
    && (forall f :: f in visited <==> f in out)
    && (forall f :: f in stack ==> f !in visited)
    && Chain(files, stack)
    && |stack| <= MAX_EXTENDS_DEPTH
  }

  lemma {:induction false} WalkedGrows(files: Files, path: string, before: seq<string>, after: seq<string>)
    requires Walked(files, path, before, after)
    ensures before <= after
  {}

  /** A walk adds exactly what the file reaches. */
  lemma {:induction false} ReachedNow(
    files: Files, path: string, before: seq<string>, after: seq<string>, stack: seq<string>, visited: set<string>)
    requires Consistent(files, after, stack, visited) && Walked(files, path, before, after) && path in after
    ensures before <= after && forall f :: f in after <==> f in before || Reaches(files, path, f)
  {
    hide Chain;
    forall f | Reaches(files, path, f) ensures f in after {
      var fs :| Links(files, path, fs, f);
      ClosedUnderReach(files, after, fs);
    }
  }

  lemma {:induction false} AllListed(
    files: Files, path: string, ps: seq<string>, before: seq<string>, out: seq<string>, ks: seq<nat>)
    requires Stops(files, ps, before, out, ks) && Walked(files, path, before, out)
    ensures ListedInOrder(files, ps, before, out)
  {}

  lemma {:induction false} ConsistentMeans(files: Files, out: seq<string>, stack: seq<string>, visited: set<string>)
    requires Consistent(files, out, stack, visited)
    ensures |stack| <= MAX_EXTENDS_DEPTH && Chain(files, stack)
    ensures forall f :: f in visited <==> f in out
  {}

  lemma {:induction false} Pushed(files: Files, out: seq<string>, stack: seq<string>, visited: set<string>, path: string)
    requires Consistent(files, out, stack, visited) && |stack| < MAX_EXTENDS_DEPTH && path !in visited
    requires stack != [] ==> path in Extends(files, stack[|stack| - 1])
    ensures Consistent(files, out, stack + [path], visited)
  {
    hide Distinct, ParentsFirst, AllReadable;
  }

  /** When all its parents are out, the file on top of the stack may follow them. */
  lemma {:induction false} Popped(files: Files, out: seq<string>, stack: seq<string>, visited: set<string>, path: string)
    requires Consistent(files, out, stack, visited) && stack != [] && stack[|stack| - 1] == path && path !in stack[..|stack| - 1]
    requires path in files && files[path].File? && forall e :: e in files[path].parents ==> e in out
    ensures Consistent(files, out + [path], stack[..|stack| - 1], visited + {path})
    ensures path !in out
  {
    hide Distinct, ParentsFirst, AllReadable;
    assert path in stack;
    AppendFile(files, out, path);
  }

  lemma {:induction false} FitsMeans(files: Files, f: string, depth: int)
    ensures Fits(files, f, depth) ==>
              depth >= 1 && f in files && files[f].File? && forall e :: e in files[f].parents ==> e in files && Fits(files, e, depth - 1)
  {
    if Fits(files, f, depth) {
      forall e | e in files[f].parents ensures e in files && Fits(files, e, depth - 1) {
        assert Fits(files, e, depth - 1);
      }
    }
  }

  lemma {:induction false} CycleInStack(files: Files, stack: seq<string>, path: string, depth: int)
    requires Chain(files, stack) && path in stack && path in Extends(files, stack[|stack| - 1])
    ensures !Fits(files, path, depth)
  {
    var k :| 0 <= k < |stack| && stack[k] == path;
    var fs := stack[k..] + [path];
    forall i | 0 <= i < |fs| - 1 ensures fs[i + 1] in Extends(files, fs[i]) {
      assert fs[i] == stack[k + i];
      if i + 1 < |stack[k..]| { assert stack[k + i + 1] in Extends(files, stack[k + i]); }
    }
    CycleNeverFits(files, fs, depth);
  }

  lemma {:induction false} AppendFile(files: Files, out: seq<string>, path: string)
    requires Distinct(out) && ParentsFirst(files, out) && AllReadable(files, out)
    requires path !in out && path in files && files[path].File? && forall e :: e in files[path].parents ==> e in out
    ensures Distinct(out + [path]) && ParentsFirst(files, out + [path]) && AllReadable(files, out + [path])
  {
    forall i | 0 <= i < |out + [path]| ensures forall e :: e in Extends(files, (out + [path])[i]) ==> e in (out + [path])[..i] {
      assert (out + [path])[..i] == if i < |out| then out[..i] else out;
    }
  }

  /**
   * What a resolved layer order is: no repeats, parents first, exactly the reachable files, the profile last,
   * and before it what it extends, in the order of its list, throughout.
   */
  ghost predicate Resolved(files: Files, profile: string, out: seq<string>) {
    && Distinct(out) && ParentsFirst(files, out) && AllReadable(files, out)
    && (forall f :: f in out <==> Reaches(files, profile, f))
    && out != [] && out[|out| - 1] == profile
    && ListedInOrder(files, Extends(files, profile), [], out[..|out| - 1])
  }

  /** A profile resolves in one order only. */
  lemma {:induction false} OneResolved(files: Files, profile: string, a: seq<string>, b: seq<string>)
    requires Resolved(files, profile, a) && Resolved(files, profile, b)
    ensures a == b
  {
    hide Distinct, ParentsFirst, AllReadable, Reaches, ListedInOrder;
    OneOrder(files, Extends(files, profile), [], a[..|a| - 1], b[..|b| - 1]);
    assert a == a[..|a| - 1] + [profile] && b == b[..|b| - 1] + [profile];
  }

  /** `_collect_layers` from the top. */
  method CollectLayers(files: Files, profile: string) returns (r: Result<seq<string>>)
    requires profile in files
    ensures r.Success? ==> Resolved(files, profile, r.value)
    ensures Fits(files, profile, MAX_EXTENDS_DEPTH) ==> r.Success?
  {
    hide ListedInOrder;
    var collector := new LayerCollector(files);
    var done := collector.Collect(profile);
    if done.Failure? { return Failure(done.error); }
    forall f | Reaches(files, profile, f) ensures f in collector.out {
      var fs :| Links(files, profile, fs, f);
      ClosedUnderReach(files, collector.out, fs);
    }
    r := Success(collector.out);
  }

  /** A resolved order proves the reachable files acyclic. */
  lemma {:induction false} ResolvedIsAcyclic(files: Files, profile: string, out: seq<string>, fs: seq<string>)
    requires Resolved(files, profile, out) && |fs| > 1 && Reaches(files, profile, fs[0]) && Chain(files, fs)
    ensures fs[0] != fs[|fs| - 1]
  {
    NoCycle(files, out, fs);
  }

  // ---------------------------------------------------------------- merge

  /** What a resolution returns: the merged tree, the files in merge order, and what each recorded path is due to. */
  datatype Raw = Raw(merged: map<string, Value>, order: seq<string>, provenance: Provenance)

  function LayersOf(files: Files, order: seq<string>): seq<Layer>
    requires AllReadable(files, order)
  {
    seq(|order|, i requires 0 <= i < |order| => assert order[i] in order; Layer(order[i], files[order[i]].body))
  }

  const OVERRIDES_SOURCE := "--set"

  /** The files in merge order, then the overrides when there are any. */
  function AllLayers(files: Files, order: seq<string>, overrides: map<string, Value>): seq<Layer>
    requires AllReadable(files, order)
  {
    LayersOf(files, order) + if overrides == map[] then [] else [Layer(OVERRIDES_SOURCE, overrides)]
  }

  /** Every layer above the first only overrides keys that its structure, or an open slot of it, allows. */
  ghost predicate LayersAllowed(layers: seq<Layer>, n: nat)
    requires n <= |layers|
  {
    forall i :: 1 <= i < n ==>
      AllAllowed(Some(Tree(layers[..i])), Mapping(layers[i].body), [], Mapping(layers[0].body))
  }

  /** In the order the files resolve in, of which there is one only, every layer respects the keys of the first. */
  ghost predicate OrderAllowed(files: Files, profile: string, overrides: map<string, Value>) {
    forall order :: Resolved(files, profile, order) ==>
      LayersAllowed(AllLayers(files, order, overrides), |AllLayers(files, order, overrides)|)
  }

  lemma {:induction false} OrderIsAllowed(files: Files, profile: string, overrides: map<string, Value>, order: seq<string>)
    requires Resolved(files, profile, order)
    ensures AllReadable(files, order)
    ensures OrderAllowed(files, profile, overrides) ==>
              LayersAllowed(AllLayers(files, order, overrides), |AllLayers(files, order, overrides)|)
  {}

  lemma {:induction false} LayerAllowed(layers: seq<Layer>, i: nat)
    requires 1 <= i < |layers|
    ensures LayersAllowed(layers, |layers|) ==>
              AllAllowed(Some(Tree(layers[..i])), Mapping(layers[i].body), [], Mapping(layers[0].body))
  {}

  lemma {:induction false} TreeNext(layers: seq<Layer>, i: nat)
    requires i < |layers|
    ensures Tree(layers[..i + 1]) == Merge(Some(Tree(layers[..i])), Mapping(layers[i].body), [])
  {
    assert layers[..i + 1][..i] == layers[..i];
  }

  /** `resolve_raw`: collect, then merge each layer into the tree and its provenance. */
  method ResolveRaw(files: Files, profile: string, overrides: map<string, Value>)
    returns (r: Result<Raw>, ghost provs: seq<Provenance>)
    requires profile in files
    ensures r.Success? ==> Resolved(files, profile, r.value.order)
    ensures r.Success? ==>
              var layers := AllLayers(files, r.value.order, overrides);
              && Mapping(r.value.merged) == Tree(layers) && LayersAllowed(layers, |layers|)
              && Resolution(layers, provs) && r.value.provenance == provs[|layers|]
    ensures Fits(files, profile, MAX_EXTENDS_DEPTH) && OrderAllowed(files, profile, overrides) ==> r.Success?
  {
    hide Merge, Updated, AllAllowed, Tree, Touched, Resolved, Resolution, Resolving, LayersAllowed, AllLayers, Fits, OrderAllowed;
    provs := [];
    var collected := CollectLayers(files, profile);
    if collected.Failure? { return Failure(collected.error), provs; }
    assert AllReadable(files, collected.value) by { ResolvedReadable(files, profile, collected.value); }
    var layers := AllLayers(files, collected.value, overrides);
    OrderIsAllowed(files, profile, overrides, collected.value);
    var config := new LayeredConfig();
    provs := [config.provenance];
    NothingResolved(layers);
    for i := 0 to |layers|
      invariant fresh(config)
      invariant Mapping(config.merged) == Tree(layers[..i])
      invariant |provs| == i + 1 && provs[i] == config.provenance
      invariant Resolving(layers, provs, i) && LayersAllowed(layers, i)
    {
      TreeNext(layers, i);
      var merged := config.MergeLayer(config.merged, layers[i].body, [], layers[i].source, Mapping(layers[0].body), i == 0);
      if merged.Failure? {
        LayerAllowed(layers, i);
        return Failure(merged.error), provs;
      }
      NextResolved(layers, provs, i, config.provenance);
      config.merged := merged.value;
      provs := provs + [config.provenance];
    }
    assert layers[..|layers|] == layers;
    assert Resolution(layers, provs) by { AllResolved(layers, provs); }
    r := Success(Raw(config.merged, collected.value, config.provenance));
  }

  /** `Resolution`, up to a layer. */
  ghost predicate Resolving(layers: seq<Layer>, provs: seq<Provenance>, n: nat)
    requires n <= |layers|
  {
    && |provs| == n + 1 && provs[0] == map[]
    && forall i :: 0 <= i < n ==>
         Updated(provs[i], provs[i + 1], Touched(Some(Tree(layers[..i])), Mapping(layers[i].body), []), layers[i].source)
  }

  lemma {:induction false} ResolvedReadable(files: Files, profile: string, order: seq<string>)
    requires Resolved(files, profile, order)
    ensures AllReadable(files, order)
  {}

  lemma {:induction false} NothingResolved(layers: seq<Layer>)
    ensures Resolving(layers, [map[]], 0) && LayersAllowed(layers, 0)
    ensures Mapping(map[]) == Tree(layers[..0])
  {}

  lemma {:induction false} NextResolved(layers: seq<Layer>, provs: seq<Provenance>, i: nat, prov: Provenance)
    requires i < |layers| && Resolving(layers, provs, i) && LayersAllowed(layers, i)
    requires Updated(provs[i], prov, Touched(Some(Tree(layers[..i])), Mapping(layers[i].body), []), layers[i].source)
    requires i >= 1 ==> AllAllowed(Some(Tree(layers[..i])), Mapping(layers[i].body), [], Mapping(layers[0].body))
    ensures Resolving(layers, provs + [prov], i + 1) && LayersAllowed(layers, i + 1)
  {
    hide Updated, Touched, AllAllowed, Tree;
  }

  lemma {:induction false} AllResolved(layers: seq<Layer>, provs: seq<Provenance>)
    requires Resolving(layers, provs, |layers|)
    ensures Resolution(layers, provs)
  {
    hide Updated, Touched, Tree;
  }

  /** A layer's data is what the tree holds right after it is merged. */
  lemma {:induction false} DatumWins(t: Option<Value>, o: Value, at: Path, rest: Path)
    requires IsDatum(o, rest)
    ensures At(Merge(t, o, at), rest) == At(o, rest) && Assigns(t, o, at, rest)
    decreases |rest|
  {
    if !(Atomic(at) && o.Mapping?) && o.Mapping? && t.Some? && t.value.Mapping? {
      DatumWins(Child(t.value, rest[0]), o.entries[rest[0]], at + [rest[0]], rest[1..]);
    }
  }

  /** The layer says something at the path, or above it something that is not merged into. */
  predicate Touches(o: Value, p: Path) {
    exists i :: 0 <= i <= |p| && StopsAt(o, p, i)
  }

  predicate StopsAt(o: Value, p: Path, i: nat)
    requires i <= |p|
  {
    At(o, p[..i]).Some? && (i == |p| || !At(o, p[..i]).value.Mapping? || Atomic(p[..i]))
  }

  lemma {:induction false} UntouchedStays(t: Option<Value>, o: Value, at: Path, rest: Path)
    requires t.Some? && At(t.value, rest).Some? && At(o, []).Some?
    requires forall i :: 0 <= i <= |rest| && At(o, rest[..i]).Some? ==>
               i < |rest| && At(o, rest[..i]).value.Mapping? && !Atomic(at + rest[..i])
    ensures At(Merge(t, o, at), rest) == At(t.value, rest)
    decreases |rest|
  {
    assert rest[..0] == [] && at + [] == at;
    assert At(o, rest[..0]).Some?;
    if rest[0] in o.entries {
      var k := rest[0];
      forall i | 0 <= i <= |rest[1..]| && At(o.entries[k], rest[1..][..i]).Some?
        ensures i < |rest[1..]| && At(o.entries[k], rest[1..][..i]).value.Mapping? && !Atomic(at + [k] + rest[1..][..i])
      {
        assert rest[..i + 1][1..] == rest[1..][..i] && rest[..i + 1][0] == k;
        assert at + [k] + rest[1..][..i] == at + rest[..i + 1];
        assert At(o, rest[..i + 1]) == At(o.entries[k], rest[1..][..i]);
      }
      UntouchedStays(Child(t.value, k), o.entries[k], at + [k], rest[1..]);
    }
  }

  /** Data that no later layer touches is what the tree holds in the end. */
  lemma {:induction false} LastToucherWins(layers: seq<Layer>, i: nat, p: Path)
    requires i < |layers| && IsDatum(Mapping(layers[i].body), p)
    requires forall j :: i < j < |layers| ==> !Touches(Mapping(layers[j].body), p)
    ensures At(Tree(layers), p) == At(Mapping(layers[i].body), p)
  {
    hide Merge, Touches;
    var front, last := layers[..|layers| - 1], layers[|layers| - 1];
    if i == |layers| - 1 {
      DatumWins(Some(Tree(front)), Mapping(last.body), [], p);
    } else {
      LastToucherWins(front, i, p);
      UntouchedMeans(Mapping(last.body), p);
      UntouchedStays(Some(Tree(front)), Mapping(last.body), [], p);
    }
  }

  lemma {:induction false} UntouchedMeans(o: Value, p: Path)
    requires !Touches(o, p)
    ensures forall i :: 0 <= i <= |p| && At(o, p[..i]).Some? ==>
              i < |p| && At(o, p[..i]).value.Mapping? && !Atomic([] + p[..i])
  {
    forall i | 0 <= i <= |p| && At(o, p[..i]).Some? ensures i < |p| && At(o, p[..i]).value.Mapping? && !Atomic([] + p[..i]) {
      assert !StopsAt(o, p, i);
      assert [] + p[..i] == p[..i];
    }
  }

  /** What the overrides state is what the tree holds, attributed to them. */
  lemma {:induction false} OverridesWin(
    files: Files, order: seq<string>, overrides: map<string, Value>, provs: seq<Provenance>, p: Path)
    requires AllReadable(files, order) && Resolution(AllLayers(files, order, overrides), provs)
    requires IsDatum(Mapping(overrides), p)
    ensures At(Tree(AllLayers(files, order, overrides)), p) == At(Mapping(overrides), p)
    ensures |provs| > 0 && Source(provs[|provs| - 1], p) == Some("--set")
  {
    var layers := AllLayers(files, order, overrides);
    OverridesAreLast(files, order, overrides, p);
    hide Merge, Source, AllLayers, Resolution;
    TreeNext(layers, |layers| - 1);
    assert layers[..|layers|] == layers;
    DatumWins(Some(Tree(layers[..|layers| - 1])), Mapping(overrides), [], p);
    ProvLength(layers, provs);
    var i := LastDefinerWins(layers, provs, p);
    assert i == |layers| - 1;
  }

  lemma {:induction false} OverridesAreLast(files: Files, order: seq<string>, overrides: map<string, Value>, p: Path)
    requires AllReadable(files, order) && IsDatum(Mapping(overrides), p)
    ensures
      var layers := AllLayers(files, order, overrides);
      layers != [] && layers[|layers| - 1] == Layer("--set", overrides)
  {}

  lemma {:induction false} ProvLength(layers: seq<Layer>, provs: seq<Provenance>)
    requires Resolution(layers, provs)
    ensures |provs| == |layers| + 1
  {}

  /** Data the overrides do not state comes, value and source, from the last file in merge order that states it. */
  lemma {:induction false} FilesSupply(
    files: Files, order: seq<string>, overrides: map<string, Value>, provs: seq<Provenance>, p: Path) returns (i: nat)
    requires AllReadable(files, order) && Resolution(AllLayers(files, order, overrides), provs)
    requires IsDatum(Tree(AllLayers(files, order, overrides)), p) && !IsDatum(Mapping(overrides), p)
    ensures i < |order| && order[i] in files && |provs| > 0
    ensures IsDatum(Mapping(files[order[i]].body), p) && Source(provs[|provs| - 1], p) == Some(order[i])
    ensures At(Tree(AllLayers(files, order, overrides)), p) == At(Mapping(files[order[i]].body), p)
    ensures forall j :: i < j < |order| ==> order[j] in files && !IsDatum(Mapping(files[order[j]].body), p)
  {
    var layers := AllLayers(files, order, overrides);
    hide Source, Tree, IsDatum, Resolution;
    ProvLength(layers, provs);
    i := LastDefinerWins(layers, provs, p);
    assert forall j :: 0 <= j < |order| ==> order[j] in order && layers[j] == Layer(order[j], files[order[j]].body);
  }

  /**
   * Of two files that the profile extends, the one listed later supplies what both state, unless the earlier one
   * or a file listed before it extends it, or something later touches the path.
   */
  lemma {:induction false} LaterSiblingWins(files: Files, profile: string, order: seq<string>, m: nat, n: nat, p: Path)
    requires Resolved(files, profile, order) && m < n < |Extends(files, profile)|
    requires AllReadable(files, order)
    requires
      var early, late := Extends(files, profile)[m], Extends(files, profile)[n];
      && !ReachedFrom(files, Extends(files, profile), m + 1, late)
      && early in order && late in order
      && IsDatum(Mapping(files[early].body), p) && IsDatum(Mapping(files[late].body), p)
      && forall i, j :: 0 <= i < j < |order| && order[i] == late ==> !Touches(Mapping(files[order[j]].body), p)
    ensures At(Tree(LayersOf(files, order)), p) == At(Mapping(files[Extends(files, profile)[n]].body), p)
    ensures exists i, j :: 0 <= i < j < |order| && order[i] == Extends(files, profile)[m] && order[j] == Extends(files, profile)[n]
  {
    hide Reaches, ListedInOrder, Touches, IsDatum, Tree, Upto;
    var ps := Extends(files, profile);
    var walked := order[..|order| - 1];
    var k := SiblingsInOrder(files, ps, [], walked, m, n);
    var i :| 0 <= i < k && walked[..k][i] == ps[m];
    var j :| 0 <= j < |walked[k..]| && walked[k..][j] == ps[n];
    assert order[i] == ps[m] && order[k + j] == ps[n];
    LastToucherWins(LayersOf(files, order), k + j, p);
  }

  /** Without overrides, whatever data the profile itself states survives resolution, attributed to the profile. */
  lemma {:induction false} ProfileWins(files: Files, profile: string, order: seq<string>, provs: seq<Provenance>, p: Path)
    requires Resolved(files, profile, order) && Resolution(LayersOf(files, order), provs)
    requires profile in files && files[profile].File? && IsDatum(Mapping(files[profile].body), p)
    ensures At(Tree(LayersOf(files, order)), p) == At(Mapping(files[profile].body), p)
    ensures Source(provs[|order|], p) == Some(profile)
  {
    hide Merge, Updated, Reaches, Assigns;
    var layers := LayersOf(files, order);
    assert layers[|layers| - 1] == Layer(profile, files[profile].body);
    DatumWins(Some(Tree(layers[..|layers| - 1])), Mapping(files[profile].body), [], p);
    SourceIsLastWriter(layers, provs, p);
  }
}
