/** Flattening a configuration to dotted leaves, merging promoted leaves, and nesting them back. */
module Promotion {
  import opened Wrappers
  import opened ConfigTrees

  const DERIVED := "universe_metadata"

  /** No key anywhere contains a dot. */
  predicate DotFreeKeys(v: Value)
    decreases v
  {
    v.Mapping? ==> forall k :: k in v.entries ==> DotFree(k) && DotFreeKeys(v.entries[k])
  }

  /** Outside the derived section dotted paths can address every key: no dots, and none of the root's keys is empty. */
  predicate Clean(t: Value) {
    t.Mapping? ==> forall k :: k in t.entries && k != DERIVED ==> k != "" && DotFree(k) && DotFreeKeys(t.entries[k])
  }

  // -------------------------------------------------------------- flatten

  /** Exactly the leaves of a tree by dotted path, the derived root section left out. */
  ghost predicate IsFlattening(t: Value, flat: map<string, Value>) {
    forall s :: (s in flat <==> IsLeaf(t, Split(s)) && Split(s)[0] != DERIVED) &&
                (s in flat ==> At(t, Split(s)) == Some(flat[s]))
  }

  /** How the walk spells a child's path. */
  function NextPrefix(prefix: string, key: string): string {
    if prefix == "" then key else prefix + "." + key
  }

  predicate Skipped(prefix: string, key: string) {
    prefix == "" && key == DERIVED
  }

  function Spelled(prefix: string, q: Path): string
    decreases |q|
  {
    if q == [] then prefix else Spelled(NextPrefix(prefix, q[0]), q[1..])
  }

  /** The walk does not turn away on this path. */
  predicate Walked(prefix: string, q: Path)
    decreases |q|
  {
    q == [] || (!Skipped(prefix, q[0]) && Walked(NextPrefix(prefix, q[0]), q[1..]))
  }

  ghost predicate LeafFound(node: Value, prefix: string, q: Path, s: string, v: Value) {
    s != "" && Walked(prefix, q) && Spelled(prefix, q) == s && IsLeaf(node, q) && At(node, q) == Some(v)
  }

  /** Some leaf of the node is spelled this way and has this value. */
  ghost predicate Found(node: Value, prefix: string, s: string, v: Value) {
    exists q :: LeafFound(node, prefix, q, s, v)
  }

  ghost predicate FoundIn(entries: map<string, Value>, prefix: string, s: string, v: Value) {
    exists k :: k in entries && !Skipped(prefix, k) && Found(entries[k], NextPrefix(prefix, k), s, v)
  }

  /** What flattening any tree gives: each leaf's spelling, with the value of some leaf spelled that way. */
  ghost predicate Flattens(t: Value, flat: map<string, Value>) {
    && (forall s :: s in flat ==> Found(t, "", s, flat[s]))
    && (forall s, v :: Found(t, "", s, v) ==> s in flat)
  }

  class Flattener {
    var flat: map<string, Value>

    constructor ()
      ensures flat == map[]
    {
      flat := map[];
    }

    /** `walk`: one node, its dotted prefix telling whether it is the root. */
    method Walk(node: Value, prefix: string)
      modifies this
      ensures old(flat).Keys <= flat.Keys
      ensures forall s :: s in flat ==> (s in old(flat) && flat[s] == old(flat)[s]) || Found(node, prefix, s, flat[s])
      ensures forall s, v :: Found(node, prefix, s, v) ==> s in flat
      decreases node, 1
    {
      hide Found, FoundIn;
      if Inner(node) {
        FoundInside(node, prefix);
        WalkChildren(node, prefix);
      } else {
        FoundHere(node, prefix);
        if prefix != "" {
          flat := flat[prefix := node];
        }
      }
    }

    /** The loop of `walk` over a branch. */
    method WalkChildren(node: Value, prefix: string)
      requires Inner(node)
      modifies this
      ensures old(flat).Keys <= flat.Keys
      ensures forall s :: s in flat ==> (s in old(flat) && flat[s] == old(flat)[s]) || FoundIn(node.entries, prefix, s, flat[s])
      ensures forall s, v :: FoundIn(node.entries, prefix, s, v) ==> s in flat
      decreases node, 0
    {
      hide Found, FoundIn, Skipped;
      var left := node.entries.Keys;
      ghost var done: map<string, Value> := map[];
      NothingFound(prefix);
      while left != {}
        invariant left <= node.entries.Keys && done == map k | k in node.entries && k !in left :: node.entries[k]
        invariant old(flat).Keys <= flat.Keys
        invariant forall s :: s in flat ==> (s in old(flat) && flat[s] == old(flat)[s]) || FoundIn(done, prefix, s, flat[s])
        invariant forall s, v :: FoundIn(done, prefix, s, v) ==> s in flat
        decreases |left|
      {
        SomeKey(left);
        var key :| key in left;
        left := left - {key};
        FoundNext(done, key, node.entries[key], prefix);
        ghost var before, more := flat, done[key := node.entries[key]];
        if !Skipped(prefix, key) {
          Walk(node.entries[key], NextPrefix(prefix, key));
        }
        assert before.Keys <= flat.Keys;
        forall s, v | FoundIn(more, prefix, s, v) ensures s in flat {
          if FoundIn(done, prefix, s, v) { assert s in before.Keys; }
        }
        forall s | s in flat
          ensures (s in old(flat) && flat[s] == old(flat)[s]) || FoundIn(more, prefix, s, flat[s])
        {
          if s in before && flat[s] == before[s] {
            assert (s in old(flat) && before[s] == old(flat)[s]) || FoundIn(done, prefix, s, before[s]);
          }
        }
        done := done[key := node.entries[key]];
      }
      assert done == node.entries;
    }
  }

  lemma {:induction false} NothingFound(prefix: string)
    ensures forall s, v :: !FoundIn(map[], prefix, s, v)
  {}

  /** Walking one more child finds exactly the leaves beneath it. */
  lemma {:induction false} FoundNext(done: map<string, Value>, key: string, child: Value, prefix: string)
    requires key !in done
    ensures forall s, v :: FoundIn(done[key := child], prefix, s, v) <==>
              FoundIn(done, prefix, s, v) || (!Skipped(prefix, key) && Found(child, NextPrefix(prefix, key), s, v))
  {
    hide Found, Skipped, NextPrefix;
    var more := done[key := child];
    forall s, v
      ensures FoundIn(more, prefix, s, v) <==>
                FoundIn(done, prefix, s, v) || (!Skipped(prefix, key) && Found(child, NextPrefix(prefix, key), s, v))
    {
      if FoundIn(done, prefix, s, v) {
        var k :| k in done && !Skipped(prefix, k) && Found(done[k], NextPrefix(prefix, k), s, v);
        assert more[k] == done[k];
      }
      if !Skipped(prefix, key) && Found(child, NextPrefix(prefix, key), s, v) {
        assert key in more && more[key] == child;
      }
    }
  }

  lemma {:induction false} FoundInside(node: Value, prefix: string)
    requires Inner(node)
    ensures forall s, v :: Found(node, prefix, s, v) <==> FoundIn(node.entries, prefix, s, v)
  {
    forall s, v ensures Found(node, prefix, s, v) <==> FoundIn(node.entries, prefix, s, v) {
      if Found(node, prefix, s, v) {
        var q :| LeafFound(node, prefix, q, s, v);
        assert q != [];
        assert LeafFound(node.entries[q[0]], NextPrefix(prefix, q[0]), q[1..], s, v);
      }
      if FoundIn(node.entries, prefix, s, v) {
        var k :| k in node.entries && !Skipped(prefix, k) && Found(node.entries[k], NextPrefix(prefix, k), s, v);
        var q :| LeafFound(node.entries[k], NextPrefix(prefix, k), q, s, v);
        assert ([k] + q)[1..] == q;
        assert LeafFound(node, prefix, [k] + q, s, v);
      }
    }
  }

  lemma {:induction false} FoundHere(node: Value, prefix: string)
    requires !Inner(node)
    ensures forall s, v :: Found(node, prefix, s, v) <==> s == prefix && prefix != "" && v == node
  {
    forall s, v ensures Found(node, prefix, s, v) <==> s == prefix && prefix != "" && v == node {
      if Found(node, prefix, s, v) {
        var q :| LeafFound(node, prefix, q, s, v);
        assert q == [];
      }
      if s == prefix && prefix != "" {
        assert LeafFound(node, prefix, [], s, node);
      }
    }
  }

  /** `flatten`. */
  method Flatten(config: Value) returns (flat: map<string, Value>)
    ensures Flattens(config, flat)
    ensures Clean(config) ==> IsFlattening(config, flat)
  {
    var walker := new Flattener();
    walker.Walk(config, "");
    flat := walker.flat;
    if Clean(config) {
      CleanFlattens(config, flat);
    }
  }

  // With clean keys, spelling is joining.

  lemma {:induction false} SpelledIsJoined(prefix: string, q: Path)
    requires prefix != "" && q != []
    ensures Walked(prefix, q) && Spelled(prefix, q) == prefix + "." + Join(q)
    decreases |q|
  {
    if |q| > 1 {
      SpelledIsJoined(NextPrefix(prefix, q[0]), q[1..]);
      assert prefix + "." + q[0] + "." + Join(q[1..]) == prefix + "." + (q[0] + "." + Join(q[1..]));
    } else {
      assert q[1..] == [];
    }
  }

  lemma {:induction false} CleanSpelling(t: Value, q: Path)
    requires Clean(t) && q != [] && q[0] != DERIVED && At(t, q).Some?
    ensures Spelled("", q) == Join(q) && Split(Join(q)) == q && Join(q) != ""
    ensures Walked("", q)
  {
    CleanPath(t, q);
    SplitJoin(q);
    FirstDot(q);
    if |q| > 1 {
      SpelledIsJoined(q[0], q[1..]);
    } else {
      assert q[1..] == [];
    }
  }

  lemma {:induction false} CleanFlattens(t: Value, flat: map<string, Value>)
    requires Clean(t) && Flattens(t, flat)
    ensures IsFlattening(t, flat)
  {
    hide Clean, Split, Walked, Spelled;
    forall s
      ensures s in flat <==> IsLeaf(t, Split(s)) && Split(s)[0] != DERIVED
      ensures s in flat ==> At(t, Split(s)) == Some(flat[s])
    {
      if s in flat {
        CleanFound(t, s, flat[s]);
      }
      if IsLeaf(t, Split(s)) && Split(s)[0] != DERIVED {
        CleanSpelling(t, Split(s));
        JoinSplit(s);
        assert LeafFound(t, "", Split(s), s, At(t, Split(s)).value);
        assert Found(t, "", s, At(t, Split(s)).value);
      }
    }
  }

  lemma {:induction false} CleanFound(t: Value, s: string, v: Value)
    requires Clean(t) && Found(t, "", s, v)
    ensures IsLeaf(t, Split(s)) && Split(s)[0] != DERIVED && At(t, Split(s)) == Some(v)
  {
    hide Clean, Split;
    var q :| LeafFound(t, "", q, s, v);
    assert q != [];
    CleanSpelling(t, q);
  }

  /** Paths of a clean tree are dot-free. */
  lemma {:induction false} CleanPath(t: Value, p: Path)
    requires Clean(t) && p != [] && p[0] != DERIVED && At(t, p).Some?
    ensures DotFreePath(p) && p[0] != ""
  {
    DotFreeBelow(t.entries[p[0]], p[1..]);
    assert forall i :: 1 <= i < |p| ==> p[i] == p[1..][i - 1];
  }

  lemma {:induction false} DotFreeBelow(v: Value, p: Path)
    requires DotFreeKeys(v) && At(v, p).Some?
    ensures forall i :: 0 <= i < |p| ==> DotFree(p[i])
    decreases |p|
  {
    if p != [] {
      DotFreeBelow(v.entries[p[0]], p[1..]);
      assert forall i :: 1 <= i < |p| ==> p[i] == p[1..][i - 1];
    }
  }

  // ---------------------------------------------------------------- merge

  predicate IsAncestor(candidate: string, path: string) {
    candidate <= path && |candidate| < |path| && path[|candidate|] == '.'
  }

  /** A dotted ancestor is a proper prefix of segments. */
  lemma {:induction false} AncestorIsPrefix(a: string, b: string)
    ensures IsAncestor(a, b) <==> Split(a) < Split(b)
  {
    JoinSplit(a);
    JoinSplit(b);
    JoinKeepsPrefixes(Split(a), Split(b));
  }

  predicate Conflicts(a: string, b: string) {
    a == b || IsAncestor(a, b) || IsAncestor(b, a)
  }

  /** No promoted path is an ancestor of another. */
  predicate PrefixFree(leaves: map<string, Value>) {
    forall a, b :: a in leaves && b in leaves ==> !IsAncestor(a, b)
  }

  /** The newest selection that concerns a path decides: the path's own value, or that it is dropped. */
  function Decided(existing: map<string, Value>, selected: seq<(string, Value)>, s: string): Option<Value> {
    if selected == [] then if s in existing then Some(existing[s]) else None
    else
      var last := selected[|selected| - 1];
      if last.0 == s then Some(last.1)
      else if Conflicts(last.0, s) then None
      else Decided(existing, selected[..|selected| - 1], s)
  }

  ghost predicate IsMerge(existing: map<string, Value>, selected: seq<(string, Value)>, merged: map<string, Value>) {
    forall s :: (s in merged <==> Decided(existing, selected, s).Some?) &&
                (s in merged ==> Decided(existing, selected, s) == Some(merged[s]))
  }

  /** `merge`: drop whatever the new path conflicts with, then insert it. */
  method Merge(existing: map<string, Value>, selected: seq<(string, Value)>) returns (merged: map<string, Value>)
    ensures IsMerge(existing, selected, merged)
    ensures PrefixFree(existing) ==> PrefixFree(merged)
  {
    hide IsAncestor, PrefixFree;
    merged := existing;
    for i := 0 to |selected|
      invariant IsMerge(existing, selected[..i], merged)
      invariant PrefixFree(existing) ==> PrefixFree(merged)
    {
      var path := selected[i].0;
      assert selected[..i + 1][..i] == selected[..i];
      if PrefixFree(merged) {
        StaysPrefixFree(merged, path, selected[i].1);
      }
      merged := (map s | s in merged && !IsAncestor(s, path) && !IsAncestor(path, s) :: merged[s])[path := selected[i].1];
    }
    assert selected[..|selected|] == selected;
  }

  lemma {:induction false} StaysPrefixFree(merged: map<string, Value>, path: string, v: Value)
    requires PrefixFree(merged)
    ensures PrefixFree((map s | s in merged && !IsAncestor(s, path) && !IsAncestor(path, s) :: merged[s])[path := v])
  {
    NotOwnAncestor(path);
    hide IsAncestor;
  }

  lemma {:induction false} NotOwnAncestor(s: string)
    ensures !IsAncestor(s, s)
  {}

  // ----------------------------------------------------------------- nest

  /** Placing one value: descend, creating sections, until the last segment; stop dead at a non-mapping. */
  function Insert(entries: map<string, Value>, p: Path, v: Value): Option<map<string, Value>>
    requires p != []
    decreases |p|
  {
    if |p| == 1 then Some(entries[p[0] := v]) else
      var node := if p[0] in entries then entries[p[0]] else Mapping(map[]);
      if !node.Mapping? then None else
        var inner := Insert(node.entries, p[1..], v);
        if inner.None? then None else Some(entries[p[0] := Mapping(inner.value)])
  }

  /** Insertion gets through exactly when no proper ancestor holds anything but a mapping. */
  lemma {:induction false} InsertSucceeds(entries: map<string, Value>, p: Path, v: Value)
    requires p != []
    ensures Insert(entries, p, v).Some? <==>
              forall i :: 1 <= i < |p| && At(Mapping(entries), p[..i]).Some? ==> At(Mapping(entries), p[..i]).value.Mapping?
    decreases |p|
  {
    if |p| > 1 {
      var node := if p[0] in entries then entries[p[0]] else Mapping(map[]);
      assert p[..1] == [p[0]] && p[..1][1..] == [];
      if node.Mapping? {
        InsertSucceeds(node.entries, p[1..], v);
        forall i | 1 <= i < |p| - 1 ensures At(Mapping(entries), p[..i + 1]).Some? ==> At(Mapping(entries), p[..i + 1]) == At(node, p[1..][..i]) {
          assert p[..i + 1][1..] == p[1..][..i];
        }
        if Insert(entries, p, v).Some? {
          forall i | 1 <= i < |p| && At(Mapping(entries), p[..i]).Some? ensures At(Mapping(entries), p[..i]).value.Mapping? {
            if i > 1 {
              assert p[..i][1..] == p[1..][..i - 1];
            }
          }
        } else {
          var i :| 1 <= i < |p| - 1 && At(node, p[1..][..i]).Some? && !At(node, p[1..][..i]).value.Mapping?;
          assert p[..i + 1][1..] == p[1..][..i] && p[1..][..i] != [];
          assert At(Mapping(entries), p[..i + 1]).Some?;
        }
      } else {
        assert At(Mapping(entries), p[..1]).Some?;
      }
    }
  }

  /** What insertion changes: the path itself; its ancestors become mappings; the rest stays. */
  lemma {:induction false} InsertAt(entries: map<string, Value>, p: Path, v: Value, q: Path)
    requires p != [] && Insert(entries, p, v).Some?
    ensures
      var after := Mapping(Insert(entries, p, v).value);
      && (p <= q ==> At(after, q) == At(v, q[|p|..]))
      && (q < p ==> At(after, q).Some? && Inner(At(after, q).value))
      && (!(p <= q) && !(q <= p) ==> At(after, q) == At(Mapping(entries), q))
    decreases |p|
  {
    var after := Insert(entries, p, v).value;
    assert p[0] in after;
    if q != [] && q[0] == p[0] {
      assert q == [q[0]] + q[1..] && p == [p[0]] + p[1..];
      if |p| > 1 {
        var node := if p[0] in entries then entries[p[0]] else Mapping(map[]);
        InsertAt(node.entries, p[1..], v, q[1..]);
        if p <= q { assert q[1..][|p[1..]|..] == q[|p|..]; }
      } else {
        assert q[1..] == q[|p|..];
      }
    }
  }

  /** A nesting: each dotted leaf sits at its path, and every leaf of the tree lies at or beneath one of them. */
  ghost predicate IsNesting(leaves: map<string, Value>, root: Value) {
    && root.Mapping?
    && (forall s :: s in leaves ==> At(root, Split(s)) == Some(leaves[s]))
    && (forall p :: IsLeaf(root, p) && p != [] ==> exists s :: s in leaves && Split(s) <= p)
    && (leaves == map[] ==> root == Mapping(map[]))
  }

  lemma {:induction false} NothingNested()
    ensures IsNesting(map[], Mapping(map[]))
  {
    forall p | IsLeaf(Mapping(map[]), p) ensures p == [] {}
  }

  lemma {:induction false} NestNext(
    leaves: map<string, Value>, done: map<string, Value>, root: map<string, Value>, path: string)
    requires PrefixFree(leaves) && path in leaves && path !in done
    requires forall s :: s in done ==> s in leaves && done[s] == leaves[s]
    requires IsNesting(done, Mapping(root))
    ensures Insert(root, Split(path), leaves[path]).Some?
    ensures IsNesting(done[path := leaves[path]], Mapping(Insert(root, Split(path), leaves[path]).value))
  {
    hide Insert, IsAncestor;
    var p, v := Split(path), leaves[path];
    forall s | s in done ensures !(Split(s) <= p) && !(p <= Split(s)) {
      AncestorIsPrefix(s, path);
      AncestorIsPrefix(path, s);
      JoinSplit(s);
      JoinSplit(path);
      assert Split(s) != p;
    }
    forall i | 1 <= i < |p| && At(Mapping(root), p[..i]).Some? ensures At(Mapping(root), p[..i]).value.Mapping? {
      assert forall s :: Split(s) <= p[..i] ==> Split(s) <= p;
      assert !At(Mapping(root), p[..i]).value.Mapping? ==> IsLeaf(Mapping(root), p[..i]);
    }
    InsertSucceeds(root, p, v);
    var after := Mapping(Insert(root, p, v).value);
    forall s | s in done[path := v] ensures At(after, Split(s)) == Some(done[path := v][s]) {
      InsertAt(root, p, v, Split(s));
      assert p[|p|..] == [];
    }
    forall q | IsLeaf(after, q) && q != [] ensures exists s :: s in done[path := v] && Split(s) <= q {
      InsertAt(root, p, v, q);
      if p <= q {
        assert path in done[path := v];
      } else {
        assert IsLeaf(Mapping(root), q) by { assert q <= p ==> q < p; }
        var s :| s in done && Split(s) <= q;
        assert s in done[path := v];
      }
    }
  }

  // ------------------------------------------------------- one by one

  predicate DistinctPaths(overrides: seq<(string, Value)>) {
    forall i, j :: 0 <= i < j < |overrides| ==> overrides[i].0 != overrides[j].0
  }

  function AsMap(overrides: seq<(string, Value)>): map<string, Value> {
    if overrides == [] then map[]
    else AsMap(overrides[..|overrides| - 1])[overrides[|overrides| - 1].0 := overrides[|overrides| - 1].1]
  }

  lemma {:induction false} AsMapIs(overrides: seq<(string, Value)>, i: nat)
    requires DistinctPaths(overrides) && i < |overrides|
    ensures overrides[i].0 in AsMap(overrides) && AsMap(overrides)[overrides[i].0] == overrides[i].1
    ensures forall s :: s in AsMap(overrides) ==> exists k :: 0 <= k < |overrides| && overrides[k].0 == s
  {
    var front, last := overrides[..|overrides| - 1], overrides[|overrides| - 1];
    if i < |front| {
      AsMapIs(front, i);
    } else if front != [] {
      AsMapIs(front, 0);
    }
    forall s | s in AsMap(overrides) ensures exists k :: 0 <= k < |overrides| && overrides[k].0 == s {
      if s != last.0 {
        var k :| 0 <= k < |front| && front[k].0 == s;
        assert overrides[k].0 == s;
      } else {
        assert overrides[|front|].0 == s;
      }
    }
  }

  /** Paths placed one after the other; `None` is the panic of `nest`, and the conflict that `_nested` reports. */
  function Placed(overrides: seq<(string, Value)>): Option<map<string, Value>> {
    if overrides == [] then Some(map[]) else
      var front, last := Placed(overrides[..|overrides| - 1]), overrides[|overrides| - 1];
      if front.None? then None else Insert(front.value, Split(last.0), last.1)
  }

  lemma {:induction false} PlacedNext(overrides: seq<(string, Value)>, i: nat)
    requires i < |overrides|
    ensures Placed(overrides[..i + 1]) ==
              if Placed(overrides[..i]).None? then None else Insert(Placed(overrides[..i]).value, Split(overrides[i].0), overrides[i].1)
    ensures Placed(overrides).Some? ==> Placed(overrides[..i + 1]).Some?
    decreases |overrides|
  {
    assert overrides[..i + 1][..i] == overrides[..i];
    if i + 1 < |overrides| {
      var front := overrides[..|overrides| - 1];
      assert front[..i + 1] == overrides[..i + 1];
      PlacedNext(front, i);
    } else {
      assert overrides[..i + 1] == overrides;
    }
  }

  lemma {:induction false} NothingPlaced()
    ensures Placed([]) == Some(map[])
  {}

  lemma {:induction false} FrontOf(overrides: seq<(string, Value)>, i: nat)
    requires DistinctPaths(overrides) && i < |overrides|
    ensures overrides[i].0 in AsMap(overrides) && AsMap(overrides)[overrides[i].0] == overrides[i].1
    ensures overrides[i].0 !in AsMap(overrides[..i])
    ensures forall s :: s in AsMap(overrides[..i]) ==> s in AsMap(overrides) && AsMap(overrides)[s] == AsMap(overrides[..i])[s]
  {
    var front := overrides[..i];
    AsMapIs(overrides, i);
    if i > 0 { AsMapIs(front, 0); }
    forall s | s in AsMap(front) ensures s != overrides[i].0 && s in AsMap(overrides) && AsMap(overrides)[s] == AsMap(front)[s] {
      var k :| 0 <= k < |front| && front[k].0 == s;
      AsMapIs(front, k);
      AsMapIs(overrides, k);
    }
  }

  /** Placed in any order at all, prefix-free leaves are nested. */
  lemma {:induction false} AnyOrderNests(order: seq<(string, Value)>)
    requires DistinctPaths(order) && PrefixFree(AsMap(order))
    ensures Placed(order).Some? && IsNesting(AsMap(order), Mapping(Placed(order).value))
  {
    hide IsNesting, Insert, Split, IsAncestor;
    if order != [] {
      var n := |order| - 1;
      FrontOf(order, n);
      AnyOrderNests(order[..n]);
      NestNext(AsMap(order), AsMap(order[..n]), Placed(order[..n]).value, order[n].0);
    } else {
      NothingNested();
    }
  }

  predicate NoSections(leaves: map<string, Value>) {
    forall s :: s in leaves ==> !Inner(leaves[s])
  }

  /** Some path extends another whose value is not a mapping. */
  ghost predicate Blocked(leaves: map<string, Value>) {
    exists a, b :: a in leaves && b in leaves && IsAncestor(a, b) && !leaves[a].Mapping?
  }

  ghost predicate BlockedIn(order: seq<(string, Value)>) {
    exists i, j :: 0 <= i < |order| && 0 <= j < |order| && IsAncestor(order[i].0, order[j].0) && !order[i].1.Mapping?
  }

  /** No path comes after one that extends it, as in a sorted map. */
  predicate AncestorsFirst(order: seq<(string, Value)>) {
    forall i, j :: 0 <= i < j < |order| ==> !IsAncestor(order[j].0, order[i].0)
  }

  predicate Sectionless(order: seq<(string, Value)>) {
    forall i :: 0 <= i < |order| ==> !Inner(order[i].1)
  }

  ghost predicate Kept(root: Value, p: Path, v: Value) {
    At(root, p).Some? && if v.Mapping? then At(root, p).value.Mapping? else At(root, p).value == v
  }

  ghost predicate DatumOf(order: seq<(string, Value)>, p: Path) {
    exists i :: 0 <= i < |order| && Split(order[i].0) == p && !order[i].1.Mapping?
  }

  /** What has been placed is still there, and nothing but it is a datum. */
  ghost predicate InPlace(root: map<string, Value>, order: seq<(string, Value)>) {
    && (forall i :: 0 <= i < |order| ==> Kept(Mapping(root), Split(order[i].0), order[i].1))
    && (forall p :: IsDatum(Mapping(root), p) ==> DatumOf(order, p))
  }

  /** In sorted order placing gets through exactly when no path extends another whose value is not a mapping. */
  lemma {:induction false} PlacedExactly(order: seq<(string, Value)>)
    requires DistinctPaths(order) && AncestorsFirst(order) && Sectionless(order)
    ensures Placed(order).Some? <==> !BlockedIn(order)
    ensures Placed(order).Some? ==> InPlace(Placed(order).value, order)
  {
    hide Insert, Split, IsAncestor, InPlace, BlockedIn;
    if order != [] {
      var front, last := order[..|order| - 1], order[|order| - 1];
      assert order == front + [last];
      PlacedExactly(front);
      BlockedNext(front, last);
      if Placed(front).Some? {
        PlaceInOrder(Placed(front).value, front, last.0, last.1);
      }
    } else {
      NothingInPlace();
    }
  }

  lemma {:induction false} NothingInPlace()
    ensures InPlace(map[], []) && !BlockedIn([])
  {}

  lemma {:induction false} BlockedNext(front: seq<(string, Value)>, last: (string, Value))
    requires AncestorsFirst(front + [last])
    ensures BlockedIn(front + [last]) <==>
              BlockedIn(front) || exists i :: 0 <= i < |front| && IsAncestor(front[i].0, last.0) && !front[i].1.Mapping?
  {
    var order := front + [last];
    NotOwnAncestor(last.0);
    hide IsAncestor;
    assert order[|front|] == last && forall i :: 0 <= i < |front| ==> order[i] == front[i];
    if BlockedIn(front) {
      var i, j :| 0 <= i < |front| && 0 <= j < |front| && IsAncestor(front[i].0, front[j].0) && !front[i].1.Mapping?;
      assert IsAncestor(order[i].0, order[j].0);
    }
    if i :| 0 <= i < |front| && IsAncestor(front[i].0, last.0) && !front[i].1.Mapping? {
      assert IsAncestor(order[i].0, order[|front|].0);
    }
  }

  lemma {:induction false} PlaceInOrder(root: map<string, Value>, before: seq<(string, Value)>, path: string, v: Value)
    requires InPlace(root, before) && !Inner(v) && Sectionless(before)
    requires DistinctPaths(before + [(path, v)]) && AncestorsFirst(before + [(path, v)])
    ensures Insert(root, Split(path), v).Some? <==>
              !exists i :: 0 <= i < |before| && IsAncestor(before[i].0, path) && !before[i].1.Mapping?
    ensures Insert(root, Split(path), v).Some? ==> InPlace(Insert(root, Split(path), v).value, before + [(path, v)])
  {
    hide Insert, Split, IsAncestor, InPlace;
    InsertBlocked(root, before, path, v);
    if Insert(root, Split(path), v).Some? {
      StillInPlace(root, before, path, v);
    }
  }

  lemma {:induction false} InsertBlocked(root: map<string, Value>, before: seq<(string, Value)>, path: string, v: Value)
    requires InPlace(root, before)
    ensures Insert(root, Split(path), v).Some? <==>
              !exists i :: 0 <= i < |before| && IsAncestor(before[i].0, path) && !before[i].1.Mapping?
  {
    hide Insert, Split, IsAncestor;
    var p := Split(path);
    InsertSucceeds(root, p, v);
    forall i | 0 <= i < |before| ensures IsAncestor(before[i].0, path) <==> Split(before[i].0) < p {
      AncestorIsPrefix(before[i].0, path);
    }
    if i :| 0 <= i < |before| && IsAncestor(before[i].0, path) && !before[i].1.Mapping? {
      var k := |Split(before[i].0)|;
      assert p[..k] == Split(before[i].0) && Kept(Mapping(root), Split(before[i].0), before[i].1);
    }
    forall k | 1 <= k < |p| && IsDatum(Mapping(root), p[..k])
      ensures exists i :: 0 <= i < |before| && IsAncestor(before[i].0, path) && !before[i].1.Mapping?
    {
      assert DatumOf(before, p[..k]);
      var i :| 0 <= i < |before| && Split(before[i].0) == p[..k] && !before[i].1.Mapping?;
      assert p[..k] < p;
    }
  }

  /** What was placed before does not lie at or beneath a path that comes after it. */
  lemma {:induction false} NotBeneath(before: seq<(string, Value)>, path: string, v: Value, i: nat)
    requires DistinctPaths(before + [(path, v)]) && AncestorsFirst(before + [(path, v)]) && i < |before|
    ensures !(Split(path) <= Split(before[i].0))
  {
    hide Split, IsAncestor;
    var all := before + [(path, v)];
    assert all[i] == before[i] && all[|before|] == (path, v);
    JoinSplit(path);
    JoinSplit(before[i].0);
    AncestorIsPrefix(path, before[i].0);
    var p, q := Split(path), Split(before[i].0);
    assert p <= q && |p| == |q| ==> p == q;
  }

  lemma {:induction false} StillInPlace(root: map<string, Value>, before: seq<(string, Value)>, path: string, v: Value)
    requires InPlace(root, before) && !Inner(v) && Insert(root, Split(path), v).Some?
    requires forall i :: 0 <= i < |before| && IsAncestor(before[i].0, path) ==> before[i].1.Mapping?
    requires DistinctPaths(before + [(path, v)]) && AncestorsFirst(before + [(path, v)])
    ensures InPlace(Insert(root, Split(path), v).value, before + [(path, v)])
  {
    hide Insert, Split, IsAncestor;
    var p, all, next := Split(path), before + [(path, v)], Mapping(Insert(root, Split(path), v).value);
    assert all[|before|] == (path, v) && p[|p|..] == [];
    forall i | 0 <= i < |all| ensures Kept(next, Split(all[i].0), all[i].1) {
      InsertAt(root, p, v, Split(all[i].0));
      if i < |before| {
        assert all[i] == before[i] && Kept(Mapping(root), Split(before[i].0), before[i].1);
        AncestorIsPrefix(before[i].0, path);
        NotBeneath(before, path, v, i);
      } else {
        assert At(next, p) == Some(v);
      }
    }
    forall q | IsDatum(next, q) ensures DatumOf(all, q) {
      InsertAt(root, p, v, q);
      if p <= q {
        assert q[|p|..] == [] && q == p && all[|before|].0 == path;
      } else {
        assert IsDatum(Mapping(root), q) && DatumOf(before, q);
        var i :| 0 <= i < |before| && Split(before[i].0) == q && !before[i].1.Mapping?;
        assert all[i] == before[i];
      }
    }
  }

  // ----------------------------------------------------------------- nest

  /** The leaves placed so far, each once, in an order that a sorted map allows. */
  ghost predicate PlacedSoFar(order: seq<(string, Value)>, leaves: map<string, Value>, left: set<string>) {
    && DistinctPaths(order) && AncestorsFirst(order)
    && (forall i :: 0 <= i < |order| ==> order[i].0 in leaves && order[i].0 !in left && order[i].1 == leaves[order[i].0])
    && (forall s :: s in leaves && s !in left ==> (s, leaves[s]) in order)
    && (forall i, s :: 0 <= i < |order| && s in left ==> !IsAncestor(s, order[i].0))
  }

  lemma {:induction false} NoneSoFar(leaves: map<string, Value>)
    ensures PlacedSoFar([], leaves, leaves.Keys)
  {}

  lemma {:induction false} SomeShortest(paths: set<string>)
    requires paths != {}
    ensures exists s :: s in paths && forall t :: t in paths ==> !IsAncestor(t, s)
  {
    hide IsAncestor;
    SomeKey(paths);
    var some :| some in paths;
    var rest := paths - {some};
    NotOwnAncestor(some);
    assert forall t :: t in paths ==> t == some || t in rest;
    if rest != {} {
      SomeShortest(rest);
      var least :| least in rest && forall t :: t in rest ==> !IsAncestor(t, least);
      if IsAncestor(some, least) {
        forall t | t in paths ensures !IsAncestor(t, some) {
          AncestorOfAncestor(t, some, least);
        }
        assert some in paths && forall t :: t in paths ==> !IsAncestor(t, some);
      } else {
        assert least in paths && forall t :: t in paths ==> !IsAncestor(t, least);
      }
    } else {
      assert some in paths && forall t :: t in paths ==> !IsAncestor(t, some);
    }
  }

  lemma {:induction false} AncestorOfAncestor(a: string, b: string, c: string)
    ensures IsAncestor(a, b) && IsAncestor(b, c) ==> IsAncestor(a, c)
  {}

  lemma {:induction false} OneMoreSoFar(order: seq<(string, Value)>, leaves: map<string, Value>, left: set<string>, path: string)
    requires PlacedSoFar(order, leaves, left) && left <= leaves.Keys && path in left
    requires forall s :: s in left ==> !IsAncestor(s, path)
    ensures PlacedSoFar(order + [(path, leaves[path])], leaves, left - {path})
  {
    hide IsAncestor;
    var more := order + [(path, leaves[path])];
    assert more[|order|] == (path, leaves[path]) && forall i :: 0 <= i < |order| ==> more[i] == order[i];
    forall s | s in leaves && s !in left - {path} ensures (s, leaves[s]) in more {
      if s != path { assert (s, leaves[s]) in order; }
    }
  }

  /** What the placing so far says about the whole: a failure stays one, and prefix-free leaves give none. */
  lemma {:induction false} OrderDecidesAll(order: seq<(string, Value)>, leaves: map<string, Value>, left: set<string>)
    requires PlacedSoFar(order, leaves, left)
    ensures PrefixFree(leaves) ==> Placed(order).Some?
    ensures NoSections(leaves) && Placed(order).None? ==> Blocked(leaves)
  {
    hide IsAncestor, Placed;
    if PrefixFree(leaves) {
      AsMapWithin(order, leaves);
      AnyOrderNests(order);
    }
    if NoSections(leaves) && Placed(order).None? {
      PlacedExactly(order);
      var i, j :| 0 <= i < |order| && 0 <= j < |order| && IsAncestor(order[i].0, order[j].0) && !order[i].1.Mapping?;
      assert leaves[order[i].0] == order[i].1 && order[j].0 in leaves;
    }
  }

  lemma {:induction false} AsMapWithin(order: seq<(string, Value)>, leaves: map<string, Value>)
    requires DistinctPaths(order)
    requires forall i :: 0 <= i < |order| ==> order[i].0 in leaves && order[i].1 == leaves[order[i].0]
    ensures forall s :: s in AsMap(order) ==> s in leaves && AsMap(order)[s] == leaves[s]
  {
    if order != [] { AsMapWithin(order[..|order| - 1], leaves); }
  }

  lemma {:induction false} AllSoFar(order: seq<(string, Value)>, leaves: map<string, Value>)
    requires PlacedSoFar(order, leaves, {}) && Placed(order).Some?
    ensures PrefixFree(leaves) ==> IsNesting(leaves, Mapping(Placed(order).value))
    ensures NoSections(leaves) ==> !Blocked(leaves)
  {
    hide IsAncestor, Placed, IsNesting;
    AsMapWithin(order, leaves);
    forall s | s in leaves ensures s in AsMap(order) {
      var i :| 0 <= i < |order| && order[i] == (s, leaves[s]);
      AsMapIs(order, i);
    }
    assert AsMap(order) == leaves;
    if PrefixFree(leaves) { AnyOrderNests(order); }
    if NoSections(leaves) {
      PlacedExactly(order);
      forall a, b | a in leaves && b in leaves && IsAncestor(a, b) ensures leaves[a].Mapping? {
        var i :| 0 <= i < |order| && order[i] == (a, leaves[a]);
        var j :| 0 <= j < |order| && order[j] == (b, leaves[b]);
        assert IsAncestor(order[i].0, order[j].0);
      }
    }
  }

  /**
   * `nest`; a failure is the panic of its `expect`. Prefix-free leaves never reach it. Among leaves that are
   * no sections it is reached exactly when one extends another whose value is not a mapping.
   */
  method Nest(leaves: map<string, Value>) returns (r: Result<Value>)
    ensures PrefixFree(leaves) ==> r.Success? && IsNesting(leaves, r.value)
    ensures NoSections(leaves) ==> (r.Failure? <==> Blocked(leaves))
  {
    hide PrefixFree, IsNesting, Insert, NoSections, Blocked, PlacedSoFar;
    var root: map<string, Value> := map[];
    var left := leaves.Keys;
    ghost var order: seq<(string, Value)> := [];
    NoneSoFar(leaves);
    while left != {}
      invariant left <= leaves.Keys && PlacedSoFar(order, leaves, left) && Placed(order) == Some(root)
      decreases |left|
    {
      SomeShortest(left);
      var path :| path in left && forall s :: s in left ==> !IsAncestor(s, path);
      OneMoreSoFar(order, leaves, left, path);
      left := left - {path};
      order := order + [(path, leaves[path])];
      OrderDecidesAll(order, leaves, left);
      var node := Insert(root, Split(path), leaves[path]);
      assert order[..|order| - 1] + [order[|order| - 1]] == order;
      if node.None? { return Failure("ancestors were removed on merge"); }
      root := node.value;
    }
    AllSoFar(order, leaves);
    r := Success(Mapping(root));
  }

  // ---------------------------------------------------------- round trips

  /** Two leaves are never ancestors of each other, so what is loaded from a file is prefix-free. */
  lemma {:induction false} FlatteningIsPrefixFree(t: Value, flat: map<string, Value>)
    requires IsFlattening(t, flat)
    ensures PrefixFree(flat)
  {
    hide IsAncestor;
    forall a, b | a in flat && b in flat ensures !IsAncestor(a, b) {
      AncestorIsPrefix(a, b);
      if Split(a) < Split(b) {
        LeafEnds(t, Split(a), Split(b));
      }
    }
  }

  lemma {:induction false} LeafEnds(t: Value, p: Path, q: Path)
    requires IsLeaf(t, p) && p <= q
    ensures At(t, q).Some? ==> q == p
  {
    AtExtends(t, p, q[|p|..]);
    assert p + q[|p|..] == q;
    assert q != p ==> q[|p|..] != [];
  }

  /** The paths that flattening can produce: not empty, no leading dot, and outside the derived section. */
  predicate Loadable(s: string) {
    s != "" && s[0] != '.' && Split(s)[0] != DERIVED
  }

  lemma {:induction false} SpellsItself(s: string)
    requires Loadable(s)
    ensures s != "" && Walked("", Split(s)) && Spelled("", Split(s)) == s
  {
    var q := Split(s);
    JoinSplit(s);
    assert q[0] != "";
    if |q| > 1 {
      SpelledIsJoined(q[0], q[1..]);
    } else {
      assert q[1..] == [];
    }
  }

  /** Leading empty keys leave no trace in the spelling, so it never starts with a dot. */
  lemma {:induction false} SpellingIsLoadable(q: Path)
    requires DotFreePath(q) && Walked("", q) && Spelled("", q) != ""
    ensures Loadable(Spelled("", q))
    decreases |q|
  {
    if q[0] == "" {
      assert q[1..] != [];
      SpellingIsLoadable(q[1..]);
    } else {
      SplitJoin(q);
      FirstDot(q);
      if |q| > 1 {
        SpelledIsJoined(q[0], q[1..]);
      } else {
        assert q[1..] == [];
      }
      assert q[0][0] in q[0];
    }
  }

  lemma {:induction false} FlatHasNoSections(t: Value, flat: map<string, Value>)
    requires Flattens(t, flat)
    ensures NoSections(flat)
  {
    hide Walked, Spelled;
    forall s | s in flat ensures !Inner(flat[s]) {
      var q :| LeafFound(t, "", q, s, flat[s]);
    }
  }

  /** A nesting of values that are not sections has its leaves at the given paths and nowhere else. */
  lemma {:induction false} NestedAt(leaves: map<string, Value>, root: Value, q: Path) returns (a: string)
    requires IsNesting(leaves, root) && NoSections(leaves) && IsLeaf(root, q) && q != []
    ensures a in leaves && Split(a) == q && At(root, q) == Some(leaves[a])
  {
    hide Split;
    a :| a in leaves && Split(a) <= q;
    LeafEnds(root, Split(a), q);
  }

  /**
   * `flatten(nest(m)) == m` exactly when every leaf of `m` can be loaded: its value is no section, its path is
   * not empty, starts with no dot, and lies outside the derived section.
   */
  lemma {:induction false} FlattenAfterNest(leaves: map<string, Value>, root: Value, flat: map<string, Value>)
    requires IsNesting(leaves, root) && Flattens(root, flat)
    ensures flat == leaves <==> NoSections(leaves) && forall s :: s in leaves ==> Loadable(s)
  {
    hide IsNesting, Flattens, Loadable;
    FlatHasNoSections(root, flat);
    if NoSections(leaves) {
      forall s | s in flat ensures Loadable(s) {
        FlatIsLoadable(leaves, root, flat, s);
      }
      if forall s :: s in leaves ==> Loadable(s) {
        LoadableIsKept(leaves, root, flat);
      }
    }
  }

  lemma {:induction false} FlatIsLoadable(leaves: map<string, Value>, root: Value, flat: map<string, Value>, s: string)
    requires IsNesting(leaves, root) && NoSections(leaves) && Flattens(root, flat) && s in flat
    ensures Loadable(s)
  {
    hide IsNesting, NoSections, Walked, Spelled, Split, Loadable;
    var q :| LeafFound(root, "", q, s, flat[s]);
    SpelledNothing();
    var a := NestedAt(leaves, root, q);
    SpellingIsLoadable(q);
  }

  lemma {:induction false} SpelledNothing()
    ensures Spelled("", []) == ""
  {}

  lemma {:induction false} LoadableIsKept(leaves: map<string, Value>, root: Value, flat: map<string, Value>)
    requires IsNesting(leaves, root) && NoSections(leaves) && Flattens(root, flat)
    requires forall s :: s in leaves ==> Loadable(s)
    ensures flat == leaves
  {
    hide Walked, Spelled, Split, Loadable;
    forall s | s in leaves ensures s in flat {
      SpellsItself(s);
      assert LeafFound(root, "", Split(s), s, leaves[s]);
      assert Found(root, "", s, leaves[s]);
    }
    SpelledNothing();
    forall s | s in flat ensures s in leaves && flat[s] == leaves[s] {
      var q :| LeafFound(root, "", q, s, flat[s]);
      var a := NestedAt(leaves, root, q);
      SpellsItself(a);
    }
  }

  /** A path that starts with a dot comes back without it. */
  lemma {:induction false} LeadingDotIsLost(v: Value, root: Value, flat: map<string, Value>)
    requires !Inner(v) && IsNesting(map[".a" := v], root) && Flattens(root, flat)
    ensures flat == map["a" := v]
  {
    hide IsNesting, Split, Spelled, Walked;
    var leaves := map[".a" := v];
    var q := ["", "a"];
    DotA();
    SpelledNothing();
    assert At(root, q) == Some(v) by { NestedHas(leaves, root, ".a"); }
    assert LeafFound(root, "", q, "a", v);
    assert Found(root, "", "a", v);
    forall s | s in flat ensures s == "a" && flat[s] == v {
      var p :| LeafFound(root, "", p, s, flat[s]);
      var a := NestedAt(leaves, root, p);
    }
  }

  lemma {:induction false} DotA()
    ensures Split(".a") == ["", "a"] && Spelled("", ["", "a"]) == "a" && Walked("", ["", "a"])
  {
    var q := ["", "a"];
    assert q[1..] == ["a"] && ["a"][1..] == [];
    assert Join(q) == "" + "." + "a" == ".a";
    SplitJoin(q);
  }

  lemma {:induction false} NestedHas(leaves: map<string, Value>, root: Value, s: string)
    requires IsNesting(leaves, root) && s in leaves
    ensures At(root, Split(s)) == Some(leaves[s])
  {}

  function WithoutDerived(t: Value): Value {
    if t.Mapping? then Mapping(t.entries - {DERIVED}) else t
  }

  /** `nest(flatten(t))` is the tree without its derived root section, exactly when dotted paths can address every key of that. */
  lemma {:induction false} NestAfterFlatten(t: Value, flat: map<string, Value>, root: Value)
    requires t.Mapping? && Flattens(t, flat) && IsNesting(flat, root)
    ensures root == WithoutDerived(t) <==> Clean(t)
  {
    hide Flattens, IsNesting, Clean, IsFlattening;
    if Clean(t) {
      CleanFlattens(t, flat);
      NestOfClean(t, flat, root);
    }
    if root == WithoutDerived(t) {
      NestedIsClean(t, flat, root);
    }
  }

  /** What nesting reproduces has only keys that dotted paths address. */
  lemma {:induction false} NestedIsClean(t: Value, flat: map<string, Value>, root: Value)
    requires t.Mapping? && Flattens(t, flat) && IsNesting(flat, root) && root == WithoutDerived(t)
    ensures Clean(t)
  {
    hide Flattens, IsNesting, Split, Loadable;
    FlatHasNoSections(t, flat);
    forall k | k in t.entries && k != DERIVED ensures k != "" && DotFree(k) && DotFreeKeys(t.entries[k]) {
      assert root.entries[k] == t.entries[k];
      var r := SomeLeafOf(t.entries[k]);
      NestedKeys(t, flat, root, k, r);
      forall r | IsLeaf(t.entries[k], r) ensures forall i :: 0 <= i < |r| ==> DotFree(r[i]) {
        NestedKeys(t, flat, root, k, r);
      }
      LeavesDotFree(t.entries[k]);
    }
  }

  lemma {:induction false} NestedKeys(t: Value, flat: map<string, Value>, root: Value, k: string, r: Path)
    requires t.Mapping? && Flattens(t, flat) && IsNesting(flat, root) && root == WithoutDerived(t) && NoSections(flat)
    requires k in t.entries && k != DERIVED && IsLeaf(t.entries[k], r)
    ensures k != "" && DotFree(k) && forall i :: 0 <= i < |r| ==> DotFree(r[i])
  {
    hide IsNesting, Spelled, Loadable;
    var p := [k] + r;
    assert p[1..] == r && At(root, p) == At(t.entries[k], r);
    var s := NestedAt(flat, root, p);
    assert forall i :: 0 <= i < |r| ==> r[i] == p[i + 1];
    var q :| LeafFound(t, "", q, s, flat[s]);
    SpelledNothing();
    assert q[0] != DERIVED && At(root, q) == At(t, q);
    var a := NestedAt(flat, root, q);
    SpellingIsLoadable(q);
    FirstKeySpelled(s);
  }

  lemma {:induction false} FirstKeySpelled(s: string)
    requires Loadable(s)
    ensures Split(s)[0] != ""
  {}

  lemma {:induction false} LeavesDotFree(v: Value)
    requires forall r :: IsLeaf(v, r) ==> forall i :: 0 <= i < |r| ==> DotFree(r[i])
    ensures DotFreeKeys(v)
    decreases v
  {
    if v.Mapping? {
      forall k | k in v.entries ensures DotFree(k) && DotFreeKeys(v.entries[k]) {
        var some := SomeLeafOf(v.entries[k]);
        assert ([k] + some)[1..] == some && IsLeaf(v, [k] + some);
        assert ([k] + some)[0] == k;
        forall r | IsLeaf(v.entries[k], r) ensures forall i :: 0 <= i < |r| ==> DotFree(r[i]) {
          var p := [k] + r;
          assert p[1..] == r && IsLeaf(v, p);
          assert forall i :: 0 <= i < |r| ==> r[i] == p[i + 1];
        }
        LeavesDotFree(v.entries[k]);
      }
    }
  }

  lemma {:induction false} NestOfClean(t: Value, flat: map<string, Value>, root: Value)
    requires t.Mapping? && Clean(t) && IsFlattening(t, flat) && IsNesting(flat, root)
    ensures root == WithoutDerived(t)
  {
    var kept := WithoutDerived(t);
    forall p | p != [] ensures At(kept, p) == if p[0] == DERIVED then None else At(t, p) {}
    forall p | IsLeaf(root, p) || IsLeaf(kept, p) ensures At(root, p) == At(kept, p) {
      if p == [] {
        RootLeaf(t, flat, root);
      } else if IsLeaf(kept, p) {
        NestedLeaf(t, flat, root, p);
      } else {
        var s :| s in flat && Split(s) <= p;
        LeafEnds(root, Split(s), p);
      }
    }
    LeavesDetermineTree(root, kept);
  }

  lemma {:induction false} RootLeaf(t: Value, flat: map<string, Value>, root: Value)
    requires t.Mapping? && Clean(t) && IsFlattening(t, flat) && IsNesting(flat, root)
    requires IsLeaf(root, []) || IsLeaf(WithoutDerived(t), [])
    ensures root == WithoutDerived(t) == Mapping(map[])
  {
    hide Clean, IsFlattening, IsNesting, Split;
    KeptIsNested(t, flat, root);
    FlatIsKept(t, flat);
    NestedIsFlat(flat, root);
  }

  lemma {:induction false} NestedIsFlat(flat: map<string, Value>, root: Value)
    requires IsNesting(flat, root)
    ensures root.Mapping? && (flat == map[] ==> root == Mapping(map[]))
  {}

  lemma {:induction false} KeptIsNested(t: Value, flat: map<string, Value>, root: Value)
    requires t.Mapping? && Clean(t) && IsFlattening(t, flat) && IsNesting(flat, root)
    ensures WithoutDerived(t).entries != map[] ==> Inner(root)
  {
    hide Clean, IsFlattening, IsNesting, Split;
    var kept := WithoutDerived(t);
    if kept.entries != map[] {
      SomeKey(kept.entries.Keys);
      var k :| k in kept.entries.Keys;
      var r := SomeLeafOf(kept.entries[k]);
      var p := [k] + r;
      assert p[1..] == r;
      NestedLeaf(t, flat, root, p);
    }
  }

  lemma {:induction false} NestedLeaf(t: Value, flat: map<string, Value>, root: Value, p: Path)
    requires Clean(t) && IsFlattening(t, flat) && IsNesting(flat, root)
    requires IsLeaf(t, p) && p != [] && p[0] != DERIVED
    ensures At(root, p) == At(t, p)
    ensures Inner(root)
  {
    CleanPath(t, p);
    SplitJoin(p);
    assert Join(p) in flat;
  }

  lemma {:induction false} FlatIsKept(t: Value, flat: map<string, Value>)
    requires t.Mapping? && IsFlattening(t, flat)
    ensures flat != map[] ==> WithoutDerived(t).entries != map[]
  {
    if flat != map[] {
      SomeKey(flat.Keys);
      var s :| s in flat.Keys;
      assert Split(s)[0] in WithoutDerived(t).entries;
    }
  }

  // ------------------------------------------------------------ end to end

  /** The promotable leaf at a dotted path. */
  function LeafAt(t: Value, s: string): Option<Value> {
    if IsLeaf(t, Split(s)) && Split(s)[0] != DERIVED then At(t, Split(s)) else None
  }

  /** The differing leaves, each once: what of the source the target does not already have. */
  ghost predicate IsChanges(source: Value, target: Value, changes: seq<(string, Value)>) {
    && (forall s, v :: (s, v) in changes <==> LeafAt(source, s) == Some(v) && LeafAt(target, s) != Some(v))
    && forall i, j :: 0 <= i < j < |changes| ==> changes[i].0 != changes[j].0
  }

  lemma {:induction false} FlatIsLeafAt(t: Value, flat: map<string, Value>)
    requires IsFlattening(t, flat)
    ensures forall s :: LeafAt(t, s) == if s in flat then Some(flat[s]) else None
  {}

  /** The differing leaves among those already looked at, each once. */
  ghost predicate Differing(
    changes: seq<(string, Value)>, wanted: map<string, Value>, present: map<string, Value>, left: set<string>)
  {
    && (forall s, v :: (s, v) in changes <==> s in wanted && s !in left && wanted[s] == v && !(s in present && present[s] == v))
    && (forall i, j :: 0 <= i < j < |changes| ==> changes[i].0 != changes[j].0)
  }

  lemma {:induction false} NoneDiffering(wanted: map<string, Value>, present: map<string, Value>)
    ensures Differing([], wanted, present, wanted.Keys)
  {}

  lemma {:induction false} NextDiffering(
    changes: seq<(string, Value)>, wanted: map<string, Value>, present: map<string, Value>, left: set<string>, path: string)
    requires Differing(changes, wanted, present, left) && path in left && path in wanted
    ensures
      var same := path in present && present[path] == wanted[path];
      Differing(if same then changes else changes + [(path, wanted[path])], wanted, present, left - {path})
  {
    forall i | 0 <= i < |changes| ensures changes[i].0 !in left {
      assert (changes[i].0, changes[i].1) in changes;
    }
  }

  lemma {:induction false} AllDiffering(changes: seq<(string, Value)>, wanted: map<string, Value>, present: map<string, Value>)
    requires Differing(changes, wanted, present, {})
    ensures forall s, v :: (s, v) in changes <==> s in wanted && wanted[s] == v && !(s in present && present[s] == v)
    ensures forall i, j :: 0 <= i < j < |changes| ==> changes[i].0 != changes[j].0
  {}

  /** `changes`: of any two trees, the flattened leaves that differ; with clean keys, exactly the leaves that do. */
  method Changes(source: Value, target: Value)
    returns (changes: seq<(string, Value)>, ghost from: map<string, Value>, ghost to: map<string, Value>)
    ensures Flattens(source, from) && Flattens(target, to)
    ensures forall s, v :: (s, v) in changes <==> s in from && from[s] == v && !(s in to && to[s] == v)
    ensures forall i, j :: 0 <= i < j < |changes| ==> changes[i].0 != changes[j].0
    ensures Clean(source) && Clean(target) ==> IsChanges(source, target, changes)
  {
    hide IsFlattening, Flattens, LeafAt, Clean, Differing;
    var wanted := Flatten(source);
    var present := Flatten(target);
    from, to := wanted, present;
    changes := [];
    var left := wanted.Keys;
    NoneDiffering(wanted, present);
    while left != {}
      invariant left <= wanted.Keys && Differing(changes, wanted, present, left)
      decreases |left|
    {
      SomeKey(left);
      var path :| path in left;
      NextDiffering(changes, wanted, present, left, path);
      left := left - {path};
      if !(path in present && present[path] == wanted[path]) {
        changes := changes + [(path, wanted[path])];
      }
    }
    AllDiffering(changes, wanted, present);
    if Clean(source) && Clean(target) {
      FlatIsLeafAt(source, wanted);
      FlatIsLeafAt(target, present);
    }
  }

  lemma {:induction false} DecidedKeeps(existing: map<string, Value>, selected: seq<(string, Value)>, s: string, v: Value)
    requires forall i :: 0 <= i < |selected| ==> if selected[i].0 == s then selected[i].1 == v else !Conflicts(selected[i].0, s)
    requires (s, v) in selected || (s in existing && existing[s] == v)
    ensures Decided(existing, selected, s) == Some(v)
  {
    hide Conflicts;
    if selected != [] && selected[|selected| - 1].0 != s {
      DecidedKeeps(existing, selected[..|selected| - 1], s, v);
    }
  }

  /** Promoting every change leaves nothing to change: the target then has every leaf of the source. */
  lemma {:induction false} PromotingAllChanges(
    source: Value, target: Value, existing: map<string, Value>, changes: seq<(string, Value)>, merged: map<string, Value>)
    requires IsFlattening(target, existing) && IsChanges(source, target, changes) && IsMerge(existing, changes, merged)
    ensures forall s :: LeafAt(source, s).Some? ==> s in merged && LeafAt(source, s) == Some(merged[s])
  {
    hide IsFlattening, IsAncestor, LeafAt;
    FlatIsLeafAt(target, existing);
    forall s | LeafAt(source, s).Some? ensures s in merged && LeafAt(source, s) == Some(merged[s]) {
      var v := LeafAt(source, s).value;
      forall i | 0 <= i < |changes|
        ensures if changes[i].0 == s then changes[i].1 == v else !Conflicts(changes[i].0, s)
      {
        assert (changes[i].0, changes[i].1) in changes;
        if changes[i].0 != s { LeavesNeverConflict(source, changes[i].0, s); }
      }
      DecidedKeeps(existing, changes, s, v);
    }
  }

  lemma {:induction false} LeavesNeverConflict(t: Value, a: string, b: string)
    requires LeafAt(t, a).Some? && LeafAt(t, b).Some? && a != b
    ensures !Conflicts(a, b)
  {
    hide IsAncestor;
    AncestorIsPrefix(a, b);
    AncestorIsPrefix(b, a);
    if Split(a) < Split(b) { LeafEnds(t, Split(a), Split(b)); }
    if Split(b) < Split(a) { LeafEnds(t, Split(b), Split(a)); }
  }

  lemma {:induction false} FlatteningUnique(t: Value, a: map<string, Value>, b: map<string, Value>)
    requires IsFlattening(t, a) && IsFlattening(t, b)
    ensures a == b
  {
    hide IsLeaf, At;
    assert forall s :: s in a <==> s in b;
    assert forall s :: s in a ==> Some(a[s]) == Some(b[s]);
  }

  lemma {:induction false} MergeUnique(
    existing: map<string, Value>, selected: seq<(string, Value)>, a: map<string, Value>, b: map<string, Value>)
    requires IsMerge(existing, selected, a) && IsMerge(existing, selected, b)
    ensures a == b
  {
    hide Decided;
    assert forall s :: s in a <==> s in b;
    assert forall s :: s in a ==> Some(a[s]) == Some(b[s]);
  }

  /**
   * A result of promoting: some flattening of the layer, merged, and nested if it is prefix-free. It panics
   * exactly when a merged path extends one whose value is not a mapping.
   */
  ghost predicate IsPromotion(layer: Value, selected: seq<(string, Value)>, root: Result<Value>) {
    exists existing, merged ::
      Flattens(layer, existing) && IsMerge(existing, selected, merged) && NestsTo(existing, selected, merged, root)
  }

  ghost predicate NestsTo(
    existing: map<string, Value>, selected: seq<(string, Value)>, merged: map<string, Value>, root: Result<Value>)
  {
    && (PrefixFree(existing) ==> root.Success? && IsNesting(merged, root.value))
    && (Sectionless(selected) ==> (root.Failure? <==> Blocked(merged)))
  }

  lemma {:induction false} MergeHasNoSections(
    existing: map<string, Value>, selected: seq<(string, Value)>, merged: map<string, Value>)
    requires IsMerge(existing, selected, merged) && NoSections(existing) && Sectionless(selected)
    ensures NoSections(merged)
  {
    forall s | s in merged ensures !Inner(merged[s]) {
      DecidedIsLeaf(existing, selected, s);
    }
  }

  lemma {:induction false} DecidedIsLeaf(existing: map<string, Value>, selected: seq<(string, Value)>, s: string)
    requires NoSections(existing) && Sectionless(selected)
    ensures Decided(existing, selected, s).Some? ==> !Inner(Decided(existing, selected, s).value)
  {
    hide Conflicts;
    if selected != [] { DecidedIsLeaf(existing, selected[..|selected| - 1], s); }
  }

  /** Loading the generated layer, merging a selection and nesting the result panics for no layer with clean keys. */
  method Promote(layer: Value, selected: seq<(string, Value)>) returns (root: Result<Value>)
    ensures IsPromotion(layer, selected, root)
    ensures Clean(layer) ==> root.Success?
    ensures Clean(layer) ==> forall existing, merged ::
              IsFlattening(layer, existing) && IsMerge(existing, selected, merged) ==> IsNesting(merged, root.value)
  {
    hide IsFlattening, IsMerge, IsNesting, PrefixFree, Flattens, Clean, NoSections, Sectionless, Blocked;
    var existing := Flatten(layer);
    var merged := Merge(existing, selected);
    root := Nest(merged);
    FlatHasNoSections(layer, existing);
    if Sectionless(selected) { MergeHasNoSections(existing, selected, merged); }
    assert NestsTo(existing, selected, merged, root);
    if Clean(layer) {
      FlatteningIsPrefixFree(layer, existing);
      forall flat, all | IsFlattening(layer, flat) && IsMerge(flat, selected, all) ensures IsNesting(all, root.value) {
        FlatteningUnique(layer, flat, existing);
        MergeUnique(existing, selected, all, merged);
      }
    }
  }

  /** A key with a dot next to the key it seems to extend: promoting anything onto such a layer panics. */
  lemma {:induction false} DottedLayerPanics(root: Result<Value>)
    requires IsPromotion(Mapping(map["a" := Leaf("1"), "a.b" := Leaf("2")]), [], root)
    ensures root.Failure?
  {
    hide Flattens, IsMerge, Blocked, PrefixFree, IsNesting;
    var layer := Mapping(map["a" := Leaf("1"), "a.b" := Leaf("2")]);
    var existing, merged :|
      Flattens(layer, existing) && IsMerge(existing, [], merged) && NestsTo(existing, [], merged, root);
    MergedNothing(existing, merged);
    DottedLeaves(layer, existing);
  }

  lemma {:induction false} MergedNothing(existing: map<string, Value>, merged: map<string, Value>)
    requires IsMerge(existing, [], merged)
    ensures merged == existing
  {
    assert forall s :: s in merged <==> s in existing;
  }

  lemma {:induction false} DottedLeaves(layer: Value, flat: map<string, Value>)
    requires layer == Mapping(map["a" := Leaf("1"), "a.b" := Leaf("2")]) && Flattens(layer, flat)
    ensures Blocked(flat)
  {
    hide Walked, Spelled;
    RootKey("a");
    RootKey("a.b");
    assert LeafFound(layer, "", ["a"], "a", Leaf("1")) && LeafFound(layer, "", ["a.b"], "a.b", Leaf("2"));
    assert Found(layer, "", "a", Leaf("1")) && Found(layer, "", "a.b", Leaf("2"));
    var q :| LeafFound(layer, "", q, "a", flat["a"]);
    SpelledNothing();
    NothingBelowLeaf(layer.entries[q[0]], q[1..]);
    assert IsAncestor("a", "a.b");
  }

  lemma {:induction false} NothingBelowLeaf(v: Value, p: Path)
    requires !v.Mapping? && At(v, p).Some?
    ensures At(v, p) == Some(v)
  {}

  lemma {:induction false} RootKey(k: string)
    requires k != "" && k != DERIVED
    ensures Walked("", [k]) && Spelled("", [k]) == k && [k][1..] == []
  {}

  /** Writing promoted leaves out and loading them again gives them back, exactly when all of them are loadable. */
  method Reload(leaves: map<string, Value>) returns (r: Result<map<string, Value>>)
    ensures PrefixFree(leaves) ==> r.Success?
    ensures PrefixFree(leaves) ==> (r.value == leaves <==> NoSections(leaves) && forall s :: s in leaves ==> Loadable(s))
  {
    hide PrefixFree, IsNesting, Flattens, Loadable, NoSections, Blocked;
    var root := Nest(leaves);
    if root.Failure? { return Failure(root.error); }
    var flat := Flatten(root.value);
    if PrefixFree(leaves) { FlattenAfterNest(leaves, root.value, flat); }
    r := Success(flat);
  }

  // ----------------------------------------------------- `--set` overrides

  /** Every override ends up at its path. */
  ghost predicate AllLand(overrides: seq<(string, Value)>) {
    && Placed(overrides).Some?
    && forall i :: 0 <= i < |overrides| ==> At(Mapping(Placed(overrides).value), Split(overrides[i].0)) == Some(overrides[i].1)
  }

  /** Each ancestor's own value already holds what the descendant sets. */
  ghost predicate Consistent(overrides: seq<(string, Value)>) {
    forall i, j :: 0 <= i < |overrides| && 0 <= j < |overrides| && Split(overrides[i].0) < Split(overrides[j].0) ==>
      At(overrides[i].1, Split(overrides[j].0)[|Split(overrides[i].0)|..]) == Some(overrides[j].1)
  }

  /** Leaves of the tree lie at or beneath paths that were set. */
  ghost predicate LeavesBeneath(root: map<string, Value>, overrides: seq<(string, Value)>) {
    forall p :: p != [] && IsLeaf(Mapping(root), p) ==> exists i :: 0 <= i < |overrides| && Split(overrides[i].0) <= p
  }

  ghost predicate Landed(root: map<string, Value>, overrides: seq<(string, Value)>) {
    forall i :: 0 <= i < |overrides| ==> At(Mapping(root), Split(overrides[i].0)) == Some(overrides[i].1)
  }

  /** Setting a path to what it already holds changes nothing. */
  lemma {:induction false} InsertSame(entries: map<string, Value>, p: Path, v: Value)
    requires p != [] && At(Mapping(entries), p) == Some(v)
    ensures Insert(entries, p, v) == Some(entries)
    decreases |p|
  {
    if |p| > 1 {
      var node := entries[p[0]];
      InsertSame(node.entries, p[1..], v);
      assert Mapping(node.entries) == node && entries[p[0] := node] == entries;
    } else {
      assert p[1..] == [];
      assert entries[p[0] := v] == entries;
    }
  }

  /** On the way to an existing node everything is a mapping. */
  lemma {:induction false} AncestorsAreMappings(t: Value, p: Path, i: nat)
    requires At(t, p).Some? && i < |p|
    ensures At(t, p[..i]).Some? && At(t, p[..i]).value.Mapping?
  {
    AtExtends(t, p[..i], p[i..]);
    assert p[..i] + p[i..] == p;
  }

  lemma {:induction false} Rest(t: Value, p: Path, q: Path)
    requires p <= q && At(t, p).Some?
    ensures At(t, q) == At(At(t, p).value, q[|p|..])
  {
    AtExtends(t, p, q[|p|..]);
    assert p + q[|p|..] == q;
  }

  /** One more override that is consistent with those before it finds its place and disturbs none of them. */
  lemma {:induction false} PlaceConsistent(root: map<string, Value>, before: seq<(string, Value)>, path: string, v: Value)
    requires Landed(root, before) && LeavesBeneath(root, before)
    requires Consistent(before + [(path, v)]) && forall i :: 0 <= i < |before| ==> before[i].0 != path
    ensures
      var next := Insert(root, Split(path), v);
      next.Some? && Landed(next.value, before + [(path, v)]) && LeavesBeneath(next.value, before + [(path, v)])
  {
    hide Insert;
    var p, all := Split(path), before + [(path, v)];
    assert all[|before|] == (path, v);
    forall i | 0 <= i < |before| && Split(before[i].0) < p ensures At(Mapping(root), p) == Some(v) {
      assert all[i] == before[i];
      Rest(Mapping(root), Split(before[i].0), p);
    }
    forall i | 1 <= i < |p| && At(Mapping(root), p[..i]).Some? ensures At(Mapping(root), p[..i]).value.Mapping? {
      if At(Mapping(root), p).Some? {
        AncestorsAreMappings(Mapping(root), p, i);
      } else {
        NoLeafAbove(root, before, p, i);
      }
    }
    InsertSucceeds(root, p, v);
    PlacedLands(root, before, path, v);
    PlacedLeaves(root, before, path, v);
  }

  lemma {:induction false} NoLeafAbove(root: map<string, Value>, before: seq<(string, Value)>, p: Path, i: nat)
    requires LeavesBeneath(root, before) && 1 <= i < |p|
    requires forall k :: 0 <= k < |before| ==> !(Split(before[k].0) < p)
    ensures !IsLeaf(Mapping(root), p[..i])
  {}

  lemma {:induction false} PlacedLands(root: map<string, Value>, before: seq<(string, Value)>, path: string, v: Value)
    requires Landed(root, before) && Consistent(before + [(path, v)])
    requires forall i :: 0 <= i < |before| ==> before[i].0 != path
    requires Insert(root, Split(path), v).Some?
    requires forall i :: 0 <= i < |before| && Split(before[i].0) < Split(path) ==> At(Mapping(root), Split(path)) == Some(v)
    ensures Landed(Insert(root, Split(path), v).value, before + [(path, v)])
  {
    hide Insert;
    var p, all, next := Split(path), before + [(path, v)], Insert(root, Split(path), v).value;
    forall i | 0 <= i < |all| ensures At(Mapping(next), Split(all[i].0)) == Some(all[i].1) {
      var q := Split(all[i].0);
      InsertAt(root, p, v, q);
      assert p[|p|..] == [];
      if i < |before| {
        assert all[i] == before[i] && all[|before|] == (path, v);
        JoinSplit(path);
        JoinSplit(before[i].0);
        assert q != p;
        if q < p { InsertSame(root, p, v); }
      }
    }
  }

  lemma {:induction false} PlacedLeaves(root: map<string, Value>, before: seq<(string, Value)>, path: string, v: Value)
    requires LeavesBeneath(root, before) && Insert(root, Split(path), v).Some?
    ensures LeavesBeneath(Insert(root, Split(path), v).value, before + [(path, v)])
  {
    hide Insert;
    var p, all, next := Split(path), before + [(path, v)], Insert(root, Split(path), v).value;
    forall q | q != [] && IsLeaf(Mapping(next), q) ensures exists i :: 0 <= i < |all| && Split(all[i].0) <= q {
      InsertAt(root, p, v, q);
      if p <= q {
        assert all[|before|].0 == path;
      } else {
        assert IsLeaf(Mapping(root), q) by { assert q <= p ==> q < p; }
        var i :| 0 <= i < |before| && Split(before[i].0) <= q;
        assert all[i] == before[i];
      }
    }
  }

  lemma {:induction false} ConsistentLand(overrides: seq<(string, Value)>)
    requires DistinctPaths(overrides) && Consistent(overrides)
    ensures Placed(overrides).Some?
    ensures Landed(Placed(overrides).value, overrides) && LeavesBeneath(Placed(overrides).value, overrides)
  {
    hide Insert, Split;
    if overrides != [] {
      var front, last := overrides[..|overrides| - 1], overrides[|overrides| - 1];
      assert overrides == front + [last];
      ConsistentLand(front);
      PlaceConsistent(Placed(front).value, front, last.0, last.1);
    } else {
      NothingLeft();
    }
  }

  lemma {:induction false} NothingLeft()
    ensures LeavesBeneath(map[], [])
  {
    forall p | IsLeaf(Mapping(map[]), p) ensures p == [] {}
  }

  /**
   * Overrides at distinct paths all take effect, in whatever order they are given, if and only if each
   * ancestor's own value already holds what its descendants set.
   */
  lemma {:induction false} OverridesLandExactly(overrides: seq<(string, Value)>)
    requires DistinctPaths(overrides)
    ensures AllLand(overrides) <==> Consistent(overrides)
  {
    hide Insert, Split, Placed, Consistent;
    if Consistent(overrides) {
      ConsistentLand(overrides);
    }
    if AllLand(overrides) {
      LandedIsConsistent(overrides, Mapping(Placed(overrides).value));
    }
  }

  lemma {:induction false} LandedIsConsistent(overrides: seq<(string, Value)>, root: Value)
    requires forall i :: 0 <= i < |overrides| ==> At(root, Split(overrides[i].0)) == Some(overrides[i].1)
    ensures Consistent(overrides)
  {
    hide Split;
    forall i, j | 0 <= i < |overrides| && 0 <= j < |overrides| && Split(overrides[i].0) < Split(overrides[j].0)
      ensures At(overrides[i].1, Split(overrides[j].0)[|Split(overrides[i].0)|..]) == Some(overrides[j].1)
    {
      Rest(root, Split(overrides[i].0), Split(overrides[j].0));
    }
  }

  /** With no non-empty mapping among the values, consistent means that no path is an ancestor of another. */
  lemma {:induction false} ConsistentIsPrefixFree(overrides: seq<(string, Value)>)
    requires DistinctPaths(overrides) && forall i :: 0 <= i < |overrides| ==> !Inner(overrides[i].1)
    ensures Consistent(overrides) <==> PrefixFree(AsMap(overrides))
  {
    hide Split, IsAncestor;
    forall i, j | 0 <= i < |overrides| && 0 <= j < |overrides|
      ensures IsAncestor(overrides[i].0, overrides[j].0) <==> Split(overrides[i].0) < Split(overrides[j].0)
      ensures Split(overrides[i].0) < Split(overrides[j].0) ==>
                At(overrides[i].1, Split(overrides[j].0)[|Split(overrides[i].0)|..]).None?
    {
      AncestorIsPrefix(overrides[i].0, overrides[j].0);
      var rest := if Split(overrides[i].0) < Split(overrides[j].0) then Split(overrides[j].0)[|Split(overrides[i].0)|..] else [];
      assert rest != [] ==> At(overrides[i].1, rest).None?;
    }
    forall i | 0 <= i < |overrides| ensures overrides[i].0 in AsMap(overrides) {
      AsMapIs(overrides, i);
    }
    if overrides != [] { AsMapIs(overrides, 0); }
  }

  /** `_nested`, in the given order: a conflict or the tree, and every override at its path exactly when they are consistent. */
  method NestOverrides(overrides: seq<(string, Value)>) returns (r: Result<Value>)
    requires DistinctPaths(overrides)
    ensures r.Success? <==> Placed(overrides).Some?
    ensures r.Success? ==> r.value == Mapping(Placed(overrides).value)
    ensures (r.Success? && forall i :: 0 <= i < |overrides| ==> At(r.value, Split(overrides[i].0)) == Some(overrides[i].1))
              <==> Consistent(overrides)
    ensures PrefixFree(AsMap(overrides)) ==> r.Success? && IsNesting(AsMap(overrides), r.value)
  {
    hide PrefixFree, IsNesting, Insert, Split, Consistent, Placed;
    OverridesLandExactly(overrides);
    if PrefixFree(AsMap(overrides)) { AnyOrderNests(overrides); }
    var root: map<string, Value> := map[];
    NothingPlaced();
    for i := 0 to |overrides|
      invariant Placed(overrides[..i]) == Some(root)
    {
      PlacedNext(overrides, i);
      var node := Insert(root, Split(overrides[i].0), overrides[i].1);
      if node.None? { return Failure("conflicting --set paths"); }
      root := node.value;
    }
    assert overrides[..|overrides|] == overrides;
    r := Success(Mapping(root));
  }

  /** Setting an ancestor forgets whatever was set beneath it. */
  lemma {:induction false} InsertOver(entries: map<string, Value>, p: Path, q: Path, v: Value, w: Value)
    requires p != [] && p <= q && Insert(entries, p, v).Some? && Insert(entries, q, w).Some?
    ensures Insert(Insert(entries, q, w).value, p, v) == Insert(entries, p, v)
    decreases |p|
  {
    hide Insert;
    if |p| > 1 {
      var k := p[0];
      assert q[0] == k;
      InsertDeep(entries, p, v);
      InsertDeep(entries, q, w);
      var node := if k in entries then entries[k] else Mapping(map[]);
      var below := Insert(node.entries, q[1..], w).value;
      InsertOver(node.entries, p[1..], q[1..], v, w);
      InsertDeep(entries[k := Mapping(below)], p, v);
      Overwrite(entries, k, Mapping(below), Mapping(Insert(below, p[1..], v).value));
    } else {
      InsertTouchesHead(entries, q, w, v);
      InsertFlat(entries, p, v);
      InsertFlat(Insert(entries, q, w).value, p, v);
    }
  }

  lemma {:induction false} Overwrite(entries: map<string, Value>, k: string, first: Value, second: Value)
    ensures entries[k := first][k := second] == entries[k := second]
  {}

  lemma {:induction false} InsertFlat(entries: map<string, Value>, p: Path, v: Value)
    requires |p| == 1
    ensures Insert(entries, p, v) == Some(entries[p[0] := v])
  {}

  lemma {:induction false} InsertDeep(entries: map<string, Value>, p: Path, v: Value)
    requires |p| > 1
    ensures
      var node := if p[0] in entries then entries[p[0]] else Mapping(map[]);
      Insert(entries, p, v) ==
        if node.Mapping? && Insert(node.entries, p[1..], v).Some?
        then Some(entries[p[0] := Mapping(Insert(node.entries, p[1..], v).value)]) else None
  {}

  lemma {:induction false} InsertTouchesHead(entries: map<string, Value>, q: Path, w: Value, v: Value)
    requires q != [] && Insert(entries, q, w).Some?
    ensures Insert(entries, q, w).value[q[0] := v] == entries[q[0] := v]
  {}

  /**
   * When one path is an ancestor of another the order decides, exactly: setting the ancestor last always
   * works and leaves its own value in charge, and setting it first works out the same if and only if
   * that value already holds what the descendant sets.
   */
  lemma {:induction false} OrderDecides(root: map<string, Value>, p: Path, q: Path, v: Value, w: Value)
    requires p != [] && p < q && Insert(root, p, v).Some? && Insert(root, q, w).Some?
    ensures Insert(Insert(root, q, w).value, p, v) == Insert(root, p, v)
    ensures At(Mapping(Insert(root, p, v).value), q) == At(v, q[|p|..])
    ensures Insert(Insert(root, p, v).value, q, w) == Insert(Insert(root, q, w).value, p, v) <==> At(v, q[|p|..]) == Some(w)
  {
    hide Insert;
    var first := Insert(root, p, v).value;
    InsertOver(root, p, q, v, w);
    InsertAt(root, p, v, q);
    if At(v, q[|p|..]) == Some(w) {
      InsertSame(first, q, w);
    } else if Insert(first, q, w).Some? {
      InsertAt(first, q, w, q);
      assert q[|q|..] == [];
    }
  }

  /** The pair `a` and `a.b`: in this order a conflict, in the other `a.b` is silently lost. */
  lemma {:induction false} OrderDecidesForAPair()
    ensures Placed([("a", Leaf("1")), ("a.b", Leaf("2"))]).None?
    ensures Placed([("a.b", Leaf("2")), ("a", Leaf("1"))]) == Some(map["a" := Leaf("1")])
    ensures !Consistent([("a", Leaf("1")), ("a.b", Leaf("2"))])
  {
    var p, q := ["a"], ["a", "b"];
    assert q[1..] == ["b"] && "a" + "." + "b" == "a.b";
    SplitJoin(p);
    SplitJoin(q);
    assert Join(p) == "a" && Join(q) == "a.b";
    var v, w := Leaf("1"), Leaf("2");
    var inOrder, swapped := [("a", v), ("a.b", w)], [("a.b", w), ("a", v)];
    assert inOrder[..1] == [("a", v)] && swapped[..1] == [("a.b", w)];
    assert Placed([]) == Some(map[]) && [("a", v)][..0] == [] && [("a.b", w)][..0] == [];
    assert Placed([("a", v)]) == Some(map["a" := v]);
    assert Insert(map[], ["b"], w) == Some(map["b" := w]);
    assert Placed([("a.b", w)]) == Some(map["a" := Mapping(map["b" := w])]);
    assert map["a" := Mapping(map["b" := w])]["a" := v] == map["a" := v];
    assert Split(inOrder[0].0) < Split(inOrder[1].0) && At(v, q[|p|..]).None?;
  }
}
