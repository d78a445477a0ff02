/** What layering guarantees: who wrote each leaf, and what merging a layer twice changes. */
module ConfigLaws {
  import opened Wrappers
  import opened ConfigTrees
  import opened ConfigMerge

  // ------------------------------------------------------------- one merge

  /** What is recorded at a prefix was taken from the layer. */
  lemma {:induction false} WritesAssigns(t: Option<Value>, o: Value, at: Path, rest: Path, i: nat)
    requires i <= |rest| && Writes(t, o, at, rest[..i])
    ensures Assigns(t, o, at, rest)
    decreases |rest|
  {
    if i > 0 {
      assert rest[..i][1..] == rest[1..][..i - 1];
      if !(Atomic(at) && o.Mapping?) && o.Mapping? && t.Some? && t.value.Mapping? {
        WritesAssigns(Child(t.value, rest[0]), o.entries[rest[0]], at + [rest[0]], rest[1..], i - 1);
      }
    }
  }

  /** A leaf taken from the layer has exactly one recorded prefix. */
  lemma {:induction false} AssignedLeafIsWritten(t: Option<Value>, o: Value, at: Path, rest: Path) returns (i: nat)
    requires Assigns(t, o, at, rest) && IsLeaf(Merge(t, o, at), rest)
    ensures i <= |rest| && Writes(t, o, at, rest[..i])
    decreases |rest|
  {
    if Atomic(at) && o.Mapping? {
      i := 0;
    } else if o.Mapping? && t.Some? && t.value.Mapping? {
      var j := AssignedLeafIsWritten(Child(t.value, rest[0]), o.entries[rest[0]], at + [rest[0]], rest[1..]);
      i := j + 1;
      assert rest[..i][1..] == rest[1..][..j];
    } else {
      i := |rest|;
      assert rest[..i] == rest;
    }
  }

  /** Recorded paths are never prefixes of each other. */
  lemma {:induction false} WritesPrefixFree(t: Option<Value>, o: Value, at: Path, p: Path, i: nat)
    requires i < |p| && Writes(t, o, at, p[..i]) && Writes(t, o, at, p)
    ensures false
    decreases |p|
  {
    if Atomic(at) && o.Mapping? {
    } else if o.Mapping? && t.Some? && t.value.Mapping? {
      assert p[..i][1..] == p[1..][..i - 1];
      WritesPrefixFree(Child(t.value, p[0]), o.entries[p[0]], at + [p[0]], p[1..], i - 1);
    } else {
      LeafHasNoChild(o, p, i);
    }
  }

  lemma {:induction false} LeafHasNoChild(v: Value, p: Path, i: nat)
    requires i < |p| && IsLeaf(v, p[..i])
    ensures At(v, p).None?
  {
    AtExtends(v, p[..i], p[i..]);
    assert p[..i] + p[i..] == p;
  }

  /** A merged value is the layer's where it assigns, and what was there before where it does not. */
  lemma {:induction false} MergedValue(t: Option<Value>, o: Value, at: Path, rest: Path)
    ensures Assigns(t, o, at, rest) ==> At(Merge(t, o, at), rest) == At(o, rest)
    ensures !Assigns(t, o, at, rest) ==> t.Some?
    ensures !Assigns(t, o, at, rest) && IsLeaf(Merge(t, o, at), rest) ==> At(Merge(t, o, at), rest) == At(t.value, rest)
    decreases |rest|
  {
    if rest != [] && !(Atomic(at) && o.Mapping?) && o.Mapping? && t.Some? && t.value.Mapping? && rest[0] in o.entries {
      MergedValue(Child(t.value, rest[0]), o.entries[rest[0]], at + [rest[0]], rest[1..]);
    } else if rest == [] && o.Mapping? && t.Some? && t.value.Mapping? {
      if !Atomic(at) && !Inner(Merge(t, o, at)) {
        EmptyMerge(t.value.entries, o.entries, at);
      }
    }
  }

  lemma {:induction false} EmptyMerge(t: map<string, Value>, o: map<string, Value>, at: Path)
    requires !Atomic(at) && !Inner(Merge(Some(Mapping(t)), Mapping(o), at))
    ensures t == map[] && o == map[]
  {
    var m := Merge(Some(Mapping(t)), Mapping(o), at);
    assert forall k :: k in t || k in o ==> k in m.entries;
  }

  /** Where the merged tree holds data, the layer wrote it exactly if its own body holds data there. */
  lemma {:induction false} AssignsIsDefines(t: Option<Value>, o: Value, at: Path, rest: Path)
    requires IsDatum(Merge(t, o, at), rest)
    ensures Assigns(t, o, at, rest) <==> IsDatum(o, rest)
    decreases |rest|
  {
    if !(Atomic(at) && o.Mapping?) && o.Mapping? && t.Some? && t.value.Mapping? && rest != [] && rest[0] in o.entries {
      AssignsIsDefines(Child(t.value, rest[0]), o.entries[rest[0]], at + [rest[0]], rest[1..]);
    }
  }

  /** Everything recorded is a node of the tree. */
  ghost predicate RecordedNodes(t: Value, prov: Provenance) {
    forall q :: q in prov ==> At(t, q).Some?
  }

  lemma {:induction false} WrittenIsNode(t: Option<Value>, o: Value, at: Path, rest: Path)
    requires Writes(t, o, at, rest)
    ensures At(Merge(t, o, at), rest).Some?
    decreases |rest|
  {
    if !(Atomic(at) && o.Mapping?) && o.Mapping? && t.Some? && t.value.Mapping? {
      WrittenIsNode(Child(t.value, rest[0]), o.entries[rest[0]], at + [rest[0]], rest[1..]);
    }
  }

  /** A node vanishes only beneath something recorded. */
  lemma {:induction false} NodeStays(t: Option<Value>, o: Value, at: Path, rest: Path)
    requires t.Some? && At(t.value, rest).Some?
    requires forall i :: 0 <= i <= |rest| ==> !Writes(t, o, at, rest[..i])
    ensures At(Merge(t, o, at), rest).Some?
    decreases |rest|
  {
    assert rest[..0] == [];
    assert !Writes(t, o, at, rest[..0]);
    if rest != [] && !(Atomic(at) && o.Mapping?) && o.Mapping? && t.value.Mapping? && rest[0] in o.entries {
      forall i | 0 <= i <= |rest[1..]|
        ensures !Writes(Child(t.value, rest[0]), o.entries[rest[0]], at + [rest[0]], rest[1..][..i])
      {
        assert rest[..i + 1][1..] == rest[1..][..i];
        assert !Writes(t, o, at, rest[..i + 1]);
      }
      NodeStays(Child(t.value, rest[0]), o.entries[rest[0]], at + [rest[0]], rest[1..]);
    }
  }

  /** Touching at the root is writing. */
  lemma {:induction false} TouchedAtRoot(t: Option<Value>, o: Value)
    ensures forall q :: Touched(t, o, [])(q) <==> Writes(t, o, [], q)
  {
    forall q ensures Touched(t, o, [])(q) <==> Writes(t, o, [], q) {
      assert q[0..] == q;
    }
  }

  lemma {:induction false} NodesStayRecorded(t: Value, o: Value, prov: Provenance, prov': Provenance, source: string)
    requires RecordedNodes(t, prov) && Updated(prov, prov', Touched(Some(t), o, []), source)
    ensures RecordedNodes(Merge(Some(t), o, []), prov')
  {
    TouchedAtRoot(Some(t), o);
    forall q | q in prov' ensures At(Merge(Some(t), o, []), q).Some? {
      if Writes(Some(t), o, [], q) {
        WrittenIsNode(Some(t), o, [], q);
      } else {
        assert !Below(Touched(Some(t), o, []), q);
        forall i | 0 <= i <= |q| ensures !Writes(Some(t), o, [], q[..i]) {
          assert q[..|q|] == q;
          if i < |q| { assert !Touched(Some(t), o, [])(q[..i]); }
        }
        NodeStays(Some(t), o, [], q);
      }
    }
  }

  /** With no recorded prefix longer than `i`, the source is whatever the prefix of length `i` names. */
  lemma {:induction false} SourceAt(prov: Provenance, p: Path, i: nat)
    requires i <= |p| && p[..i] in prov
    requires forall j :: i < j <= |p| ==> p[..j] !in prov
    ensures Source(prov, p) == Some(prov[p[..i]])
    decreases |p|
  {
    assert p[..|p|] == p;
    if i < |p| {
      var front := p[..|p| - 1];
      assert front[..i] == p[..i];
      forall j | i < j <= |front| ensures front[..j] !in prov {
        assert front[..j] == p[..j];
      }
      SourceAt(prov, front, i);
    }
  }

  /** The source depends only on the recorded prefixes. */
  lemma {:induction false} SourceSame(a: Provenance, b: Provenance, p: Path)
    requires forall j :: 0 <= j <= |p| ==> (p[..j] in a <==> p[..j] in b) && (p[..j] in a ==> a[p[..j]] == b[p[..j]])
    ensures Source(a, p) == Source(b, p)
    decreases |p|
  {
    assert p[..|p|] == p;
    assert p[..|p|] in a <==> p[..|p|] in b;
    if p != [] {
      var front := p[..|p| - 1];
      forall j | 0 <= j <= |front|
        ensures (front[..j] in a <==> front[..j] in b) && (front[..j] in a ==> a[front[..j]] == b[front[..j]])
      {
        assert front[..j] == p[..j];
      }
      SourceSame(a, b, front);
    }
  }

  /** After one merge, the longest recorded prefix of each leaf names the layer if it wrote the leaf, else as before. */
  lemma {:induction false} SourceAfterMerge(t: Value, o: Value, prov: Provenance, prov': Provenance, source: string, p: Path)
    requires Updated(prov, prov', Touched(Some(t), o, []), source)
    requires IsLeaf(Merge(Some(t), o, []), p)
    ensures Source(prov', p) == if Assigns(Some(t), o, [], p) then Some(source) else Source(prov, p)
  {
    hide Merge, IsLeaf, Assigns, Writes;
    TouchedAtRoot(Some(t), o);
    if Assigns(Some(t), o, [], p) {
      var i := AssignedLeafIsWritten(Some(t), o, [], p);
      assert Touched(Some(t), o, [])(p[..i]);
      forall j | i < j <= |p| ensures p[..j] !in prov' {
        assert p[..j][..i] == p[..i];
        if Writes(Some(t), o, [], p[..j]) {
          WritesPrefixFree(Some(t), o, [], p[..j], i);
        }
        assert Below(Touched(Some(t), o, []), p[..j]);
      }
      SourceAt(prov', p, i);
    } else {
      forall j | 0 <= j <= |p|
        ensures (p[..j] in prov' <==> p[..j] in prov) && (p[..j] in prov' ==> prov'[p[..j]] == prov[p[..j]])
      {
        Untouched(t, o, p, j);
      }
      SourceSame(prov', prov, p);
    }
  }

  lemma {:induction false} Untouched(t: Value, o: Value, p: Path, j: nat)
    requires !Assigns(Some(t), o, [], p) && j <= |p|
    ensures !Touched(Some(t), o, [])(p[..j]) && !Below(Touched(Some(t), o, []), p[..j])
  {
    TouchedAtRoot(Some(t), o);
    forall i | 0 <= i <= j ensures !Writes(Some(t), o, [], p[..i]) {
      if Writes(Some(t), o, [], p[..i]) {
        WritesAssigns(Some(t), o, [], p, i);
      }
    }
    forall i | 0 <= i < j ensures !Touched(Some(t), o, [])(p[..j][..i]) {
      assert p[..j][..i] == p[..i];
    }
  }

  // ------------------------------------------------------------ all layers

  datatype Layer = Layer(source: string, body: map<string, Value>)

  /** The tree after merging the layers in order. */
  function Tree(layers: seq<Layer>): (t: Value)
    ensures t.Mapping?
  {
    if layers == [] then Mapping(map[]) else
      Merge(Some(Tree(layers[..|layers| - 1])), Mapping(layers[|layers| - 1].body), [])
  }

  /** `provs[i]` is the provenance map after `i` layers. */
  ghost predicate Resolution(layers: seq<Layer>, provs: seq<Provenance>) {
    && |provs| == |layers| + 1 && provs[0] == map[]
    && forall i :: 0 <= i < |layers| ==>
         Updated(provs[i], provs[i + 1], Touched(Some(Tree(layers[..i])), Mapping(layers[i].body), []), layers[i].source)
  }

  /** The last layer whose merge wrote the value at a path. */
  function Writer(layers: seq<Layer>, p: Path): Option<string> {
    if layers == [] then None else
      var front, last := layers[..|layers| - 1], layers[|layers| - 1];
      if Assigns(Some(Tree(front)), Mapping(last.body), [], p) then Some(last.source) else Writer(front, p)
  }

  lemma {:induction false} ResolutionFront(layers: seq<Layer>, provs: seq<Provenance>)
    requires Resolution(layers, provs) && layers != []
    ensures Resolution(layers[..|layers| - 1], provs[..|layers|])
  {
    var front := layers[..|layers| - 1];
    forall i | 0 <= i < |front|
      ensures Updated(provs[i], provs[i + 1], Touched(Some(Tree(front[..i])), Mapping(front[i].body), []), front[i].source)
    {
      assert front[..i] == layers[..i];
    }
  }

  /** Provenance after any number of layers: for every leaf, the longest recorded prefix names the last writer. */
  lemma {:induction false} SourceIsLastWriter(layers: seq<Layer>, provs: seq<Provenance>, p: Path)
    requires Resolution(layers, provs) && IsLeaf(Tree(layers), p)
    ensures Source(provs[|layers|], p) == Writer(layers, p)
    ensures p != [] ==> Writer(layers, p).Some?
  {
    hide Merge, Assigns, Updated, IsLeaf;
    if layers == [] {
      NoSource(p);
      assert p == [] by { RootOnly(p); }
    } else {
      var front, last := layers[..|layers| - 1], layers[|layers| - 1];
      var o := Mapping(last.body);
      SourceAfterMerge(Tree(front), o, provs[|front|], provs[|layers|], last.source, p);
      if !Assigns(Some(Tree(front)), o, [], p) {
        MergedValue(Some(Tree(front)), o, [], p);
        SameLeaf(Tree(front), Tree(layers), p);
        ResolutionFront(layers, provs);
        SourceIsLastWriter(front, provs[..|layers|], p);
      }
    }
  }

  /** After any resolution every recorded path is a node of the tree. */
  lemma {:induction false} RecordedPathsExist(layers: seq<Layer>, provs: seq<Provenance>)
    requires Resolution(layers, provs)
    ensures RecordedNodes(Tree(layers), provs[|layers|])
  {
    hide Merge, Updated, Touched;
    if layers != [] {
      var front, last := layers[..|layers| - 1], layers[|layers| - 1];
      ResolutionFront(layers, provs);
      RecordedPathsExist(front, provs[..|layers|]);
      NodesStayRecorded(Tree(front), Mapping(last.body), provs[|front|], provs[|layers|], last.source);
    }
  }

  lemma {:induction false} NoSource(p: Path)
    ensures Source(map[], p).None?
    decreases |p|
  {
    if p != [] { NoSource(p[..|p| - 1]); }
  }

  lemma {:induction false} RootOnly(p: Path)
    requires IsLeaf(Mapping(map[]), p)
    ensures p == []
  {}

  lemma {:induction false} SameLeaf(a: Value, b: Value, p: Path)
    requires IsLeaf(b, p) && At(a, p) == At(b, p)
    ensures IsLeaf(a, p)
  {}

  /**
   * The same said of the layers alone: data in the resolved tree comes, value and attribution, from
   * the last layer whose own body holds data at that path.
   */
  lemma {:induction false} LastDefinerWins(layers: seq<Layer>, provs: seq<Provenance>, p: Path) returns (i: nat)
    requires Resolution(layers, provs) && IsDatum(Tree(layers), p)
    ensures i < |layers| && Source(provs[|layers|], p) == Some(layers[i].source)
    ensures IsDatum(Mapping(layers[i].body), p) && At(Tree(layers), p) == At(Mapping(layers[i].body), p)
    ensures forall j :: i < j < |layers| ==> !IsDatum(Mapping(layers[j].body), p)
  {
    hide Merge, Assigns, Updated;
    SourceIsLastWriter(layers, provs, p);
    i := LastDefiner(layers, p);
  }

  lemma {:induction false} LastDefiner(layers: seq<Layer>, p: Path) returns (i: nat)
    requires IsDatum(Tree(layers), p)
    ensures i < |layers| && Writer(layers, p) == Some(layers[i].source)
    ensures IsDatum(Mapping(layers[i].body), p) && At(Tree(layers), p) == At(Mapping(layers[i].body), p)
    ensures forall j :: i < j < |layers| ==> !IsDatum(Mapping(layers[j].body), p)
  {
    hide Merge, Assigns;
    assert layers != [] by { NoDatum(p); }
    var front, last := layers[..|layers| - 1], layers[|layers| - 1];
    var t, o := Some(Tree(front)), Mapping(last.body);
    AssignsIsDefines(t, o, [], p);
    MergedValue(t, o, [], p);
    if Assigns(t, o, [], p) {
      i := |layers| - 1;
    } else {
      i := LastDefiner(front, p);
      assert forall j :: 0 <= j < |front| ==> front[j] == layers[j];
    }
  }

  lemma {:induction false} NoDatum(p: Path)
    ensures !IsDatum(Mapping(map[]), p)
  {}

  // ------------------------------------------------------------ same twice

  lemma {:induction false} MergeSelf(o: Value, at: Path)
    ensures Merge(Some(o), o, at) == o
    decreases o
  {
    if !Atomic(at) && o.Mapping? {
      forall k | k in o.entries ensures Merge(Child(o, k), o.entries[k], at + [k]) == o.entries[k] {
        MergeSelf(o.entries[k], at + [k]);
      }
    }
  }

  /** Merging the same layer again leaves the tree as it was. */
  lemma {:induction false} TreeTwice(t: Option<Value>, o: Value, at: Path)
    ensures Merge(Some(Merge(t, o, at)), o, at) == Merge(t, o, at)
    decreases o
  {
    if o.Mapping? && !Atomic(at) {
      if t.Some? && t.value.Mapping? {
        var m := Merge(t, o, at);
        forall k | k in o.entries ensures Merge(Child(m, k), o.entries[k], at + [k]) == m.entries[k] {
          TreeTwice(Child(t.value, k), o.entries[k], at + [k]);
        }
        assert Merge(Some(m), o, at).entries == m.entries;
      } else {
        MergeSelf(o, at);
      }
    }
  }

  lemma {:induction false} AssignsAgain(t: Option<Value>, o: Value, at: Path, rest: Path)
    requires Assigns(Some(Merge(t, o, at)), o, at, rest)
    ensures Assigns(t, o, at, rest)
    decreases |rest|
  {
    if o.Mapping? && !Atomic(at) && t.Some? && t.value.Mapping? {
      AssignsAgain(Child(t.value, rest[0]), o.entries[rest[0]], at + [rest[0]], rest[1..]);
    }
  }

  /** Merging the same layer again leaves what every leaf is attributed to as it was. */
  lemma {:induction false} SourcesTwice(
    t: Value, o: Value, prov: Provenance, once: Provenance, twice: Provenance, source: string, p: Path)
    requires Updated(prov, once, Touched(Some(t), o, []), source)
    requires Updated(once, twice, Touched(Some(Merge(Some(t), o, [])), o, []), source)
    requires IsLeaf(Merge(Some(t), o, []), p)
    ensures Source(twice, p) == Source(once, p)
  {
    hide Merge, IsLeaf, Assigns, Updated;
    TreeTwice(Some(t), o, []);
    SourceAfterMerge(t, o, prov, once, source, p);
    SourceAfterMerge(Merge(Some(t), o, []), o, once, twice, source, p);
    if Assigns(Some(Merge(Some(t), o, [])), o, [], p) {
      AssignsAgain(Some(t), o, [], p);
    }
  }

  // ------------------------------------------- same twice, the map itself

  /** A non-empty atomic mapping of the layer at or beneath `at`. */
  ghost predicate AtomicInside(o: Value, at: Path, a: Path) {
    Atomic(a) && at <= a && At(o, a[|at|..]).Some? && Inner(At(o, a[|at|..]).value)
  }

  /** Such a mapping reaches its place through mappings that were there before. */
  ghost predicate Met(t: Option<Value>, at: Path, a: Path)
    requires at <= a
  {
    forall i :: |at| <= i < |a| ==> MetAt(t, at, a, i)
  }

  ghost predicate MetAt(t: Option<Value>, at: Path, a: Path, i: nat)
    requires at <= a && |at| <= i < |a|
  {
    t.Some? && IsMapping(t.value, a[|at|..i])
  }

  lemma {:induction false} SelfWrites(o: Value, at: Path, rest: Path)
    requires Writes(Some(o), o, at, rest) && forall a :: !AtomicInside(o, at, a)
    ensures IsLeaf(o, rest)
    decreases |rest|
  {
    if Atomic(at) && o.Mapping? {
      assert at[|at|..] == [];
      assert !AtomicInside(o, at, at);
    } else if o.Mapping? {
      NoAtomicBelow(o, at, rest[0]);
      SelfWrites(o.entries[rest[0]], at + [rest[0]], rest[1..]);
    }
  }

  lemma {:induction false} NoAtomicBelow(o: Value, at: Path, k: string)
    requires o.Mapping? && k in o.entries && forall a :: !AtomicInside(o, at, a)
    ensures forall a :: !AtomicInside(o.entries[k], at + [k], a)
  {
    forall a ensures !AtomicInside(o.entries[k], at + [k], a) {
      if at + [k] <= a {
        assert a[|at|..][1..] == a[|at + [k]|..] && a[|at|..][0] == k;
        assert !AtomicInside(o, at, a);
      }
    }
  }

  /** What the second merge records, the first recorded too, when atomic mappings enter through known mappings. */
  lemma {:induction false} WritesAgain(t: Option<Value>, o: Value, at: Path, rest: Path)
    requires Writes(Some(Merge(t, o, at)), o, at, rest)
    requires forall a :: AtomicInside(o, at, a) ==> Met(t, at, a)
    ensures Writes(t, o, at, rest)
    decreases |rest|
  {
    if o.Mapping? && !Atomic(at) {
      if t.Some? && t.value.Mapping? {
        MetBelow(t.value, o, at, rest[0]);
        WritesAgain(Child(t.value, rest[0]), o.entries[rest[0]], at + [rest[0]], rest[1..]);
      } else {
        forall a ensures !AtomicInside(o, at, a) {
          if at < a {
            NotMet(t, at, a);
          }
        }
        SelfWrites(o, at, rest);
      }
    }
  }

  lemma {:induction false} NotMet(t: Option<Value>, at: Path, a: Path)
    requires at < a && (t.None? || !t.value.Mapping?)
    ensures !Met(t, at, a)
  {
    assert a[|at|..|at|] == [];
    assert !MetAt(t, at, a, |at|);
  }

  lemma {:induction false} MetBelow(t: Value, o: Value, at: Path, k: string)
    requires t.Mapping? && o.Mapping? && k in o.entries
    requires forall a :: AtomicInside(o, at, a) ==> Met(Some(t), at, a)
    ensures forall a :: AtomicInside(o.entries[k], at + [k], a) ==> Met(Child(t, k), at + [k], a)
  {
    hide Met, At, Inner;
    forall a | AtomicInside(o.entries[k], at + [k], a) ensures Met(Child(t, k), at + [k], a) {
      InsideParent(o, at, k, a);
      MetParent(t, at, k, a);
    }
  }

  lemma {:induction false} InsideParent(o: Value, at: Path, k: string, a: Path)
    requires o.Mapping? && k in o.entries && AtomicInside(o.entries[k], at + [k], a)
    ensures at + [k] <= a && at <= a && AtomicInside(o, at, a)
  {
    assert a[|at|..][1..] == a[|at + [k]|..] && a[|at|..][0] == k;
  }

  lemma {:induction false} MetParent(t: Value, at: Path, k: string, a: Path)
    requires t.Mapping? && at + [k] <= a && at <= a && Met(Some(t), at, a)
    ensures Met(Child(t, k), at + [k], a)
  {
    hide IsMapping;
    forall i | |at + [k]| <= i < |a| ensures MetAt(Child(t, k), at + [k], a, i) {
      var p := a[|at|..i];
      assert p[1..] == a[|at + [k]|..i] && p[0] == k;
      assert MetAt(Some(t), at, a, i);
      StepDown(t, p);
    }
  }

  lemma {:induction false} StepDown(t: Value, p: Path)
    requires t.Mapping? && p != [] && IsMapping(t, p)
    ensures Child(t, p[0]).Some? && IsMapping(Child(t, p[0]).value, p[1..])
  {}

  /** Every non-empty mapping has a leaf strictly beneath it. */
  lemma {:induction false} SomeLeaf(v: Value) returns (p: Path)
    requires Inner(v)
    ensures p != [] && IsLeaf(v, p)
    decreases v
  {
    SomeKey(v.entries.Keys);
    var k :| k in v.entries.Keys;
    if Inner(v.entries[k]) {
      var q := SomeLeaf(v.entries[k]);
      p := [k] + q;
      assert p[1..] == q;
    } else {
      p := [k];
    }
  }

  /** An atomic mapping that entered inside a new section is recorded leaf by leaf, then, merged again, as one. */
  lemma {:induction false} EnteredFresh(t: Value, o: Value, a: Path) returns (q: Path)
    requires t.Mapping? && o.Mapping? && Atomic(a) && AtomicInside(o, [], a) && !IsMapping(t, a[..1])
    ensures a < q && Writes(Some(t), o, [], q)
    ensures Writes(Some(Merge(Some(t), o, [])), o, [], a)
  {
    assert a[0..] == a;
    var r := SomeLeaf(At(o, a).value);
    q := a + r;
    AtExtends(o, a, r);
    var k := a[0];
    assert a[..1] == [k] && [k][1..] == [];
    var c := Child(t, k);
    assert c.None? || !c.value.Mapping? by { assert c.Some? ==> At(t, [k]) == At(c.value, [k][1..]); }
    assert q[1..] == a[1..] + r;
    assert Merge(c, o.entries[k], [k]) == o.entries[k];
  }

  /**
   * The raw map is unchanged by a second merge of the same layer if and only if every non-empty atomic
   * mapping of the layer sits in a section that was already a mapping before the first merge.
   */
  lemma {:induction false} RawMapTwice(
    t: Value, o: Value, prov: Provenance, once: Provenance, twice: Provenance, source: string)
    requires t.Mapping? && o.Mapping?
    requires Updated(prov, once, Touched(Some(t), o, []), source)
    requires Updated(once, twice, Touched(Some(Merge(Some(t), o, [])), o, []), source)
    ensures once == twice <==> forall a :: AtomicInside(o, [], a) ==> IsMapping(t, a[..1])
  {
    hide Merge, IsLeaf, Inner, At, Writes, IsMapping;
    var m := Merge(Some(t), o, []);
    TouchedAtRoot(Some(t), o);
    TouchedAtRoot(Some(m), o);
    if forall a :: AtomicInside(o, [], a) ==> IsMapping(t, a[..1]) {
      forall a | AtomicInside(o, [], a) ensures Met(Some(t), [], a) {
        AllMet(t, o, a);
      }
      forall q | Writes(Some(m), o, [], q) ensures Writes(Some(t), o, [], q) {
        WritesAgain(Some(t), o, [], q);
      }
      UnchangedMap(t, o, m, prov, once, twice, source);
    } else {
      var a :| AtomicInside(o, [], a) && !IsMapping(t, a[..1]);
      var q := EnteredFresh(t, o, a);
      assert q[..|a|] == a;
      assert Touched(Some(t), o, [])(q);
      assert Touched(Some(m), o, [])(q[..|a|]);
      if Writes(Some(m), o, [], q) {
        WritesPrefixFree(Some(m), o, [], q, |a|);
      }
      assert q in once && q !in twice;
    }
  }

  lemma {:induction false} AllMet(t: Value, o: Value, a: Path)
    requires t.Mapping? && AtomicInside(o, [], a) && IsMapping(t, a[..1])
    ensures Met(Some(t), [], a)
  {
    forall i | 0 <= i < |a| ensures MetAt(Some(t), [], a, i) {
      if i == 0 { assert a[0..0] == []; } else { assert a[0..i] == a[..1]; }
    }
  }

  lemma {:induction false} UnchangedMap(
    t: Value, o: Value, m: Value, prov: Provenance, once: Provenance, twice: Provenance, source: string)
    requires Updated(prov, once, Touched(Some(t), o, []), source)
    requires Updated(once, twice, Touched(Some(m), o, []), source)
    requires forall q :: Writes(Some(m), o, [], q) ==> Writes(Some(t), o, [], q)
    ensures once == twice
  {
    hide Writes;
    TouchedAtRoot(Some(t), o);
    TouchedAtRoot(Some(m), o);
    forall q | q in once ensures !Below(Touched(Some(m), o, []), q) {
      if Below(Touched(Some(m), o, []), q) {
        var i :| 0 <= i < |q| && Touched(Some(m), o, [])(q[..i]);
        assert Touched(Some(t), o, [])(q[..i]);
        assert Below(Touched(Some(t), o, []), q);
        WritesPrefixFree(Some(t), o, [], q, i);
      }
    }
  }

  lemma {:induction false} TargetIsAtomic(o: Value)
    requires o == Mapping(map["model" := Mapping(map["target" := Mapping(map["horizon" := Leaf("5")])])])
    ensures AtomicInside(o, [], ["model", "target"]) && !IsMapping(Mapping(map[]), ["model", "target"][..1])
  {
    var target := Mapping(map["horizon" := Leaf("5")]);
    var section := Mapping(map["target" := target]);
    var a := ["model", "target"];
    assert At(o, a) == Some(target) by {
      assert At(target, a[1..][1..]) == Some(target);
      assert At(section, a[1..]) == At(section.entries["target"], a[1..][1..]);
    }
    assert a[0..] == a && Inner(target) by { assert "horizon" in target.entries; }
  }

  /** Merging a first layer that defines an atomic mapping, twice: the tree stays, the raw map does not. */
  lemma {:induction false} BaseTwiceRewritesItsMap(once: Provenance, twice: Provenance)
    requires
      var o := Mapping(map["model" := Mapping(map["target" := Mapping(map["horizon" := Leaf("5")])])]);
      && Updated(map[], once, Touched(Some(Mapping(map[])), o, []), "base.yaml")
      && Updated(once, twice, Touched(Some(Merge(Some(Mapping(map[])), o, [])), o, []), "base.yaml")
    ensures once != twice
  {
    hide Merge, Touched, Updated, AtomicInside, IsMapping;
    var o := Mapping(map["model" := Mapping(map["target" := Mapping(map["horizon" := Leaf("5")])])]);
    TargetIsAtomic(o);
    RawMapTwice(Mapping(map[]), o, map[], once, twice, "base.yaml");
  }

  // ---------------------------------------------------------------- keys

  /** Every path of the tree is one the base allows. */
  ghost predicate OnlyAllowed(v: Value, base: Value) {
    forall q :: At(v, q).Some? ==> IsAllowed(base, q)
  }

  lemma {:induction false} NodesMerge(t: Option<Value>, o: Value, at: Path, rest: Path)
    ensures At(o, rest).Some? ==> At(Merge(t, o, at), rest).Some?
    ensures At(Merge(t, o, at), rest).Some? ==> At(o, rest).Some? || (t.Some? && At(t.value, rest).Some?)
    decreases |rest|
  {
    if rest != [] && !(Atomic(at) && o.Mapping?) && o.Mapping? && t.Some? && t.value.Mapping? && rest[0] in o.entries {
      NodesMerge(Child(t.value, rest[0]), o.entries[rest[0]], at + [rest[0]], rest[1..]);
    }
  }

  /** A layer keeps the tree within the base's keys exactly when its own body does. */
  lemma {:induction false} KeysStayAllowed(t: Value, o: Value, base: Value)
    requires OnlyAllowed(t, base)
    ensures OnlyAllowed(Merge(Some(t), o, []), base) <==> OnlyAllowed(o, base)
  {
    hide Merge, IsAllowed;
    forall q ensures (At(o, q).Some? ==> At(Merge(Some(t), o, []), q).Some?) &&
                     (At(Merge(Some(t), o, []), q).Some? ==> At(o, q).Some? || At(t, q).Some?) {
      NodesMerge(Some(t), o, [], q);
    }
  }

  /** The merge's own check does not look inside a mapping that replaces a scalar. */
  lemma {:induction false} ScalarReplacedBySection()
    ensures
      var base := Mapping(map["a" := Leaf("1")]);
      var o := Mapping(map["a" := Mapping(map["b" := Leaf("2")])]);
      AllAllowed(Some(base), o, [], base) && !OnlyAllowed(Merge(Some(base), o, []), base)
  {
    var base := Mapping(map["a" := Leaf("1")]);
    var inner := Mapping(map["b" := Leaf("2")]);
    var o := Mapping(map["a" := inner]);
    assert [] + ["a"] == ["a"];
    assert IsAllowed(base, ["a"]) by { assert IsAllowed(Leaf("1"), ["a"][1..]); }
    assert AllAllowed(Child(base, "a"), inner, ["a"], base);
    var q := ["a", "b"];
    assert q[1..] == ["b"];
    assert !IsAllowed(base, q) by { assert !IsAllowed(Leaf("1"), q[1..]); }
    assert At(o, q).Some? by { assert At(inner, q[1..]).Some?; }
    NodesMerge(Some(base), o, [], q);
  }
}
