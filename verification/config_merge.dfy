/** The layer merge and its provenance map. */
module ConfigMerge {
  import opened Wrappers
  import opened ConfigTrees

  /** Mappings replaced wholesale on redefinition. */
  predicate Atomic(at: Path) {
    at == ["optimization", "search_space"] || at == ["model", "target"]
  }

  // ------------------------------------------------------- what it means

  /** The tree after merging a value onto what was there. */
  function Merge(t: Option<Value>, o: Value, at: Path): Value
    decreases o
  {
    if Atomic(at) && o.Mapping? then o
    else if o.Mapping? && t.Some? && t.value.Mapping? then
      Mapping(map k | k in t.value.entries.Keys + o.entries.Keys ::
        if k in o.entries then Merge(Child(t.value, k), o.entries[k], at + [k]) else t.value.entries[k])
    else o
  }

  /** The merged value at this path was taken from the layer. */
  predicate Assigns(t: Option<Value>, o: Value, at: Path, rest: Path)
    decreases |rest|
  {
    if Atomic(at) && o.Mapping? then true
    else if o.Mapping? && t.Some? && t.value.Mapping? then
      rest != [] && rest[0] in o.entries && Assigns(Child(t.value, rest[0]), o.entries[rest[0]], at + [rest[0]], rest[1..])
    else true
  }

  /** The layer is recorded against exactly this path. */
  predicate Writes(t: Option<Value>, o: Value, at: Path, rest: Path)
    decreases |rest|
  {
    if Atomic(at) && o.Mapping? then rest == []
    else if o.Mapping? && t.Some? && t.value.Mapping? then
      rest != [] && rest[0] in o.entries && Writes(Child(t.value, rest[0]), o.entries[rest[0]], at + [rest[0]], rest[1..])
    else IsLeaf(o, rest)
  }

  type Provenance = map<Path, string>

  /** The longest recorded prefix of a path names its source. */
  function Source(prov: Provenance, p: Path): Option<string>
    decreases |p|
  {
    if p in prov then Some(prov[p]) else if p == [] then None else Source(prov, p[..|p| - 1])
  }

  ghost predicate Below(touched: Path -> bool, q: Path) {
    exists i :: 0 <= i < |q| && touched(q[..i])
  }

  /** Every touched path now names the source; everything beneath a touched path is gone; the rest stays. */
  ghost predicate Rewritten(prov: Provenance, prov': Provenance, touched: Path -> bool, source: string) {
    forall q :: q in prov' <==>
      touched(q) || (q in prov && !Below(touched, q))
  }

  ghost predicate Resourced(prov: Provenance, prov': Provenance, touched: Path -> bool, source: string) {
    forall q :: q in prov' ==> if touched(q) then prov'[q] == source else q in prov && prov'[q] == prov[q]
  }

  ghost predicate Updated(prov: Provenance, prov': Provenance, touched: Path -> bool, source: string) {
    Rewritten(prov, prov', touched, source) && Resourced(prov, prov', touched, source)
  }

  ghost function Touched(t: Option<Value>, o: Value, at: Path): Path -> bool {
    (q: Path) => at <= q && Writes(t, o, at, q[|at|..])
  }

  ghost function Leaves(v: Value, at: Path): Path -> bool {
    (q: Path) => at <= q && IsLeaf(v, q[|at|..])
  }

  ghost function LeavesOf(entries: map<string, Value>, at: Path): Path -> bool {
    (q: Path) => at < q && q[|at|] in entries && IsLeaf(entries[q[|at|]], q[|at| + 1..])
  }

  ghost function Only(at: Path): Path -> bool {
    (q: Path) => q == at
  }

  // ----------------------------------------------------------- rule check

  /** A path that exists in the base layer, or descends into a null or empty slot of it. */
  predicate IsAllowed(base: Value, p: Path)
    decreases |p|
  {
    p == [] || base == Null || base == Mapping(map[]) ||
    (base.Mapping? && p[0] in base.entries && IsAllowed(base.entries[p[0]], p[1..]))
  }

  /** Every key the merge looks at is allowed. */
  ghost predicate AllAllowed(t: Option<Value>, o: Value, at: Path, base: Value)
    decreases o
  {
    (!Atomic(at) && o.Mapping? && t.Some? && t.value.Mapping?) ==>
      forall k :: k in o.entries ==>
        IsAllowed(base, at + [k]) && AllAllowed(Child(t.value, k), o.entries[k], at + [k], base)
  }

  // ------------------------------------------------------------- updating

  /** Two updates in a row, the second never touching a prefix of what the first touched. */
  lemma {:induction false} UpdateTwice(
    prov: Provenance, mid: Provenance, prov': Provenance, f: Path -> bool, g: Path -> bool, h: Path -> bool, source: string)
    requires Updated(prov, mid, f, source) && Updated(mid, prov', g, source)
    requires forall q :: h(q) <==> f(q) || g(q)
    requires forall q :: f(q) ==> !Below(g, q)
    ensures Updated(prov, prov', h, source)
  {
    forall q ensures Below(h, q) <==> Below(f, q) || Below(g, q) {
      if Below(f, q) {
        var i :| 0 <= i < |q| && f(q[..i]);
        assert h(q[..i]);
      }
      if Below(g, q) {
        var i :| 0 <= i < |q| && g(q[..i]);
        assert h(q[..i]);
      }
    }
    hide Below;
    forall q ensures q in prov' <==> h(q) || (q in prov && !Below(h, q)) {
      assert q in mid <==> f(q) || (q in prov && !Below(f, q));
    }
  }

  lemma {:induction false} SameTouch(prov: Provenance, prov': Provenance, f: Path -> bool, g: Path -> bool, source: string)
    requires Updated(prov, prov', f, source) && forall q :: f(q) <==> g(q)
    ensures Updated(prov, prov', g, source)
  {
    forall q ensures Below(f, q) <==> Below(g, q) {
      if Below(f, q) {
        var i :| 0 <= i < |q| && f(q[..i]);
        assert g(q[..i]);
      }
      if Below(g, q) {
        var i :| 0 <= i < |q| && g(q[..i]);
        assert f(q[..i]);
      }
    }
  }

  lemma {:induction false} UpdateNothing(prov: Provenance, f: Path -> bool, source: string)
    requires forall q :: !f(q)
    ensures Updated(prov, prov, f, source)
  {
    forall q ensures !Below(f, q) {}
  }

  lemma {:induction false} LeavesAreChildren(v: Value, at: Path)
    requires Inner(v)
    ensures forall q :: LeavesOf(v.entries, at)(q) <==> Leaves(v, at)(q)
  {
    forall q ensures LeavesOf(v.entries, at)(q) <==> Leaves(v, at)(q) {
      if at < q {
        assert q[|at|..][1..] == q[|at| + 1..];
      }
    }
  }

  lemma {:induction false} ChildlessLeaf(v: Value, at: Path)
    requires !Inner(v)
    ensures forall q :: Only(at)(q) <==> Leaves(v, at)(q)
  {
    forall q ensures Only(at)(q) <==> Leaves(v, at)(q) {
      if at <= q && q != at {
        assert q[|at|..] != [];
      }
    }
  }

  /** Paths below different keys never touch each other. */
  lemma {:induction false} KeysApart(f: Path -> bool, g: Path -> bool, at: Path, key: string)
    requires forall q :: f(q) ==> at < q && q[|at|] != key
    requires forall q :: g(q) ==> at + [key] <= q
    ensures forall q :: f(q) ==> !Below(g, q)
  {}

  lemma {:induction false} RecordStep(
    prov: Provenance, mid: Provenance, prov': Provenance, done: map<string, Value>, key: string, v: Value, at: Path, source: string)
    requires key !in done
    requires Updated(prov, mid, LeavesOf(done, at), source) && Updated(mid, prov', Leaves(v, at + [key]), source)
    ensures Updated(prov, prov', LeavesOf(done[key := v], at), source)
  {
    hide Updated;
    KeysApart(LeavesOf(done, at), Leaves(v, at + [key]), at, key);
    forall q ensures LeavesOf(done[key := v], at)(q) <==> LeavesOf(done, at)(q) || Leaves(v, at + [key])(q) {
      if at < q && q[|at|] == key {
        assert at + [key] <= q;
        assert q[|at + [key]|..] == q[|at| + 1..];
      }
    }
    UpdateTwice(prov, mid, prov', LeavesOf(done, at), Leaves(v, at + [key]), LeavesOf(done[key := v], at), source);
  }

  // -------------------------------------------------------------- merging

  ghost function TouchedOf(target: map<string, Value>, done: map<string, Value>, at: Path): Path -> bool {
    (q: Path) => at < q && q[|at|] in done &&
      Writes(Child(Mapping(target), q[|at|]), done[q[|at|]], at + [q[|at|]], q[|at| + 1..])
  }

  lemma {:induction false} TouchedIsOf(target: map<string, Value>, overlay: map<string, Value>, at: Path)
    requires !Atomic(at)
    ensures forall q :: TouchedOf(target, overlay, at)(q) <==> Touched(Some(Mapping(target)), Mapping(overlay), at)(q)
  {
    forall q ensures TouchedOf(target, overlay, at)(q) <==> Touched(Some(Mapping(target)), Mapping(overlay), at)(q) {
      if at < q {
        assert q[|at|..][1..] == q[|at| + 1..] && q[|at|..][0] == q[|at|];
      } else if at <= q {
        assert q[|at|..] == [];
      }
    }
  }

  lemma {:induction false} MergeStep(
    prov: Provenance, mid: Provenance, prov': Provenance, target: map<string, Value>, done: map<string, Value>,
    key: string, v: Value, at: Path, source: string)
    requires key !in done
    requires Updated(prov, mid, TouchedOf(target, done, at), source)
    requires Updated(mid, prov', Touched(Child(Mapping(target), key), v, at + [key]), source)
    ensures Updated(prov, prov', TouchedOf(target, done[key := v], at), source)
  {
    hide Updated, Writes;
    var f, g := TouchedOf(target, done, at), Touched(Child(Mapping(target), key), v, at + [key]);
    KeysApart(f, g, at, key);
    forall q ensures TouchedOf(target, done[key := v], at)(q) <==> f(q) || g(q) {
      if at < q && q[|at|] == key {
        assert at + [key] <= q;
        assert q[|at + [key]|..] == q[|at| + 1..];
      }
    }
    UpdateTwice(prov, mid, prov', f, g, TouchedOf(target, done[key := v], at), source);
  }

  /** The target once these keys of a layer are merged. */
  function MergedOf(target: map<string, Value>, done: map<string, Value>, at: Path): map<string, Value> {
    map k | k in target.Keys + done.Keys ::
      if k in done then Merge(Child(Mapping(target), k), done[k], at + [k]) else target[k]
  }

  ghost predicate AllowedOf(target: map<string, Value>, done: map<string, Value>, at: Path, base: Value) {
    forall k :: k in done ==> IsAllowed(base, at + [k]) && AllAllowed(Child(Mapping(target), k), done[k], at + [k], base)
  }

  lemma {:induction false} NothingMerged(target: map<string, Value>, at: Path, base: Value)
    ensures MergedOf(target, map[], at) == target && AllowedOf(target, map[], at, base)
  {}

  lemma {:induction false} NextMerged(
    target: map<string, Value>, done: map<string, Value>, overlay: map<string, Value>, key: string, at: Path, base: Value)
    requires key !in done && key in overlay && forall k :: k in done ==> k in overlay && done[k] == overlay[k]
    ensures
      var v := overlay[key];
      && Child(Mapping(MergedOf(target, done, at)), key) == Child(Mapping(target), key)
      && MergedOf(target, done[key := v], at) ==
           MergedOf(target, done, at)[key := Merge(Child(Mapping(target), key), v, at + [key])]
      && (AllowedOf(target, done[key := v], at, base) <==>
            AllowedOf(target, done, at, base) && IsAllowed(base, at + [key]) &&
            AllAllowed(Child(Mapping(target), key), v, at + [key], base))
      && (AllowedOf(target, overlay, at, base) ==> AllowedOf(target, done[key := v], at, base))
  {
    hide Merge, AllAllowed, IsAllowed, AllowedOf;
    NextAllowed(target, done, key, overlay[key], at, base);
    if AllowedOf(target, overlay, at, base) { FewerAllowed(target, done[key := overlay[key]], overlay, at, base); }
  }

  lemma {:induction false} NextAllowed(
    target: map<string, Value>, done: map<string, Value>, key: string, v: Value, at: Path, base: Value)
    requires key !in done
    ensures AllowedOf(target, done[key := v], at, base) <==>
              AllowedOf(target, done, at, base) && IsAllowed(base, at + [key]) &&
              AllAllowed(Child(Mapping(target), key), v, at + [key], base)
  {
    hide AllAllowed, IsAllowed, Child;
    var more := done[key := v];
    if AllowedOf(target, more, at, base) {
      assert key in more;
      FewerAllowed(target, done, more, at, base);
    }
  }

  lemma {:induction false} FewerAllowed(
    target: map<string, Value>, few: map<string, Value>, many: map<string, Value>, at: Path, base: Value)
    requires AllowedOf(target, many, at, base) && forall k :: k in few ==> k in many && few[k] == many[k]
    ensures AllowedOf(target, few, at, base)
  {
    hide AllAllowed, IsAllowed, Child;
  }

  lemma {:induction false} AllMerged(target: map<string, Value>, overlay: map<string, Value>, at: Path, base: Value)
    requires !Atomic(at)
    ensures Mapping(MergedOf(target, overlay, at)) == Merge(Some(Mapping(target)), Mapping(overlay), at)
    ensures AllowedOf(target, overlay, at, base) <==> AllAllowed(Some(Mapping(target)), Mapping(overlay), at, base)
  {}

  lemma {:induction false} WholeTouch(t: Option<Value>, v: Value, at: Path)
    requires Atomic(at) && v.Mapping?
    ensures forall q :: Only(at)(q) <==> Touched(t, v, at)(q)
  {
    forall q ensures Only(at)(q) <==> Touched(t, v, at)(q) {
      if at <= q && q != at {
        assert q[|at|..] != [];
      }
    }
  }

  /** The configuration being assembled: layers change the tree and the provenance map in place. */
  class LayeredConfig {
    var merged: map<string, Value>
    var provenance: Provenance

    constructor ()
      ensures merged == map[] && provenance == map[]
    {
      merged, provenance := map[], map[];
    }

    /** `_reassign_subtree`. */
    method ReassignSubtree(at: Path, source: string)
      modifies this`provenance
      ensures Updated(old(provenance), provenance, Only(at), source)
    {
      provenance := (map q | q in provenance && !(at < q) :: provenance[q])[at := source];
      forall q ensures Below(Only(at), q) <==> at < q {
        if at < q {
          assert q[..|at|] == at;
          assert Only(at)(q[..|at|]);
        }
      }
    }

    /** `_record`: attribute every leaf under the path. */
    method Record(value: Value, at: Path, source: string)
      modifies this`provenance
      ensures Updated(old(provenance), provenance, Leaves(value, at), source)
      decreases value
    {
      if Inner(value) {
        var left := value.entries.Keys;
        ghost var done: map<string, Value> := map[];
        UpdateNothing(provenance, LeavesOf(done, at), source);
        while left != {}
          invariant done == map k | k in value.entries && k !in left :: value.entries[k]
          invariant left <= value.entries.Keys
          invariant Updated(old(provenance), provenance, LeavesOf(done, at), source)
          decreases |left|
        {
          SomeKey(left);
          var key :| key in left;
          ghost var mid := provenance;
          Record(value.entries[key], at + [key], source);
          RecordStep(old(provenance), mid, provenance, done, key, value.entries[key], at, source);
          done := done[key := value.entries[key]];
          left := left - {key};
        }
        assert done == value.entries;
        LeavesAreChildren(value, at);
        SameTouch(old(provenance), provenance, LeavesOf(value.entries, at), Leaves(value, at), source);
      } else {
        ReassignSubtree(at, source);
        ChildlessLeaf(value, at);
        SameTouch(old(provenance), provenance, Only(at), Leaves(value, at), source);
      }
    }

    /** One key of a layer: replace an atomic mapping, descend into a shared mapping, or replace the value. */
    method MergeKey(t: Option<Value>, value: Value, dotted: Path, source: string, base: Value, structural: bool)
      returns (r: Result<Value>)
      modifies this`provenance
      ensures r.Success? <==> structural || (IsAllowed(base, dotted) && AllAllowed(t, value, dotted, base))
      ensures r.Success? ==> r.value == Merge(t, value, dotted)
      ensures r.Success? ==> Updated(old(provenance), provenance, Touched(t, value, dotted), source)
      decreases value, 1
    {
      hide Updated;
      if !structural && !IsAllowed(base, dotted) {
        return Failure("unknown config path");
      }
      if Atomic(dotted) && value.Mapping? {
        ReassignSubtree(dotted, source);
        WholeTouch(t, value, dotted);
        SameTouch(old(provenance), provenance, Only(dotted), Touched(t, value, dotted), source);
        r := Success(value);
      } else if value.Mapping? && t.Some? && t.value.Mapping? {
        var target := MergeLayer(t.value.entries, value.entries, dotted, source, base, structural);
        if target.Failure? { return Failure(target.error); }
        r := Success(Mapping(target.value));
      } else {
        Record(value, dotted, source);
        SameTouch(old(provenance), provenance, Leaves(value, dotted), Touched(t, value, dotted), source);
        r := Success(value);
      }
    }

    /** `_merge_layer`: key by key, into a mapping and into the provenance map. */
    method MergeLayer(target: map<string, Value>, overlay: map<string, Value>, at: Path, source: string,
                      base: Value, structural: bool) returns (r: Result<map<string, Value>>)
      requires !Atomic(at)
      modifies this`provenance
      ensures r.Success? <==> structural || AllAllowed(Some(Mapping(target)), Mapping(overlay), at, base)
      ensures r.Success? ==> Mapping(r.value) == Merge(Some(Mapping(target)), Mapping(overlay), at)
      ensures r.Success? ==>
                Updated(old(provenance), provenance, Touched(Some(Mapping(target)), Mapping(overlay), at), source)
      decreases Mapping(overlay), 0
    {
      hide Updated, Writes, IsAllowed, AllowedOf, AllAllowed, MergedOf, Merge;
      var target' := target;
      var left := overlay.Keys;
      ghost var done: map<string, Value> := map[];
      UpdateNothing(provenance, TouchedOf(target, done, at), source);
      NothingMerged(target, at, base);
      while left != {}
        invariant done == map k | k in overlay && k !in left :: overlay[k]
        invariant left <= overlay.Keys
        invariant target' == MergedOf(target, done, at)
        invariant Updated(old(provenance), provenance, TouchedOf(target, done, at), source)
        invariant structural || AllowedOf(target, done, at, base)
        decreases |left|
      {
        SomeKey(left);
        var key :| key in left;
        ghost var mid := provenance;
        NextMerged(target, done, overlay, key, at, base);
        var value := MergeKey(Child(Mapping(target'), key), overlay[key], at + [key], source, base, structural);
        if value.Failure? {
          AllMerged(target, overlay, at, base);
          return Failure(value.error);
        }
        MergeStep(old(provenance), mid, provenance, target, done, key, overlay[key], at, source);
        target' := target'[key := value.value];
        done := done[key := overlay[key]];
        left := left - {key};
      }
      assert done == overlay;
      AllMerged(target, overlay, at, base);
      TouchedIsOf(target, overlay, at);
      SameTouch(old(provenance), provenance, TouchedOf(target, overlay, at),
                Touched(Some(Mapping(target)), Mapping(overlay), at), source);
      r := Success(target');
    }
  }
}
