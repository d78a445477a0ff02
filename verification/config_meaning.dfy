/** What merging a layer means, path by path, in terms of the two trees alone. */
module ConfigMeaning {
  import opened Wrappers
  import opened ConfigTrees
  import opened ConfigMerge
  import opened ConfigLaws

  /**
   * The layer takes over at a path: it has something there that is not a mapping, or that the tree
   * below has no mapping to merge with, or that is one of the two settings replaced as a whole.
   */
  predicate TakesOver(t: Option<Value>, o: Value, at: Path, p: Path) {
    && At(o, p).Some?
    && (!At(o, p).value.Mapping? || t.None? || !IsMapping(t.value, p)
        || at + p == ["optimization", "search_space"] || at + p == ["model", "target"])
  }

  /** The layer takes over at the path or somewhere above it. */
  predicate TakenOver(t: Option<Value>, o: Value, at: Path, p: Path) {
    exists i :: 0 <= i <= |p| && TakesOver(t, o, at, p[..i])
  }

  lemma {:induction false} TakenOverIs(t: Option<Value>, o: Value, at: Path, p: Path)
    ensures TakenOver(t, o, at, p) <==> Assigns(t, o, at, p)
    decreases |p|
  {
    hide TakesOver;
    TakenHere(t, o, at, p);
    if !TakesOver(t, o, at, []) {
      if p != [] && p[0] in o.entries {
        TakenOverIs(Child(t.value, p[0]), o.entries[p[0]], at + [p[0]], p[1..]);
      }
      TakenBelow(t, o, at, p);
    } else {
      assert p[..0] == [];
    }
  }

  lemma {:induction false} TakenHere(t: Option<Value>, o: Value, at: Path, p: Path)
    ensures TakesOver(t, o, at, []) <==> (Atomic(at) && o.Mapping?) || !(o.Mapping? && t.Some? && t.value.Mapping?)
  {
    assert at + [] == at;
  }

  lemma {:induction false} TakenBelow(t: Option<Value>, o: Value, at: Path, p: Path)
    requires o.Mapping? && t.Some? && t.value.Mapping? && !TakesOver(t, o, at, [])
    ensures TakenOver(t, o, at, p) <==>
              p != [] && p[0] in o.entries && TakenOver(Child(t.value, p[0]), o.entries[p[0]], at + [p[0]], p[1..])
  {
    forall i | 1 <= i <= |p|
      ensures TakesOver(t, o, at, p[..i]) <==>
                p[0] in o.entries && TakesOver(Child(t.value, p[0]), o.entries[p[0]], at + [p[0]], p[1..][..i - 1])
    {
      assert p[..i][0] == p[0] && p[..i][1..] == p[1..][..i - 1];
      assert at + p[..i] == at + [p[0]] + p[1..][..i - 1];
    }
    hide TakesOver;
    assert p[..0] == [];
    if p != [] && p[0] in o.entries && TakenOver(Child(t.value, p[0]), o.entries[p[0]], at + [p[0]], p[1..]) {
      var j :| 0 <= j <= |p[1..]| && TakesOver(Child(t.value, p[0]), o.entries[p[0]], at + [p[0]], p[1..][..j]);
      assert p[1..][..j + 1 - 1] == p[1..][..j];
      assert TakesOver(t, o, at, p[..j + 1]);
    }
  }

  /**
   * The merged tree at every path: the layer's own subtree where it has taken over, the old tree's
   * where the layer has nothing, and a merged mapping where both have one.
   */
  lemma {:induction false} MergedAt(t: Value, o: Value, p: Path)
    ensures TakenOver(Some(t), o, [], p) ==> At(Merge(Some(t), o, []), p) == At(o, p)
    ensures !TakenOver(Some(t), o, [], p) && At(o, p).None? ==> At(Merge(Some(t), o, []), p) == At(t, p)
    ensures !TakenOver(Some(t), o, [], p) && At(o, p).Some? ==>
              IsMapping(o, p) && IsMapping(t, p) && IsMapping(Merge(Some(t), o, []), p)
  {
    TakenOverIs(Some(t), o, [], p);
    MergedValue(Some(t), o, [], p);
    if !Assigns(Some(t), o, [], p) { MergedElsewhere(t, o, [], p); }
  }

  lemma {:induction false} MergedElsewhere(t: Value, o: Value, at: Path, p: Path)
    requires !Assigns(Some(t), o, at, p)
    ensures At(o, p).None? ==> At(Merge(Some(t), o, at), p) == At(t, p)
    ensures At(o, p).Some? ==> IsMapping(o, p) && IsMapping(t, p) && IsMapping(Merge(Some(t), o, at), p)
    decreases |p|
  {
    if p != [] && p[0] in o.entries {
      if p[0] in t.entries {
        MergedElsewhere(t.entries[p[0]], o.entries[p[0]], at + [p[0]], p[1..]);
      }
    }
  }

  /** After a merge, each leaf is attributed to the layer exactly where it has taken over. */
  lemma {:induction false} SourceWhereTaken(t: Value, o: Value, prov: Provenance, prov': Provenance, source: string, p: Path)
    requires Updated(prov, prov', Touched(Some(t), o, []), source)
    requires IsLeaf(Merge(Some(t), o, []), p)
    ensures Source(prov', p) == if TakenOver(Some(t), o, [], p) then Some(source) else Source(prov, p)
  {
    hide Source, Assigns, TakenOver;
    SourceAfterMerge(t, o, prov, prov', source, p);
    TakenOverIs(Some(t), o, [], p);
  }

  // ------------------------------------------------------------------ keys

  /** The base has the path, or something above it that is null or empty and so open to any keys. */
  predicate Accepts(base: Value, p: Path) {
    At(base, p).Some? || exists i :: 0 <= i < |p| && (At(base, p[..i]) == Some(Null) || At(base, p[..i]) == Some(Mapping(map[])))
  }

  lemma {:induction false} AllowedIs(base: Value, p: Path)
    ensures IsAllowed(base, p) <==> Accepts(base, p)
    decreases |p|
  {
    if p != [] {
      assert p[..0] == [];
      if base.Mapping? && p[0] in base.entries {
        AllowedIs(base.entries[p[0]], p[1..]);
        forall i | 1 <= i < |p| ensures At(base, p[..i]) == At(base.entries[p[0]], p[1..][..i - 1]) {
          assert p[..i][0] == p[0] && p[..i][1..] == p[1..][..i - 1];
        }
        forall j | 0 <= j < |p[1..]| ensures At(base, p[..j + 1]) == At(base.entries[p[0]], p[1..][..j]) {
          assert p[..j + 1][1..] == p[1..][..j];
        }
      } else {
        forall i | 1 <= i < |p| ensures At(base, p[..i]).None? {
          assert p[..i][0] == p[0];
        }
      }
    }
  }

  /** The merge reaches a key of the layer: everything above it is merged, not taken over. */
  predicate Reached(t: Option<Value>, o: Value, at: Path, p: Path) {
    p != [] && At(o, p).Some? && forall i :: 0 <= i < |p| ==> !TakesOver(t, o, at, p[..i])
  }

  lemma {:induction false} ReachedBelow(t: Option<Value>, o: Value, at: Path, k: string, p: Path)
    requires o.Mapping? && t.Some? && t.value.Mapping? && !TakesOver(t, o, at, []) && k in o.entries && p != []
    ensures Reached(t, o, at, [k] + p) <==> Reached(Child(t.value, k), o.entries[k], at + [k], p)
  {
    var q := [k] + p;
    assert q[1..] == p && q[..0] == [];
    forall i | 1 <= i < |q|
      ensures TakesOver(t, o, at, q[..i]) <==> TakesOver(Child(t.value, k), o.entries[k], at + [k], p[..i - 1])
    {
      assert q[..i][0] == k && q[..i][1..] == p[..i - 1];
      assert at + q[..i] == at + [k] + p[..i - 1];
    }
    hide TakesOver;
    forall j | 0 <= j < |p|
      ensures TakesOver(Child(t.value, k), o.entries[k], at + [k], p[..j]) <==> TakesOver(t, o, at, q[..j + 1])
    {
      assert p[..j + 1 - 1] == p[..j];
    }
  }

  /** A layer passes the key check exactly when the base accepts every key that the merge reaches. */
  lemma {:induction false} KeyCheckIs(t: Option<Value>, o: Value, at: Path, base: Value)
    ensures AllAllowed(t, o, at, base) <==> forall p :: Reached(t, o, at, p) ==> Accepts(base, at + p)
    decreases o
  {
    hide TakesOver, Accepts;
    TakenHere(t, o, at, []);
    if TakesOver(t, o, at, []) {
      forall p ensures !Reached(t, o, at, p) {
        assert p[..0] == [];
      }
    } else {
      forall k | k in o.entries
        ensures AllAllowed(Child(t.value, k), o.entries[k], at + [k], base) <==>
                  forall p :: Reached(Child(t.value, k), o.entries[k], at + [k], p) ==> Accepts(base, at + [k] + p)
      {
        KeyCheckIs(Child(t.value, k), o.entries[k], at + [k], base);
      }
      if AllAllowed(t, o, at, base) {
        forall p | Reached(t, o, at, p) ensures Accepts(base, at + p) {
          ReachedIsAllowed(t, o, at, base, p);
        }
      }
      if forall p :: Reached(t, o, at, p) ==> Accepts(base, at + p) {
        forall k | k in o.entries
          ensures IsAllowed(base, at + [k]) && AllAllowed(Child(t.value, k), o.entries[k], at + [k], base)
        {
          KeyIsAllowed(t, o, at, base, k);
        }
      }
    }
  }

  lemma {:induction false} ReachedIsAllowed(t: Option<Value>, o: Value, at: Path, base: Value, p: Path)
    requires o.Mapping? && t.Some? && t.value.Mapping? && !TakesOver(t, o, at, []) && Reached(t, o, at, p)
    requires forall k :: k in o.entries ==> IsAllowed(base, at + [k])
    requires forall k :: k in o.entries ==>
               forall q :: Reached(Child(t.value, k), o.entries[k], at + [k], q) ==> Accepts(base, at + [k] + q)
    ensures Accepts(base, at + p)
  {
    hide TakesOver, Accepts;
    var k, q := p[0], p[1..];
    assert k in o.entries;
    if q == [] {
      assert p == [k];
      AllowedIs(base, at + [k]);
    } else {
      assert [k] + q == p && at + [k] + q == at + p;
      ReachedBelow(t, o, at, k, q);
    }
  }

  lemma {:induction false} KeyIsAllowed(t: Option<Value>, o: Value, at: Path, base: Value, k: string)
    requires o.Mapping? && t.Some? && t.value.Mapping? && !TakesOver(t, o, at, []) && k in o.entries
    requires forall p :: Reached(t, o, at, p) ==> Accepts(base, at + p)
    requires AllAllowed(Child(t.value, k), o.entries[k], at + [k], base) <==>
               forall q :: Reached(Child(t.value, k), o.entries[k], at + [k], q) ==> Accepts(base, at + [k] + q)
    ensures IsAllowed(base, at + [k]) && AllAllowed(Child(t.value, k), o.entries[k], at + [k], base)
  {
    hide TakesOver, Accepts, AllAllowed;
    assert Reached(t, o, at, [k]) by { assert [k][..0] == [] && At(o, [k]).Some?; }
    AllowedIs(base, at + [k]);
    forall q | Reached(Child(t.value, k), o.entries[k], at + [k], q) ensures Accepts(base, at + [k] + q) {
      ReachedBelow(t, o, at, k, q);
      assert at + ([k] + q) == at + [k] + q;
    }
  }
}
