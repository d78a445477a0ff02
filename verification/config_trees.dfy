/** Configuration values as trees addressed by key paths. */
module ConfigTrees {
  import opened Wrappers

  /** A mapping, or anything else; a list counts as one leaf, since it is always replaced whole. */
  datatype Value = Null | Leaf(data: string) | Mapping(entries: map<string, Value>)

  type Path = seq<string>

  function Child(v: Value, key: string): Option<Value> {
    if v.Mapping? && key in v.entries then Some(v.entries[key]) else None
  }

  /** The value at a path, if the path exists. */
  function At(v: Value, p: Path): Option<Value>
    decreases |p|
  {
    if p == [] then Some(v)
    else if v.Mapping? && p[0] in v.entries then At(v.entries[p[0]], p[1..])
    else None
  }

  predicate Inner(v: Value) {
    v.Mapping? && v.entries != map[]
  }

  /** The path exists and leads to something without children. */
  predicate IsLeaf(v: Value, p: Path) {
    At(v, p).Some? && !Inner(At(v, p).value)
  }

  /** The path leads to something that is not a mapping. */
  predicate IsDatum(v: Value, p: Path) {
    At(v, p).Some? && !At(v, p).value.Mapping?
  }

  predicate IsMapping(v: Value, p: Path) {
    At(v, p).Some? && At(v, p).value.Mapping?
  }

  lemma {:induction false} AtExtends(v: Value, p: Path, q: Path)
    ensures At(v, p + q) == if At(v, p).Some? then At(At(v, p).value, q) else None
    decreases |p|
  {
    if p == [] {
      assert p + q == q;
    } else {
      assert (p + q)[1..] == p[1..] + q;
      if v.Mapping? && p[0] in v.entries {
        AtExtends(v.entries[p[0]], p[1..], q);
      }
    }
  }

  // ----------------------------------------------------------- dotted form

  predicate DotFree(key: string) {
    '.' !in key
  }

  predicate DotFreePath(p: Path) {
    p != [] && forall i :: 0 <= i < |p| ==> DotFree(p[i])
  }

  /** The dotted spelling of a path. */
  function Join(p: Path): string
    requires p != []
  {
    if |p| == 1 then p[0] else p[0] + "." + Join(p[1..])
  }

  /** Without dots in keys, dotted strings and paths are the same thing, prefixes included. */
  lemma {:induction false} JoinKeepsPrefixes(p: Path, q: Path)
    requires DotFreePath(p) && DotFreePath(q)
    ensures Join(p) == Join(q) <==> p == q
    ensures Join(p) + "." <= Join(q) <==> p < q
    decreases |p|
  {
    FirstDot(p);
    FirstDot(q);
    if p[0] == q[0] && |p| > 1 && |q| > 1 {
      JoinKeepsPrefixes(p[1..], q[1..]);
      assert p == [p[0]] + p[1..] && q == [q[0]] + q[1..];
      var n := |p[0]| + 1;
      assert Join(p)[n..] == Join(p[1..]) && Join(q)[n..] == Join(q[1..]);
      assert Join(p)[..n] == Join(q)[..n] == p[0] + ".";
      SamePrefix(Join(p) + ".", Join(q), n);
      assert (Join(p) + ".")[n..] == Join(p[1..]) + ".";
    } else if p[0] != q[0] {
      if Join(p) + "." <= Join(q) || Join(p) == Join(q) {
        SameHead(p, q);
      }
    }
  }

  lemma {:induction false} SamePrefix(a: string, b: string, n: nat)
    requires n <= |a| && n <= |b| && a[..n] == b[..n]
    ensures a <= b <==> a[n..] <= b[n..]
  {
    assert a == a[..n] + a[n..] && b == b[..n] + b[n..];
  }

  /** The first key ends at the first dot. */
  lemma {:induction false} FirstDot(p: Path)
    requires DotFreePath(p)
    ensures |p[0]| <= |Join(p)| && Join(p)[..|p[0]|] == p[0]
    ensures forall i :: 0 <= i < |p[0]| ==> Join(p)[i] != '.'
    ensures |p| > 1 ==> |Join(p)| > |p[0]| && Join(p)[|p[0]|] == '.'
    ensures |p| == 1 ==> |Join(p)| == |p[0]|
  {
    assert forall i :: 0 <= i < |p[0]| ==> Join(p)[i] == p[0][i];
  }

  lemma {:induction false} SameHead(p: Path, q: Path)
    requires DotFreePath(p) && DotFreePath(q)
    requires Join(p) + "." <= Join(q) || Join(p) == Join(q)
    ensures p[0] == q[0]
  {
    FirstDot(p);
    FirstDot(q);
    var a, b := p[0], q[0];
    var s := Join(p) + ".";
    assert s[|a|] == '.';
    assert |a| == |b|;
    assert a == s[..|a|];
  }

  /** The segments between the dots. */
  function Split(s: string): (p: Path)
    ensures DotFreePath(p)
  {
    if s == "" then [""] else
      var rest := Split(s[1..]);
      if s[0] == '.' then [""] + rest else [[s[0]] + rest[0]] + rest[1..]
  }

  /** Dotted strings and dot-free paths are in one-to-one correspondence. */
  lemma {:induction false} JoinSplit(s: string)
    ensures Join(Split(s)) == s
  {
    if s != "" {
      JoinSplit(s[1..]);
      var rest := Split(s[1..]);
      if s[0] == '.' {
        assert ([""] + rest)[1..] == rest;
      } else {
        var p := [[s[0]] + rest[0]] + rest[1..];
        assert p[1..] == rest[1..];
        assert Join(p) == [s[0]] + Join(rest);
      }
    }
  }

  lemma {:induction false} SplitJoin(p: Path)
    requires DotFreePath(p)
    ensures Split(Join(p)) == p
  {
    JoinSplit(Join(p));
    JoinKeepsPrefixes(Split(Join(p)), p);
  }

  /** Trees with the same leaves are the same tree. */
  lemma {:induction false} LeavesDetermineTree(a: Value, b: Value)
    requires forall p :: IsLeaf(a, p) || IsLeaf(b, p) ==> At(a, p) == At(b, p)
    ensures a == b
    decreases a
  {
    assert At(a, []) == Some(a) && At(b, []) == Some(b);
    if Inner(a) && Inner(b) {
      forall k | k in a.entries || k in b.entries ensures k in a.entries && k in b.entries {
        var r := SomeLeafOf(if k in a.entries then a.entries[k] else b.entries[k]);
        assert ([k] + r)[1..] == r;
        assert IsLeaf(a, [k] + r) || IsLeaf(b, [k] + r);
      }
      forall k | k in a.entries ensures a.entries[k] == b.entries[k] {
        forall r | IsLeaf(a.entries[k], r) || IsLeaf(b.entries[k], r) ensures At(a.entries[k], r) == At(b.entries[k], r) {
          assert ([k] + r)[1..] == r;
          assert At(a, [k] + r) == At(b, [k] + r);
        }
        LeavesDetermineTree(a.entries[k], b.entries[k]);
      }
    } else {
      assert IsLeaf(a, []) || IsLeaf(b, []);
    }
  }

  lemma {:induction false} SomeLeafOf(v: Value) returns (p: Path)
    ensures IsLeaf(v, p)
    decreases v
  {
    if Inner(v) {
      SomeKey(v.entries.Keys);
      var k :| k in v.entries.Keys;
      var q := SomeLeafOf(v.entries[k]);
      p := [k] + q;
      assert p[1..] == q;
    } else {
      p := [];
    }
  }

  lemma {:induction false} SomeKey(keys: set<string>)
    requires keys != {}
    ensures exists k :: k in keys
  {
    assert (forall k :: k !in keys) ==> keys == {};
  }
}
