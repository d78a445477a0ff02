/** Facts about finite sets and sums over maps. */
module Collections {

  lemma {:induction false} NonEmpty<T>(s: set<T>)
    requires s != {}
    ensures exists x :: x in s
  {
    assert (forall x :: x !in s) ==> s == {};
  }

  lemma {:induction false} HasMember<T>(xs: seq<T>)
    ensures xs != [] ==> exists x :: x in xs
  {
    if xs != [] {
      assert xs[0] in xs;
    }
  }

  /** The sum of a map's values. */
  ghost function Sum<K(!new)>(m: map<K, real>): real
    decreases |m|
  {
    if m == map[] then 0.0 else
      NonEmpty(m.Keys);
      var k :| k in m;
      m[k] + Sum(m - {k})
  }

  lemma {:induction false} SumEmpty<K(!new)>()
    ensures Sum<K>(map[]) == 0.0
  {}

  /** Any key may be summed first. */
  lemma {:induction false} SumTakeOut<K(!new)>(m: map<K, real>, k: K)
    requires k in m
    ensures Sum(m) == m[k] + Sum(m - {k})
    decreases |m|
  {
    NonEmpty(m.Keys);
    var first :| first in m && Sum(m) == m[first] + Sum(m - {first});
    if first != k {
      SumTakeOut(m - {first}, k);
      SumTakeOut(m - {k}, first);
      assert m - {first} - {k} == m - {k} - {first};
    }
  }

  function Get<K>(m: map<K, real>, k: K): real {
    if k in m then m[k] else 0.0
  }

  /** Assigning one key moves the sum by the difference. */
  lemma {:induction false} SumAssign<K(!new)>(m: map<K, real>, k: K, v: real)
    ensures Sum(m[k := v]) == Sum(m) - Get(m, k) + v
  {
    SumTakeOut(m[k := v], k);
    assert m[k := v] - {k} == m - {k};
    if k in m {
      SumTakeOut(m, k);
    } else {
      assert m - {k} == m;
    }
  }

  lemma {:induction false} SumRemove<K(!new)>(m: map<K, real>, k: K)
    ensures Sum(m - {k}) == Sum(m) - Get(m, k)
  {
    if k in m {
      SumTakeOut(m, k);
    } else {
      assert m - {k} == m;
    }
  }

  /** Sums agree when the maps agree up to keys holding zero. */
  lemma {:induction false} SumSame<K(!new)>(a: map<K, real>, b: map<K, real>)
    requires forall k :: Get(a, k) == Get(b, k)
    ensures Sum(a) == Sum(b)
    decreases a.Keys + b.Keys
  {
    hide Sum;
    if a.Keys + b.Keys == {} {
      assert a == b;
    } else {
      NonEmpty(a.Keys + b.Keys);
      var k :| k in a.Keys + b.Keys;
      SumRemove(a, k);
      SumRemove(b, k);
      assert Get(a, k) == Get(b, k);
      assert (a - {k}).Keys + (b - {k}).Keys == a.Keys + b.Keys - {k};
      forall j ensures Get(a - {k}, j) == Get(b - {k}, j) {
        assert Get(a, j) == Get(b, j);
      }
      SumSame(a - {k}, b - {k});
    }
  }
}
