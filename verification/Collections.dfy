/** Facts about finite sets, maps and sequences that the models share. */
module Collections {

  datatype Option<+T> = None | Some(value: T)

  function At<K, V>(m: map<K, V>, k: K): Option<V> {
    if k in m then Some(m[k]) else None
  }

  lemma {:induction false} SubsetSmaller<T>(a: set<T>, b: set<T>)
    requires a <= b
    ensures |a| <= |b| && (|a| == |b| ==> a == b)
  {
    assert b == a + (b - a);
  }

  lemma NewKeyValues<K, V>(m: map<K, V>, k: K, v: V)
    requires k !in m
    ensures m[k := v].Values == m.Values + {v} && |m[k := v]| == |m| + 1
  {
    var m' := m[k := v];
    assert m'.Keys == m.Keys + {k};
    forall u ensures u in m'.Values <==> u in m.Values + {v} {
      if u in m'.Values {
        var j :| j in m' && m'[j] == u;
        assert j != k ==> j in m && m[j] == u;
      }
      if u in m.Values {
        var j :| j in m && m[j] == u;
        assert m'[j] == u;
      }
      assert m'[k] == v;
    }
  }

  lemma DropKey<K, V>(m: map<K, V>, k: K)
    requires k in m
    ensures |m - {k}| == |m| - 1 && m == (m - {k})[k := m[k]]
  {
    NewKeyValues(m - {k}, k, m[k]);
    assert m == (m - {k})[k := m[k]];
  }

  lemma {:induction false} ValuesAtMostKeys<K, V>(m: map<K, V>)
    ensures |m.Values| <= |m|
    decreases |m|
  {
    if m == map[] {
      assert m.Values == {};
    } else {
      var k :| k in m;
      DropKey(m, k);
      ValuesAtMostKeys(m - {k});
      NewKeyValues(m - {k}, k, m[k]);
    }
  }

  lemma DropKeysSize<K, V>(m: map<K, V>, keys: set<K>)
    requires keys <= m.Keys
    ensures |m - keys| == |m| - |keys|
  {
    assert m.Keys == (m - keys).Keys + keys;
    assert |m.Keys| == |m| && |(m - keys).Keys| == |m - keys|;
  }

  lemma JoinSize<K, V>(m: map<K, V>, n: map<K, V>)
    requires m.Keys !! n.Keys
    ensures |m + n| == |m| + |n|
  {
    assert (m + n).Keys == m.Keys + n.Keys;
    assert |m.Keys| == |m| && |n.Keys| == |n| && |(m + n).Keys| == |m + n|;
  }

  lemma {:induction false} HasLeast(ids: set<nat>) returns (least: nat)
    requires ids != {}
    ensures least in ids && forall k :: k in ids ==> least <= k
    decreases |ids|
  {
    least :| least in ids;
    if ids != {least} {
      assert ids == {least} + (ids - {least});
      var other := HasLeast(ids - {least});
      assert forall k :: k in ids ==> k == least || k in ids - {least};
      least := if least < other then least else other;
    }
  }

  /** A function that pairs two sets up one to one shows they are of one size. */
  lemma {:induction false} PairedUp<A, B>(a: set<A>, b: set<B>, f: A -> B)
    requires forall x :: x in a ==> f(x) in b
    requires forall x, y :: x in a && y in a && f(x) == f(y) ==> x == y
    requires forall y :: y in b ==> exists x :: x in a && f(x) == y
    ensures |a| == |b|
    decreases a
  {
    if a == {} {
      assert forall y :: y !in b;
    } else {
      var x :| x in a;
      forall y | y in b - {f(x)} ensures exists z :: z in a - {x} && f(z) == y {
        var z :| z in a && f(z) == y;
        assert z in a - {x};
      }
      PairedUp(a - {x}, b - {f(x)}, f);
    }
  }
}
