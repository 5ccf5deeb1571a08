/**
 The two `HashMap` operations the service relies on: `keySet().retainAll(...)` and
 turning `values()` into an array. The map's iteration order is unspecified, so the
 array is built by picking an arbitrary remaining key at each step.
 */
module MapOps {

  /**
   `keys` lists every element of `s` exactly once: distinct members of `s`, as many as
   `s` has.
   */
  ghost predicate Enumerates<K>(keys: seq<K>, s: set<K>)
  {
    && |keys| == |s|
    && (forall i :: 0 <= i < |keys| ==> keys[i] in s)
    && (forall i, j :: 0 <= i < j < |keys| ==> keys[i] != keys[j])
  }

  /** An enumeration of `s` mentions every element of `s`. */
  lemma {:induction false} EnumerationCovers<K>(keys: seq<K>, s: set<K>, k: K)
    requires Enumerates(keys, s)
    requires k in s
    ensures k in keys
    decreases |keys|
  {
    var last := keys[|keys| - 1];
    var prefix := keys[..|keys| - 1];
    if k != last {
      assert Enumerates(prefix, s - {last}) by {
        forall i | 0 <= i < |prefix|
          ensures prefix[i] in s - {last}
        {
          assert prefix[i] == keys[i] && keys[i] != keys[|keys| - 1];
        }
      }
      EnumerationCovers(prefix, s - {last}, k);
      assert keys == prefix + [last];
    }
  }

  /** A subset is no larger than its superset, and equally large only when equal. */
  lemma {:induction false} SubsetCardinality<K>(a: set<K>, b: set<K>)
    requires a <= b
    ensures |a| <= |b|
    ensures |a| == |b| ==> a == b
  {
    var rest := b - a;
    assert b == a + rest;
    assert a * rest == {};
    if |a| == |b| {
      assert |rest| == 0;
    }
  }

  /** `values` holds the entries of `m` for the keys `over`, in some order. */
  ghost predicate ValuesOver<K(!new), V>(m: map<K, V>, over: set<K>, values: seq<V>)
  {
    && over <= m.Keys
    && exists keys :: Enumerates(keys, over) && |keys| == |values|
                   && forall i :: 0 <= i < |keys| ==> values[i] == m[keys[i]]
  }

  /**
   Removes, one key at a time, every key of `m` that is not in `keep`; the entries
   that stay keep their values.
   */
  method RetainAll<K, V>(m: map<K, V>, keep: set<K>) returns (r: map<K, V>)
    ensures r.Keys == m.Keys * keep
    ensures forall k :: k in r ==> r[k] == m[k]
  {
    r := m;
    var unvisited := m.Keys;
    while unvisited != {}
      invariant unvisited <= m.Keys
      invariant r.Keys == unvisited + m.Keys * keep
      invariant forall k :: k in r ==> k in m && r[k] == m[k]
      decreases unvisited
    {
      var k :| k in unvisited;
      if k !in keep {
        r := r - {k};
      }
      unvisited := unvisited - {k};
    }
  }

  /**
   The values of `m` as an array, in an order the model does not fix; `keys` is the
   matching key order.
   */
  method ValuesToArray<K(!new), V>(m: map<K, V>) returns (keys: seq<K>, values: seq<V>)
    ensures |values| == |m|
    ensures Enumerates(keys, m.Keys) && |keys| == |values|
    ensures forall i :: 0 <= i < |keys| ==> values[i] == m[keys[i]]
    ensures ValuesOver(m, m.Keys, values)
  {
    keys, values := [], [];
    var rest := m.Keys;
    while rest != {}
      invariant rest <= m.Keys
      invariant |keys| == |values| && |keys| + |rest| == |m.Keys|
      invariant forall i :: 0 <= i < |keys| ==> keys[i] in m && keys[i] !in rest && values[i] == m[keys[i]]
      invariant forall i, j :: 0 <= i < j < |keys| ==> keys[i] != keys[j]
      decreases rest
    {
      var k :| k in rest;
      keys, values := keys + [k], values + [m[k]];
      rest := rest - {k};
    }
  }
}
