/** A full scan of a keyed table, as a `SELECT ... WHERE` returns it: each matching row once, in no particular order. */
module Tables {

  /** The keys of a list have no repetition. */
  predicate Distinct<K(==)>(keys: seq<K>)
  {
    forall i, j :: 0 <= i < j < |keys| ==> keys[i] != keys[j]
  }

  /**
   * Every row of `m` that `keep` accepts, once each. `keys[i]` is the key of `r[i]`;
   * the order is whatever the loop picks, as SQL promises no order either.
   */
  method SelectRows<V>(m: map<string, V>, keep: V -> bool) returns (r: seq<V>, ghost keys: seq<string>)
    ensures |keys| == |r| && Distinct(keys)
    ensures forall i :: 0 <= i < |r| ==> keys[i] in m && m[keys[i]] == r[i] && keep(r[i])
    ensures forall k :: k in m && keep(m[k]) ==> k in keys
  {
    var remaining := m.Keys;
    r, keys := [], [];
    while remaining != {}
      invariant remaining <= m.Keys
      invariant |keys| == |r| && Distinct(keys)
      invariant forall i :: 0 <= i < |r| ==> keys[i] in m && keys[i] !in remaining && m[keys[i]] == r[i] && keep(r[i])
      invariant forall k :: k in m && k !in remaining && keep(m[k]) ==> k in keys
      decreases remaining
    {
      var k :| k in remaining;
      if keep(m[k]) {
        r, keys := r + [m[k]], keys + [k];
      }
      remaining := remaining - {k};
    }
  }
}
