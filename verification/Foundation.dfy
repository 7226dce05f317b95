/** Types shared by every component, and finite sums over sets and maps. */
module Foundation {

  /** The value is absent where the source returns nil or a failed lookup. */
  datatype Option<+T> = None | Some(value: T) {
    function GetOr(default: T): T {
      if Some? then value else default
    }
  }

  /** Identifiers are compared by the source through their string form; only the order matters. */
  type Identifier = nat

  type Hash = nat

  /** The nodes of the network. */
  type NodeId = nat

  /** 2^64: the modulus of the source's unsigned arithmetic. */
  const U64: nat := 0x1_0000_0000_0000_0000

  /** Unsigned 64-bit addition, wrapping. */
  function Add64(a: nat, b: nat): nat {
    (a + b) % U64
  }

  /** The sum of the values of a finite map. */
  ghost function SumMap<K>(m: map<K, int>): int
    decreases |m|
  {
    if m == map[] then 0 else
      var k :| k in m;
      assert |m - {k}| < |m| by { MapShrinks(m, k); }
      m[k] + SumMap(m - {k})
  }

  lemma MapShrinks<K, V>(m: map<K, V>, k: K)
    requires k in m
    ensures |m - {k}| == |m| - 1
  {
    assert (m - {k}).Keys == m.Keys - {k};
    assert |m| == |m.Keys| && |m - {k}| == |(m - {k}).Keys|;
  }

  /** The sum does not depend on the order in which keys are taken. */
  lemma {:induction false} SumMapRemove<K>(m: map<K, int>, k: K)
    requires k in m
    ensures SumMap(m) == m[k] + SumMap(m - {k})
    decreases |m|
  {
    var j :| j in m && SumMap(m) == m[j] + SumMap(m - {j});
    if j != k {
      MapShrinks(m, j);
      MapShrinks(m, k);
      SumMapRemove(m - {j}, k);
      SumMapRemove(m - {k}, j);
      assert m - {j} - {k} == m - {k} - {j};
    }
  }

  /** Changing one entry changes the sum by the difference. */
  lemma SumMapUpdate<K>(m: map<K, int>, k: K, v: int)
    ensures SumMap(m[k := v]) == SumMap(m) + v - (if k in m then m[k] else 0)
  {
    var n := m[k := v];
    SumMapRemove(n, k);
    if k in m {
      SumMapRemove(m, k);
      assert n - {k} == m - {k};
    } else {
      assert n - {k} == m;
    }
  }

  /** No entry is larger than a sum of non-negative entries. */
  lemma {:induction false} SumMapBounds<K>(m: map<K, int>)
    requires forall k :: k in m ==> 0 <= m[k]
    ensures 0 <= SumMap(m)
    ensures forall k :: k in m ==> m[k] <= SumMap(m)
    decreases |m|
  {
    forall k | k in m
      ensures m[k] <= SumMap(m)
    {
      SumMapRemove(m, k);
      MapShrinks(m, k);
      SumMapBounds(m - {k});
    }
    if m != map[] {
      var k :| k in m;
      assert 0 <= m[k] <= SumMap(m);
    }
  }

  lemma {:induction false} SubsetCount<T>(s: set<T>, t: set<T>)
    requires s <= t
    ensures |s| <= |t|
  {
    if s != {} {
      var x :| x in s;
      SubsetCount(s - {x}, t - {x});
    }
  }
}
