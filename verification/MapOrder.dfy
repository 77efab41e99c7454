/** Ranging over a Go map: each key once, in an order the program must not rely on. */
module MapOrder {
  ghost predicate IsOrder<V>(m: map<string, V>, keys: seq<string>) {
    && |keys| == |m|
    && (forall i, k | 0 <= i < k < |keys| :: keys[i] != keys[k])
    && (forall i | 0 <= i < |keys| :: keys[i] in m)
    && (forall k | k in m :: k in keys)
  }

  /** Some order; the contract leaves the choice open. */
  method Range<V>(m: map<string, V>) returns (keys: seq<string>)
    ensures IsOrder(m, keys)
  {
    keys := [];
    var todo := m.Keys;
    assert |m.Keys| == |m|;
    while todo != {}
      invariant |keys| + |todo| == |m| && todo <= m.Keys
      invariant forall i, k | 0 <= i < k < |keys| :: keys[i] != keys[k]
      invariant forall i | 0 <= i < |keys| :: keys[i] in m && keys[i] !in todo
      invariant forall k | k in m :: k in todo || k in keys
      decreases |todo|
    {
      var k :| k in todo;
      keys, todo := keys + [k], todo - {k};
    }
  }

  /** Any key can come first. */
  lemma StartingWith<V>(m: map<string, V>, first: string) returns (keys: seq<string>)
    requires first in m
    ensures IsOrder(m, keys) && keys[0] == first
  {
    keys := [first];
    var todo := m.Keys - {first};
    assert |m.Keys| == |m|;
    while todo != {}
      invariant |keys| + |todo| == |m| && todo <= m.Keys && keys != [] && keys[0] == first
      invariant forall i, k | 0 <= i < k < |keys| :: keys[i] != keys[k]
      invariant forall i | 0 <= i < |keys| :: keys[i] in m && keys[i] !in todo
      invariant forall k | k in m :: k in todo || k in keys
      decreases |todo|
    {
      var k :| k in todo;
      keys, todo := keys + [k], todo - {k};
    }
  }
}
