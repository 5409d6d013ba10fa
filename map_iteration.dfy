/**
 * `for _, v := range m` over a Go map visits every key once, in an order the
 * language leaves unspecified.  A visit order is modelled as a sequence of
 * the map's keys without repetition.  Both repositories key their map by
 * order ID, a string.
 */
module MapIteration {
  import opened Wrappers

  ghost predicate IsKeyOrder<V>(m: map<string, V>, ks: seq<string>)
  {
    NoDuplicates(ks) && forall k :: k in ks <==> k in m
  }

  /** Some visit order of `m`; which one is left open. */
  ghost function SomeKeyOrder<V>(m: map<string, V>): (ks: seq<string>)
    ensures IsKeyOrder(m, ks)
    decreases |m|
  {
    if |m| == 0 then
      assert m.Keys == {};
      []
    else
      var k :| k in m;
      var rest := m - {k};
      assert rest.Keys == m.Keys - {k};
      SomeKeyOrder(rest) + [k]
  }
}
