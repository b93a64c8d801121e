/** Small value types and counting facts shared by every part of the model. */
module Common {

  datatype Option<+T> = None | Some(value: T)

  /** The elements of a sequence, as a set. */
  function Elems<T(==)>(s: seq<T>): set<T> {
    set x | x in s
  }

  /** The keys of `m` whose entry satisfies `p`. */
  ghost function Marked<K(!new), E(!new)>(m: map<K, E>, p: E -> bool): set<K> {
    set k | k in m && p(m[k])
  }

  lemma MarkedGrows<K(!new), E(!new)>(m: map<K, E>, k: K, e: E, p: E -> bool)
    requires k !in m
    ensures |Marked(m[k := e], p)| == |Marked(m, p)| + if p(e) then 1 else 0
  {
    if p(e) {
      assert Marked(m[k := e], p) == Marked(m, p) + {k};
    } else {
      assert Marked(m[k := e], p) == Marked(m, p);
    }
  }

  /** Counting two exclusive properties separately counts their union. */
  lemma MarkedSplit<K(!new), E(!new)>(m: map<K, E>, whole: E -> bool, left: E -> bool, right: E -> bool)
    requires forall e :: whole(e) == (left(e) || right(e)) && !(left(e) && right(e))
    ensures |Marked(m, whole)| == |Marked(m, left)| + |Marked(m, right)|
  {
    assert Marked(m, whole) == Marked(m, left) + Marked(m, right);
    assert Marked(m, left) !! Marked(m, right);
  }

  lemma MarkedSame<K(!new), E(!new)>(m: map<K, E>, p: E -> bool, q: E -> bool)
    requires forall k <- m.Keys :: p(m[k]) == q(m[k])
    ensures Marked(m, p) == Marked(m, q)
  {
  }
}
