/** Python's tuple comparison and `max(..., key=...)`, over finite sets. */
module Ranking {

  /** A comparison key: a tuple whose entries are compared left to right. */
  type Rank = seq<real>

  predicate Below(a: Rank, b: Rank)
    requires |a| == |b|
  {
    a != [] && (a[0] < b[0] || (a[0] == b[0] && Below(a[1..], b[1..])))
  }

  /** Tuples of two are compared by the first entry, then by the second. */
  lemma BelowPair(a: Rank, b: Rank)
    requires |a| == |b| == 2
    ensures Below(a, b) <==> a[0] < b[0] || (a[0] == b[0] && a[1] < b[1])
  {
    var x, y := a[1..], b[1..];
    assert x[1..] == [] == y[1..];
    assert Below(x, y) <==> x[0] < y[0] || (x[0] == y[0] && Below(x[1..], y[1..]));
  }

  lemma BelowTriple(a: Rank, b: Rank)
    requires |a| == |b| == 3
    ensures Below(a, b) <==>
              a[0] < b[0] || (a[0] == b[0] && (a[1] < b[1] || (a[1] == b[1] && a[2] < b[2])))
  {
    BelowPair(a[1..], b[1..]);
  }

  lemma {:induction false} Trichotomy(a: Rank, b: Rank)
    requires |a| == |b|
    ensures a == b || Below(a, b) || Below(b, a)
    ensures !(Below(a, b) && Below(b, a)) && !Below(a, a)
  {
    if a != [] {
      Trichotomy(a[1..], b[1..]);
      assert a == [a[0]] + a[1..] && b == [b[0]] + b[1..];
    }
  }

  lemma {:induction false} Transitive(a: Rank, b: Rank, c: Rank)
    requires |a| == |b| == |c|
    requires !Below(b, a) && !Below(c, b)
    ensures !Below(c, a)
  {
    if a != [] {
      if a[0] == b[0] == c[0] {
        Transitive(a[1..], b[1..], c[1..]);
      }
    }
  }

  ghost predicate Injective<T(!new)>(f: T -> real) {
    forall x, y :: f(x) == f(y) ==> x == y
  }

  /** A key function whose tuples all have the same width and never tie. */
  ghost predicate Strict<T(!new)>(rank: T -> Rank, width: nat) {
    && Uniform(rank, width)
    && forall x, y :: rank(x) == rank(y) ==> x == y
  }

  ghost predicate Uniform<T(!new)>(rank: T -> Rank, width: nat) {
    forall x :: |rank(x)| == width
  }

  /** `x` is a value `max(s, key=rank)` may return. */
  ghost predicate IsTop<T(!new)>(s: set<T>, rank: T -> Rank, width: nat, x: T)
    requires Uniform(rank, width)
  {
    x in s && forall y <- s :: !Below(rank(x), rank(y))
  }

  lemma {:induction false} TopExists<T(!new)>(s: set<T>, rank: T -> Rank, width: nat)
    requires Uniform(rank, width) && s != {}
    ensures exists x :: IsTop(s, rank, width, x)
    decreases s
  {
    var z :| z in s;
    var rest := s - {z};
    Trichotomy(rank(z), rank(z));
    if rest == {} {
      assert s == {z};
      assert IsTop(s, rank, width, z);
    } else {
      TopExists(rest, rank, width);
      var x :| IsTop(rest, rank, width, x);
      if Below(rank(x), rank(z)) {
        Trichotomy(rank(x), rank(z));
        forall y | y in s ensures !Below(rank(z), rank(y)) {
          if y != z { Transitive(rank(y), rank(x), rank(z)); }
        }
        assert IsTop(s, rank, width, z);
      } else {
        assert IsTop(s, rank, width, x);
      }
    }
  }

  /** The value `max(s, key=rank)` returns, when keys never tie. */
  ghost function Top<T(!new)>(s: set<T>, rank: T -> Rank, width: nat): (x: T)
    requires Uniform(rank, width) && s != {}
    ensures IsTop(s, rank, width, x)
  {
    TopExists(s, rank, width);
    var x :| IsTop(s, rank, width, x);
    x
  }

  lemma TopUnique<T(!new)>(s: set<T>, rank: T -> Rank, width: nat, x: T)
    requires Strict(rank, width)
    requires IsTop(s, rank, width, x)
    ensures x == Top(s, rank, width)
  {
    Trichotomy(rank(x), rank(Top(s, rank, width)));
  }

  /** `max` over any iteration order: a later element wins only if strictly larger. */
  method Max<T(!new,==)>(s: set<T>, rank: T -> Rank, ghost width: nat) returns (x: T)
    requires Uniform(rank, width) && s != {}
    ensures IsTop(s, rank, width, x)
  {
    x :| x in s;
    var left := s - {x};
    Trichotomy(rank(x), rank(x));
    while left != {}
      invariant x in s && left <= s
      invariant forall y <- s - left :: !Below(rank(x), rank(y))
      decreases left
    {
      var y :| y in left;
      left := left - {y};
      Trichotomy(rank(x), rank(y));
      if Below(rank(x), rank(y)) {
        forall z | z in s - left ensures !Below(rank(y), rank(z)) {
          if z != y { Transitive(rank(z), rank(x), rank(y)); } else { Trichotomy(rank(y), rank(y)); }
        }
        x := y;
      }
    }
  }

  /** The key of Python's `min` over integers. */
  const SMALLEST: int -> Rank := x => [-(x as real)]

  lemma SmallestStrict()
    ensures Strict(SMALLEST, 1)
  {
    forall x: int, y: int | SMALLEST(x) == SMALLEST(y) ensures x == y {
      assert SMALLEST(x)[0] == SMALLEST(y)[0];
    }
  }

  ghost function Least(s: set<int>): (m: int)
    requires s != {}
    ensures m in s && forall x <- s :: m <= x
  {
    SmallestStrict();
    var m := Top(s, SMALLEST, 1);
    assert forall x <- s :: !Below(SMALLEST(m), SMALLEST(x));
    m
  }

  method Min(s: set<int>) returns (m: int)
    requires s != {}
    ensures m == Least(s)
  {
    SmallestStrict();
    m := Max(s, SMALLEST, 1);
    assert forall x <- s :: !Below(SMALLEST(m), SMALLEST(x));
  }
}
