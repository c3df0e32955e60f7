/** Bags of flat tuples.

    A flat tuple maps attribute ids to values. A bag of tuples is written as the
    sequence in which nested loops would produce it; two sequences stand for the
    same bag when one is a permutation of the other (`Perm`).
 */
module Bags {

  type Attr = nat
  type Tuple = map<Attr, int>

  datatype Option<+T> = None | Some(value: T)

  /** Two sequences that hold the same elements equally often. */
  ghost predicate Perm<T>(a: seq<T>, b: seq<T>) {
    multiset(a) == multiset(b)
  }

  lemma PermLength<T>(a: seq<T>, b: seq<T>)
    requires Perm(a, b)
    ensures |a| == |b|
  {
    assert |multiset(a)| == |a| && |multiset(b)| == |b|;
  }

  lemma PermMembers<T>(a: seq<T>, b: seq<T>)
    requires Perm(a, b)
    ensures forall x :: x in a <==> x in b
  {
    forall x ensures x in a <==> x in b {
      assert x in a <==> x in multiset(a);
      assert x in b <==> x in multiset(b);
    }
  }

  lemma MultisetWithout<T>(b: seq<T>, i: nat)
    requires i < |b|
    ensures multiset(b[..i] + b[i + 1..]) == multiset(b) - multiset{b[i]}
  {
    assert b == b[..i] + [b[i]] + b[i + 1..];
  }

  /** A permutation of a non-empty sequence holds its head somewhere, and what is
      left of both is again a permutation. */
  lemma PermSplit<T>(a: seq<T>, b: seq<T>) returns (i: nat)
    requires a != [] && Perm(a, b)
    ensures i < |b| && b[i] == a[0]
    ensures Perm(a[1..], b[..i] + b[i + 1..])
  {
    assert a[0] in multiset(b);
    i :| 0 <= i < |b| && b[i] == a[0];
    MultisetWithout(b, i);
    MultisetWithout(a, 0);
    assert a[..0] + a[1..] == a[1..];
  }

  /** A function on sequences that turns concatenation into concatenation (as bags)
      respects permutation. */
  lemma HomomorphismRespectsPerm<T, U>(f: seq<T> -> seq<U>, a: seq<T>, b: seq<T>)
    requires forall x, y :: Perm(f(x + y), f(x) + f(y))
    requires Perm(a, b)
    ensures Perm(f(a), f(b))
    decreases |a|
  {
    if a == [] {
      assert b == [] by { PermLength(a, b); }
    } else {
      var i := PermSplit(a, b);
      var rest := b[..i] + b[i + 1..];
      HomomorphismRespectsPerm(f, a[1..], rest);
      assert a == [a[0]] + a[1..];
      assert b == b[..i] + ([b[i]] + b[i + 1..]);
      assert Perm(f(a), f([a[0]]) + f(a[1..]));
      assert Perm(f([b[i]] + b[i + 1..]), f([b[i]]) + f(b[i + 1..]));
      assert Perm(f(b), f(b[..i]) + f([b[i]] + b[i + 1..]));
      assert Perm(f(rest), f(b[..i]) + f(b[i + 1..]));
    }
  }

  /** The concatenation of `f` over a sequence: a loop whose body emits `f(x)`. */
  function FlatMap<T, U>(s: seq<T>, f: T -> seq<U>): seq<U> {
    if s == [] then [] else f(s[0]) + FlatMap(s[1..], f)
  }

  lemma FlatMapAppend<T, U>(a: seq<T>, b: seq<T>, f: T -> seq<U>)
    ensures FlatMap(a + b, f) == FlatMap(a, f) + FlatMap(b, f)
  {
    if a == [] {
      assert a + b == b;
    } else {
      assert (a + b)[1..] == a[1..] + b;
      FlatMapAppend(a[1..], b, f);
    }
  }

  lemma FlatMapSame<T, U>(s: seq<T>, f: T -> seq<U>, g: T -> seq<U>)
    requires forall x :: x in s ==> f(x) == g(x)
    ensures FlatMap(s, f) == FlatMap(s, g)
  {}

  lemma FlatMapCong<T, U>(s: seq<T>, f: T -> seq<U>, g: T -> seq<U>)
    requires forall x :: x in s ==> Perm(f(x), g(x))
    ensures Perm(FlatMap(s, f), FlatMap(s, g))
  {}

  lemma FlatMapPerm<T, U>(a: seq<T>, b: seq<T>, f: T -> seq<U>)
    requires Perm(a, b)
    ensures Perm(FlatMap(a, f), FlatMap(b, f))
  {
    var h := s => FlatMap(s, f);
    forall x, y ensures Perm(h(x + y), h(x) + h(y)) { FlatMapAppend(x, y, f); }
    HomomorphismRespectsPerm(h, a, b);
  }

  /** The loop body that runs `f` and then `g`. */
  function Both<T, U>(f: T -> seq<U>, g: T -> seq<U>): T -> seq<U> {
    x => f(x) + g(x)
  }

  lemma FlatMapSum<T, U>(s: seq<T>, f: T -> seq<U>, g: T -> seq<U>)
    ensures Perm(FlatMap(s, Both(f, g)), FlatMap(s, f) + FlatMap(s, g))
  {}

  lemma FlatMapNothing<T, U>(s: seq<T>, f: T -> seq<U>)
    requires forall x :: x in s ==> f(x) == []
    ensures FlatMap(s, f) == []
  {}

  lemma FlatMapSingle<T, U>(x: T, f: T -> seq<U>)
    ensures FlatMap([x], f) == f(x)
  {}

  function Fix1<S, T, U>(g: (S, T) -> seq<U>, x: S): T -> seq<U> {
    y => g(x, y)
  }

  function Fix2<S, T, U>(g: (S, T) -> seq<U>, y: T): S -> seq<U> {
    x => g(x, y)
  }

  /** The loop body that runs over `b` inside. */
  function Inner1<S, T, U>(g: (S, T) -> seq<U>, b: seq<T>): S -> seq<U> {
    x => FlatMap(b, Fix1(g, x))
  }

  function Inner2<S, T, U>(g: (S, T) -> seq<U>, a: seq<S>): T -> seq<U> {
    y => FlatMap(a, Fix2(g, y))
  }

  /** Two independent nested loops may be exchanged. */
  lemma {:induction false} FlatMapExchange<S, T, U>(a: seq<S>, b: seq<T>, g: (S, T) -> seq<U>)
    ensures Perm(FlatMap(a, Inner1(g, b)), FlatMap(b, Inner2(g, a)))
    decreases |a|
  {
    if a == [] {
      FlatMapNothing(b, Inner2(g, a));
    } else {
      var first, others := Fix1(g, a[0]), Inner2(g, a[1..]);
      FlatMapExchange(a[1..], b, g);
      FlatMapSum(b, first, others);
      FlatMapSame(b, Inner2(g, a), Both(first, others));
    }
  }

  /** The loop body that runs `g` on everything `f` emits. */
  function Then<S, T, U>(f: S -> seq<T>, g: T -> seq<U>): S -> seq<U> {
    x => FlatMap(f(x), g)
  }

  /** A loop over the output of a loop. */
  lemma FlatMapNest<S, T, U>(s: seq<S>, f: S -> seq<T>, g: T -> seq<U>)
    ensures FlatMap(FlatMap(s, f), g) == FlatMap(s, Then(f, g))
  {
    if s != [] {
      FlatMapAppend(f(s[0]), FlatMap(s[1..], f), g);
      FlatMapNest(s[1..], f, g);
    }
  }

  //
  // The Cartesian product
  //

  /** `t` extended by every tuple of `b` in turn. */
  function Prefix(t: Tuple, b: seq<Tuple>): (r: seq<Tuple>)
    ensures |r| == |b|
  {
    seq(|b|, i requires 0 <= i < |b| => t + b[i])
  }

  /** Every tuple of `a` beside every tuple of `b`: the nested loop with `a` outside. */
  function Cross(a: seq<Tuple>, b: seq<Tuple>): seq<Tuple> {
    if a == [] then [] else Prefix(a[0], b) + Cross(a[1..], b)
  }

  lemma CrossSize(a: seq<Tuple>, b: seq<Tuple>)
    ensures |Cross(a, b)| == |a| * |b|
  {
    if a != [] {
      CrossSize(a[1..], b);
      assert |a| * |b| == |b| + (|a| - 1) * |b|;
    }
  }

  lemma CrossAppendLeft(a: seq<Tuple>, b: seq<Tuple>, c: seq<Tuple>)
    ensures Cross(a + b, c) == Cross(a, c) + Cross(b, c)
  {
    if a == [] {
      assert a + b == b;
    } else {
      assert (a + b)[1..] == a[1..] + b;
      CrossAppendLeft(a[1..], b, c);
    }
  }

  lemma CrossAppendRight(a: seq<Tuple>, b: seq<Tuple>, c: seq<Tuple>)
    ensures Perm(Cross(a, b + c), Cross(a, b) + Cross(a, c))
  {
    if a != [] {
      assert Prefix(a[0], b + c) == Prefix(a[0], b) + Prefix(a[0], c);
      CrossAppendRight(a[1..], b, c);
    }
  }

  lemma CrossUnit(a: seq<Tuple>)
    ensures Cross([map[]], a) == a
    ensures Cross(a, [map[]]) == a
  {
    var unit: Tuple := map[];
    forall i | 0 <= i < |a| ensures Prefix(unit, a)[i] == a[i] { assert unit + a[i] == a[i]; }
    if a != [] {
      CrossUnit(a[1..]);
      assert a[0] + unit == a[0];
      assert Prefix(a[0], [unit]) == [a[0]];
    }
  }

  lemma CrossEmptyRight(a: seq<Tuple>)
    ensures Cross(a, []) == []
  {}

  lemma PrefixPrefix(t: Tuple, u: Tuple, b: seq<Tuple>)
    ensures Prefix(t + u, b) == Prefix(t, Prefix(u, b))
  {
    forall i | 0 <= i < |b| ensures Prefix(t + u, b)[i] == Prefix(t, Prefix(u, b))[i] {
      assert (t + u) + b[i] == t + (u + b[i]);
    }
  }

  lemma PrefixAppend(t: Tuple, a: seq<Tuple>, b: seq<Tuple>)
    ensures Prefix(t, a + b) == Prefix(t, a) + Prefix(t, b)
  {}

  lemma CrossPrefix(t: Tuple, b: seq<Tuple>, c: seq<Tuple>)
    ensures Cross(Prefix(t, b), c) == Prefix(t, Cross(b, c))
  {
    if b != [] {
      assert Prefix(t, b)[1..] == Prefix(t, b[1..]);
      CrossPrefix(t, b[1..], c);
      PrefixPrefix(t, b[0], c);
      PrefixAppend(t, Prefix(b[0], c), Cross(b[1..], c));
    }
  }

  lemma CrossAssoc(a: seq<Tuple>, b: seq<Tuple>, c: seq<Tuple>)
    ensures Cross(Cross(a, b), c) == Cross(a, Cross(b, c))
  {
    if a != [] {
      CrossAppendLeft(Prefix(a[0], b), Cross(a[1..], b), c);
      CrossPrefix(a[0], b, c);
      CrossAssoc(a[1..], b, c);
    }
  }

  lemma CrossCongLeft(a: seq<Tuple>, a': seq<Tuple>, b: seq<Tuple>)
    requires Perm(a, a')
    ensures Perm(Cross(a, b), Cross(a', b))
  {
    var h := s => Cross(s, b);
    forall x, y ensures Perm(h(x + y), h(x) + h(y)) { CrossAppendLeft(x, y, b); }
    HomomorphismRespectsPerm(h, a, a');
  }

  lemma CrossCongRight(a: seq<Tuple>, b: seq<Tuple>, b': seq<Tuple>)
    requires Perm(b, b')
    ensures Perm(Cross(a, b), Cross(a, b'))
  {
    var h := s => Cross(a, s);
    forall x, y ensures Perm(h(x + y), h(x) + h(y)) { CrossAppendRight(a, x, y); }
    HomomorphismRespectsPerm(h, b, b');
  }

  lemma CrossCong(a: seq<Tuple>, a': seq<Tuple>, b: seq<Tuple>, b': seq<Tuple>)
    requires Perm(a, a') && Perm(b, b')
    ensures Perm(Cross(a, b), Cross(a', b'))
  {
    CrossCongLeft(a, a', b);
    CrossCongRight(a', b, b');
  }

  /** No tuple of `a` shares an attribute with a tuple of `b`. */
  ghost predicate Disjoint(a: seq<Tuple>, b: seq<Tuple>) {
    forall x, y :: x in a && y in b ==> x.Keys !! y.Keys
  }

  lemma CrossSingletonRight(a: seq<Tuple>, t: Tuple)
    requires Disjoint(a, [t])
    ensures Cross(a, [t]) == Prefix(t, a)
  {
    if a != [] {
      assert a[0] in a && t in [t];
      assert Prefix(a[0], [t]) == [t + a[0]] by { assert a[0] + t == t + a[0]; }
      assert forall x :: x in a[1..] ==> x in a;
      CrossSingletonRight(a[1..], t);
      assert Prefix(t, a) == [t + a[0]] + Prefix(t, a[1..]);
    }
  }

  /** Independent bags may be nested either way round. */
  lemma CrossComm(a: seq<Tuple>, b: seq<Tuple>)
    requires Disjoint(a, b)
    ensures Perm(Cross(a, b), Cross(b, a))
    decreases |b|
  {
    if b == [] {
      CrossEmptyRight(a);
    } else {
      assert b == [b[0]] + b[1..];
      assert b[0] in b && forall y :: y in b[1..] ==> y in b;
      CrossAppendRight(a, [b[0]], b[1..]);
      CrossSingletonRight(a, b[0]);
      CrossComm(a, b[1..]);
    }
  }

  function CrossAfter<T>(f: T -> seq<Tuple>, b: seq<Tuple>): T -> seq<Tuple> {
    x => Cross(f(x), b)
  }

  function CrossBefore<T>(a: seq<Tuple>, f: T -> seq<Tuple>): T -> seq<Tuple> {
    x => Cross(a, f(x))
  }

  /** A product with a loop is a loop of products. */
  lemma CrossFlatMapLeft<T>(s: seq<T>, f: T -> seq<Tuple>, b: seq<Tuple>)
    ensures Cross(FlatMap(s, f), b) == FlatMap(s, CrossAfter(f, b))
  {
    if s != [] {
      CrossAppendLeft(f(s[0]), FlatMap(s[1..], f), b);
      CrossFlatMapLeft(s[1..], f, b);
    }
  }

  lemma CrossFlatMapRight<T>(a: seq<Tuple>, s: seq<T>, f: T -> seq<Tuple>)
    ensures Perm(Cross(a, FlatMap(s, f)), FlatMap(s, CrossBefore(a, f)))
  {
    if s == [] {
      CrossEmptyRight(a);
    } else {
      CrossAppendRight(a, f(s[0]), FlatMap(s[1..], f));
      CrossFlatMapRight(a, s[1..], f);
    }
  }

  lemma CrossMembers(a: seq<Tuple>, b: seq<Tuple>, t: Tuple)
    ensures t in Cross(a, b) <==> exists x, y :: x in a && y in b && t == x + y
  {
    if a != [] {
      CrossMembers(a[1..], b, t);
      if t in Prefix(a[0], b) {
        var i :| 0 <= i < |b| && Prefix(a[0], b)[i] == t;
        assert a[0] in a && b[i] in b && t == a[0] + b[i];
      } else if t in Cross(a[1..], b) {
        var x, y :| x in a[1..] && y in b && t == x + y;
        assert x in a;
      }
      if exists x, y :: x in a && y in b && t == x + y {
        var x, y :| x in a && y in b && t == x + y;
        if x == a[0] {
          var i :| 0 <= i < |b| && b[i] == y;
          assert Prefix(a[0], b)[i] == t;
        } else {
          assert x in a[1..];
        }
      }
    }
  }
}
