/** Parts of a bag: those that pass a test, and those whose hash leaves a given residue. */
module Filters {
  import opened Bags

  function Filter<T>(b: seq<T>, f: T -> bool): (r: seq<T>)
    ensures |r| <= |b|
  {
    if b == [] then [] else if f(b[0]) then [b[0]] + Filter(b[1..], f) else Filter(b[1..], f)
  }

  lemma {:induction false} FilterMembers<T>(b: seq<T>, f: T -> bool)
    ensures forall x :: x in Filter(b, f) <==> x in b && f(x)
  {
    if b != [] {
      FilterMembers(b[1..], f);
      assert b == [b[0]] + b[1..];
    }
  }

  lemma {:induction false} FilterAppend<T>(a: seq<T>, b: seq<T>, f: T -> bool)
    ensures Filter(a + b, f) == Filter(a, f) + Filter(b, f)
  {
    if a == [] {
      assert a + b == b;
    } else {
      assert (a + b)[0] == a[0] && (a + b)[1..] == a[1..] + b;
      FilterAppend(a[1..], b, f);
    }
  }

  lemma FilterPerm<T>(a: seq<T>, b: seq<T>, f: T -> bool)
    requires Perm(a, b)
    ensures Perm(Filter(a, f), Filter(b, f))
  {
    var h := s => Filter(s, f);
    forall x, y ensures Perm(h(x + y), h(x) + h(y)) { FilterAppend(x, y, f); }
    HomomorphismRespectsPerm(h, a, b);
  }

  lemma {:induction false} FilterSame<T>(b: seq<T>, f: T -> bool, g: T -> bool)
    requires forall x :: x in b ==> f(x) == g(x)
    ensures Filter(b, f) == Filter(b, g)
  {
    if b != [] {
      assert b[0] in b && forall x :: x in b[1..] ==> x in b;
      FilterSame(b[1..], f, g);
    }
  }

  lemma {:induction false} FilterAll<T>(b: seq<T>, f: T -> bool)
    ensures (forall x :: x in b ==> f(x)) <==> |Filter(b, f)| == |b|
    ensures (forall x :: x in b ==> f(x)) ==> Filter(b, f) == b
  {
    if b != [] {
      FilterAll(b[1..], f);
      assert b == [b[0]] + b[1..] && b[0] in b && forall x :: x in b[1..] ==> x in b;
    }
  }

  function Both<T>(f: T -> bool, g: T -> bool): T -> bool {
    x => f(x) && g(x)
  }

  lemma {:induction false} FilterTwice<T>(b: seq<T>, f: T -> bool, g: T -> bool)
    ensures Filter(Filter(b, f), g) == Filter(b, Both(f, g))
  {
    if b != [] {
      FilterTwice(b[1..], f, g);
      if f(b[0]) { assert Filter(b, f)[0] == b[0] && Filter(b, f)[1..] == Filter(b[1..], f); }
    }
  }

  /** A test that is one of two exclusive ones splits the bag in two. */
  lemma {:induction false} FilterSplit<T>(b: seq<T>, f: T -> bool, p: T -> bool, q: T -> bool)
    requires forall x :: x in b ==> f(x) == (p(x) || q(x)) && !(p(x) && q(x))
    ensures Perm(Filter(b, f), Filter(b, p) + Filter(b, q))
  {
    if b != [] {
      assert b[0] in b && forall x :: x in b[1..] ==> x in b;
      FilterSplit(b[1..], f, p, q);
      SplitOne(b[0], Filter(b[1..], f), Filter(b[1..], p), Filter(b[1..], q));
    }
  }

  lemma SplitOne<T>(x: T, a: seq<T>, b: seq<T>, c: seq<T>)
    requires Perm(a, b + c)
    ensures Perm([x] + a, ([x] + b) + c) && Perm([x] + a, b + ([x] + c))
  {}

  lemma PrefixCons(t: Tuple, b: seq<Tuple>)
    requires b != []
    ensures Prefix(t, b) == [t + b[0]] + Prefix(t, b[1..])
  {}

  lemma FilterCons<T>(x: T, b: seq<T>, f: T -> bool)
    ensures Filter([x] + b, f) == if f(x) then [x] + Filter(b, f) else Filter(b, f)
  {
    assert ([x] + b)[1..] == b;
  }

  /** A test on a product that tests its factors separately. */
  lemma {:induction false} FilterPrefix(t: Tuple, b: seq<Tuple>, f: Tuple -> bool, fb: Tuple -> bool)
    requires forall y :: y in b ==> f(t + y) == fb(y)
    ensures Filter(Prefix(t, b), f) == Prefix(t, Filter(b, fb))
  {
    if b != [] {
      assert b[0] in b && forall y :: y in b[1..] ==> y in b;
      var rest := Filter(b[1..], fb);
      FilterPrefix(t, b[1..], f, fb);
      PrefixCons(t, b);
      PrefixCons(t, [b[0]] + rest);
      FilterCons(t + b[0], Prefix(t, b[1..]), f);
    }
  }

  lemma {:induction false} FilterCross(a: seq<Tuple>, b: seq<Tuple>, f: Tuple -> bool, fa: Tuple -> bool, fb: Tuple -> bool)
    requires forall x, y :: x in a && y in b ==> f(x + y) == (fa(x) && fb(y))
    ensures Filter(Cross(a, b), f) == Cross(Filter(a, fa), Filter(b, fb))
  {
    if a != [] {
      assert a[0] in a && forall x :: x in a[1..] ==> x in a;
      FilterAppend(Prefix(a[0], b), Cross(a[1..], b), f);
      FilterCross(a[1..], b, f, fa, fb);
      if fa(a[0]) {
        FilterPrefix(a[0], b, f, fb);
      } else {
        FilterPrefix(a[0], b, f, Never);
        FilterNever(b);
      }
    }
  }

  predicate Never(t: Tuple) { false }

  lemma {:induction false} FilterNever(b: seq<Tuple>)
    ensures Filter(b, Never) == []
  {
    if b != [] { FilterNever(b[1..]); }
  }

  lemma {:induction false} FilterNone<T>(b: seq<T>, f: T -> bool)
    requires forall x :: x in b ==> !f(x)
    ensures Filter(b, f) == []
  {
    if b != [] {
      assert b[0] in b && forall x :: x in b[1..] ==> x in b;
      FilterNone(b[1..], f);
    }
  }

  /** A stricter test lets nothing more through. */
  lemma {:induction false} FilterStricter<T>(b: seq<T>, f: T -> bool, h: T -> bool)
    requires forall x :: x in b && f(x) ==> h(x)
    ensures multiset(Filter(b, f)) <= multiset(Filter(b, h))
  {
    if b != [] {
      assert b[0] in b && forall x :: x in b[1..] ==> x in b;
      FilterStricter(b[1..], f, h);
    }
  }

  lemma {:induction false} FilterSublist<T>(b: seq<T>, f: T -> bool)
    ensures multiset(Filter(b, f)) <= multiset(b)
  {
    if b != [] {
      FilterSublist(b[1..], f);
      assert b == [b[0]] + b[1..];
    }
  }

  //
  // Cutting a bag by tests of which nothing passes two
  //

  ghost predicate Exclusive<T(!new)>(at: nat -> T -> bool, n: nat) {
    forall x: T, i, j :: 0 <= i < j < n ==> !(at(i)(x) && at(j)(x))
  }

  /** One of the first `n` tests lets it through. */
  function AnyOf<T>(at: nat -> T -> bool, n: nat): T -> bool {
    x => exists i :: 0 <= i < n && at(i)(x)
  }

  /** What each of the first `n` tests lets through, one after the other. */
  function Pieces<T>(b: seq<T>, at: nat -> T -> bool, n: nat): seq<T> {
    if n == 0 then [] else Pieces(b, at, n - 1) + Filter(b, at(n - 1))
  }

  /** Put together, the pieces are what passes some test. */
  lemma {:induction false} PiecesAre<T(!new)>(b: seq<T>, at: nat -> T -> bool, n: nat)
    requires Exclusive(at, n)
    ensures Perm(Pieces(b, at, n), Filter(b, AnyOf(at, n)))
  {
    if n == 0 {
      FilterNone(b, AnyOf(at, 0));
    } else {
      PiecesAre(b, at, n - 1);
      forall x | x in b
        ensures AnyOf(at, n)(x) == (AnyOf(at, n - 1)(x) || at(n - 1)(x)) && !(AnyOf(at, n - 1)(x) && at(n - 1)(x))
      {
        LastOf(at, n, x);
      }
      FilterSplit(b, AnyOf(at, n), AnyOf(at, n - 1), at(n - 1));
    }
  }

  lemma LastOf<T(!new)>(at: nat -> T -> bool, n: nat, x: T)
    requires n > 0 && Exclusive(at, n)
    ensures AnyOf(at, n)(x) == (AnyOf(at, n - 1)(x) || at(n - 1)(x)) && !(AnyOf(at, n - 1)(x) && at(n - 1)(x))
  {}

  /** Tests one of which everything passes partition the bag. */
  lemma PiecesPartition<T(!new)>(b: seq<T>, at: nat -> T -> bool, n: nat)
    requires Exclusive(at, n) && forall x :: x in b ==> AnyOf(at, n)(x)
    ensures Perm(Pieces(b, at, n), b)
  {
    PiecesAre(b, at, n);
    FilterAll(b, AnyOf(at, n));
  }

  /** Pieces of pieces: the first `n` are never more than all of them. */
  lemma {:induction false} PiecesGrow<T>(b: seq<T>, at: nat -> T -> bool, n: nat, k: nat)
    requires n <= k
    ensures |Pieces(b, at, n)| <= |Pieces(b, at, k)|
  {
    if n < k { PiecesGrow(b, at, n, k - 1); }
  }

  //
  // Moduli
  //

  /** A residue of a finer modulus is a residue of the coarser one and of what is left over. */
  lemma FinerModulus(h: nat, m: nat, f: nat)
    requires m > 0 && f > 0
    ensures m * f > 0 && h % (m * f) == h % m + ((h / m) % f) * m
  {
    var q, r := h / m, h % m;
    var q2, p := q / f, q % f;
    assert h == q * m + r && q == q2 * f + p;
    Nested(q2, f, p, m);
    assert h == q2 * (m * f) + (p * m + r);
    Bounded(p, f, m, r);
    Unique(h, m * f, q2, p * m + r);
  }

  lemma Nested(q2: nat, f: nat, p: nat, m: nat)
    ensures (q2 * f + p) * m == q2 * (m * f) + p * m
  {}

  lemma Bounded(p: nat, f: nat, m: nat, r: nat)
    requires p < f && r < m
    ensures p * m + r < m * f && m * f > 0
  {
    assert (p + 1) * m <= f * m;
  }

  lemma Unique(h: nat, d: nat, q: nat, r: nat)
    requires d > 0 && h == q * d + r && r < d
    ensures h % d == r && h / d == q
  {
    var k := h / d - q;
    assert h == (h / d) * d + h % d;
    assert k * d == r - h % d by { assert (h / d) * d - q * d == k * d; }
    var z: int := d;
    assert k >= 1 ==> k * z >= z;
    assert k <= -1 ==> k * z <= -z;
  }

  lemma SameDigits(a: nat, p: nat, r: nat, part: nat, m: nat)
    requires a < m && r < m
    ensures a + p * m == r + part * m <==> a == r && p == part
  {
    if a + p * m == r + part * m {
      Unique(a + p * m, m, p, a);
      Unique(r + part * m, m, part, r);
    }
  }

  //
  // Counting what passes
  //

  /** The positions of the elements that pass. */
  ghost function Passing<T>(b: seq<T>, f: T -> bool): set<nat> {
    set i: nat | i < |b| && f(b[i])
  }

  lemma {:induction false} FilterCounts<T>(b: seq<T>, f: T -> bool)
    ensures |Filter(b, f)| == |Passing(b, f)|
    decreases |b|
  {
    if b == [] {
      assert Passing(b, f) == {};
    } else {
      var n := |b| - 1;
      FilterCounts(b[..n], f);
      assert b == b[..n] + [b[n]];
      FilterAppend(b[..n], [b[n]], f);
      LastPasses(b[..n], b[n], f);
    }
  }

  lemma LastPasses<T>(rest: seq<T>, last: T, f: T -> bool)
    ensures Passing(rest + [last], f) == Passing(rest, f) + (if f(last) then {|rest|} else {}) && |rest| !in Passing(rest, f)
    ensures Filter([last], f) == if f(last) then [last] else []
  {
    assert [last][1..] == [];
  }
}
