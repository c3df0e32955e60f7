/** What grouping means: folds of bags, and how groups pass through products. */
module Groups {
  import opened Bags
  import opened Checked
  import opened Outcomes
  import opened Sums
  import opened Folds

  datatype Kind = COUNT | SUM | AVG | MIN | MAX | SUM_PRODUCT

  datatype Aggregate = Aggregate(kind: Kind, attr: Attr)

  predicate IsExtreme(a: Aggregate) { a.kind == MIN || a.kind == MAX }

  predicate IsSum(a: Aggregate) { a.kind == SUM || a.kind == AVG }

  predicate WantsMax(a: Aggregate) { a.kind == MAX }

  /** What a set of tuples contributes: how many there are, and per aggregate what its column
      sums to and its extreme. */
  datatype Fold = Fold(count: nat, sums: seq<int>, extremes: seq<int>)

  //
  // Folds of bags
  //

  /** `value` as it is, or against a zero that no tuple carries. */
  function Tainted(dirty: bool, value: int, wantMax: bool): int {
    if dirty then Better(0, value, wantMax) else value
  }

  ghost predicate AggregateIs(f: Fold, b: seq<Tuple>, dirty: bool, a: Aggregate, i: nat)
    requires i < |f.sums| && i < |f.extremes|
  {
    && (IsSum(a) ==> f.sums[i] == SumOf(b, a.attr))
    && (IsExtreme(a) ==> Int64(f.extremes[i]) && f.extremes[i] == Held(b, dirty, a))
  }

  /** The extreme of a bag as a fold holds it. */
  function Held(b: seq<Tuple>, d: bool, a: Aggregate): int {
    if b == [] then Identity(WantsMax(a)) else Tainted(d, ExtremeOf(b, a.attr, WantsMax(a)), WantsMax(a))
  }

  /** The fold holds the numbers of the bag. With `dirty` set, every extreme has been compared
      with zero on the way. */
  ghost predicate FoldIs(f: Fold, b: seq<Tuple>, dirty: bool, aggs: seq<Aggregate>) {
    && f.count == |b| && |f.sums| == |f.extremes| == |aggs|
    && forall i :: 0 <= i < |aggs| ==> AggregateIs(f, b, dirty, aggs[i], i)
  }

  ghost predicate InRanges(b: seq<Tuple>, aggs: seq<Aggregate>) {
    forall i :: 0 <= i < |aggs| ==> InRange64(b, aggs[i].attr)
  }

  ghost predicate AllOneSided(a: seq<Tuple>, b: seq<Tuple>, aggs: seq<Aggregate>) {
    forall i :: 0 <= i < |aggs| ==> OneSided(a, b, aggs[i].attr)
  }

  lemma SumPerm(a: seq<Tuple>, b: seq<Tuple>, x: Attr)
    requires Perm(a, b)
    ensures SumOf(a, x) == SumOf(b, x)
    decreases |a|
  {
    PermLength(a, b);
    if a != [] {
      var i := PermSplit(a, b);
      SumPerm(a[1..], b[..i] + b[i + 1..], x);
      assert b == b[..i] + ([b[i]] + b[i + 1..]) && ([b[i]] + b[i + 1..])[1..] == b[i + 1..];
      SumAppend(b[..i], [b[i]] + b[i + 1..], x);
      SumAppend(b[..i], b[i + 1..], x);
    }
  }

  /** An extreme is the value that bounds and is attained, so it does not depend on the order. */
  lemma ExtremePerm(a: seq<Tuple>, b: seq<Tuple>, x: Attr, wantMax: bool)
    requires Perm(a, b) && InRange64(a, x)
    ensures InRange64(b, x) && ExtremeOf(a, x, wantMax) == ExtremeOf(b, x, wantMax)
  {
    PermMembers(a, b);
    ExtremeIs(a, x, wantMax);
    ExtremeIs(b, x, wantMax);
  }

  lemma FoldPerm(f: Fold, a: seq<Tuple>, b: seq<Tuple>, dirty: bool, aggs: seq<Aggregate>)
    requires FoldIs(f, a, dirty, aggs) && Perm(a, b) && InRanges(a, aggs)
    ensures FoldIs(f, b, dirty, aggs) && InRanges(b, aggs)
  {
    PermLength(a, b);
    forall i | 0 <= i < |aggs| ensures AggregateIs(f, b, dirty, aggs[i], i) && InRange64(b, aggs[i].attr) {
      assert AggregateIs(f, a, dirty, aggs[i], i);
      SumPerm(a, b, aggs[i].attr);
      ExtremePerm(a, b, aggs[i].attr, WantsMax(aggs[i]));
    }
  }

  //
  // The two operations on folds
  //

  /** Independent sets: a semiring product. */
  method Combine(a: Fold, b: Fold, aggs: seq<Aggregate>, ghost p: seq<Tuple>, ghost q: seq<Tuple>, ghost d: bool, ghost e: bool)
    returns (r: Outcome<Fold>)
    requires FoldIs(a, p, d, aggs) && FoldIs(b, q, e, aggs) && AllOneSided(p, q, aggs) && InRanges(p, aggs) && InRanges(q, aggs)
    ensures r.Ok? ==> FoldIs(r.value, Cross(p, q), d || e, aggs)
    ensures InRanges(Cross(p, q), aggs)
  {
    hide SumOf, ExtremeOf, Cross;
    CrossSize(p, q);
    forall i | 0 <= i < |aggs| ensures InRange64(Cross(p, q), aggs[i].attr) { CrossRanges(p, q, aggs[i].attr); }
    var count :- Times(a.count, b.count);
    var sums: seq<int>, extremes: seq<int> := [], [];
    for i := 0 to |aggs|
      invariant |sums| == |extremes| == i
      invariant forall j :: 0 <= j < i ==> AggregateIs(Fold(count, sums, extremes), Cross(p, q), d || e, aggs[j], j)
    {
      assert AggregateIs(a, p, d, aggs[i], i) && AggregateIs(b, q, e, aggs[i], i);
      if IsExtreme(aggs[i]) {
        CombineExtremes(p, q, aggs[i], d, e);
        extremes := extremes + [if a.count == 0 || b.count == 0 then Identity(WantsMax(aggs[i]))
                                else Better(a.extremes[i], b.extremes[i], WantsMax(aggs[i]))];
        sums := sums + [0];
      } else {
        SumCross(p, q, aggs[i].attr);
        var left :- TimesInt(a.sums[i], b.count);
        var right :- TimesInt(a.count, b.sums[i]);
        var sum :- PlusInt(left, right);
        sums, extremes := sums + [sum], extremes + [0];
      }
    }
    return Ok(Fold(count, sums, extremes));
  }

  lemma CombineExtremes(p: seq<Tuple>, q: seq<Tuple>, a: Aggregate, d: bool, e: bool)
    requires OneSided(p, q, a.attr) && InRange64(p, a.attr) && InRange64(q, a.attr)
    ensures |Cross(p, q)| == |p| * |q|
    ensures p != [] && q != [] ==>
      && Cross(p, q) != []
      && Better(Tainted(d, ExtremeOf(p, a.attr, WantsMax(a)), WantsMax(a)),
                Tainted(e, ExtremeOf(q, a.attr, WantsMax(a)), WantsMax(a)), WantsMax(a))
         == Tainted(d || e, ExtremeOf(Cross(p, q), a.attr, WantsMax(a)), WantsMax(a))
  {
    CrossSize(p, q);
    if p != [] && q != [] {
      ExtremeCross(p, q, a.attr, WantsMax(a));
      CrossNotEmpty(p, q);
    }
  }

  lemma CrossNotEmpty(p: seq<Tuple>, q: seq<Tuple>)
    requires p != [] && q != []
    ensures Cross(p, q) != []
  {
    CrossMembers(p, q, p[0] + q[0]);
    assert p[0] in p && q[0] in q;
  }

  /** Alternatives: everything adds. */
  method Alternatives(a: Fold, b: Fold, aggs: seq<Aggregate>, ghost p: seq<Tuple>, ghost q: seq<Tuple>, ghost d: bool)
    returns (r: Outcome<Fold>)
    requires FoldIs(a, p, d, aggs) && FoldIs(b, q, d, aggs) && InRanges(p, aggs) && InRanges(q, aggs)
    ensures r.Ok? ==> FoldIs(r.value, p + q, d, aggs)
    ensures InRanges(p + q, aggs)
  {
    hide SumOf, ExtremeOf;
    var count :- Plus(a.count, b.count);
    var sums: seq<int>, extremes: seq<int> := [], [];
    for i := 0 to |aggs|
      invariant |sums| == |extremes| == i
      invariant forall j :: 0 <= j < i ==> AggregateIs(Fold(count, sums, extremes), p + q, d, aggs[j], j)
    {
      assert AggregateIs(a, p, d, aggs[i], i) && AggregateIs(b, q, d, aggs[i], i);
      if IsExtreme(aggs[i]) {
        AlternativeExtremes(p, q, aggs[i], d);
        extremes := extremes + [Better(a.extremes[i], b.extremes[i], WantsMax(aggs[i]))];
        sums := sums + [0];
      } else {
        SumAppend(p, q, aggs[i].attr);
        var sum :- PlusInt(a.sums[i], b.sums[i]);
        sums, extremes := sums + [sum], extremes + [0];
      }
    }
    return Ok(Fold(count, sums, extremes));
  }

  lemma AlternativeExtremes(p: seq<Tuple>, q: seq<Tuple>, a: Aggregate, d: bool)
    requires InRange64(p, a.attr) && InRange64(q, a.attr)
    ensures Better(Held(p, d, a), Held(q, d, a), WantsMax(a)) == Held(p + q, d, a)
  {
    ExtremeAppend(p, q, a.attr, WantsMax(a));
    ExtremeInRange(p, a.attr, WantsMax(a));
    ExtremeInRange(q, a.attr, WantsMax(a));
    if p == [] { assert p + q == q; }
    if q == [] { assert p + q == p; }
  }

  //
  // Groups
  //

  /** The grouping row once the key columns the tuple carries are written into it. */
  function RowFor(row: seq<int>, t: Tuple, keys: seq<Attr>): (r: seq<int>)
    requires |row| == |keys|
    ensures |r| == |keys|
  {
    seq(|keys|, p requires 0 <= p < |keys| => if keys[p] in t then t[keys[p]] else row[p])
  }

  /** The tuples that write this row. */
  function Group(b: seq<Tuple>, row: seq<int>, keys: seq<Attr>, k: seq<int>): seq<Tuple>
    requires |row| == |keys|
  {
    if b == [] then []
    else if RowFor(row, b[0], keys) == k then [b[0]] + Group(b[1..], row, keys, k)
    else Group(b[1..], row, keys, k)
  }

  lemma {:induction false} GroupAppend(a: seq<Tuple>, b: seq<Tuple>, row: seq<int>, keys: seq<Attr>, k: seq<int>)
    requires |row| == |keys|
    ensures Group(a + b, row, keys, k) == Group(a, row, keys, k) + Group(b, row, keys, k)
  {
    if a == [] {
      assert a + b == b;
    } else {
      assert (a + b)[0] == a[0] && (a + b)[1..] == a[1..] + b;
      GroupAppend(a[1..], b, row, keys, k);
    }
  }

  lemma GroupPerm(a: seq<Tuple>, b: seq<Tuple>, row: seq<int>, keys: seq<Attr>, k: seq<int>)
    requires |row| == |keys| && Perm(a, b)
    ensures Perm(Group(a, row, keys, k), Group(b, row, keys, k))
  {
    var h := s => Group(s, row, keys, k);
    forall x, y ensures Perm(h(x + y), h(x) + h(y)) { GroupAppend(x, y, row, keys, k); }
    HomomorphismRespectsPerm(h, a, b);
  }

  lemma {:induction false} GroupMembers(b: seq<Tuple>, row: seq<int>, keys: seq<Attr>, k: seq<int>)
    requires |row| == |keys|
    ensures forall t :: t in Group(b, row, keys, k) <==> t in b && RowFor(row, t, keys) == k
  {
    if b != [] {
      GroupMembers(b[1..], row, keys, k);
      assert b == [b[0]] + b[1..];
    }
  }

  /** Rows that differ only where the tuples write give the same groups. */
  lemma {:induction false} GroupSameRow(b: seq<Tuple>, row: seq<int>, other: seq<int>, keys: seq<Attr>, k: seq<int>)
    requires |row| == |other| == |keys|
    requires forall t, p :: t in b && 0 <= p < |keys| && keys[p] !in t ==> row[p] == other[p]
    ensures Group(b, row, keys, k) == Group(b, other, keys, k)
  {
    if b != [] {
      assert b[0] in b && forall t :: t in b[1..] ==> t in b;
      assert RowFor(row, b[0], keys) == RowFor(other, b[0], keys);
      GroupSameRow(b[1..], row, other, keys, k);
    }
  }

  ghost predicate OneRow(b: seq<Tuple>, row: seq<int>, keys: seq<Attr>, k: seq<int>)
    requires |row| == |keys|
  {
    forall t :: t in b ==> RowFor(row, t, keys) == k
  }

  lemma {:induction false} GroupOneRow(b: seq<Tuple>, row: seq<int>, keys: seq<Attr>, own: seq<int>, k: seq<int>)
    requires |row| == |keys| && OneRow(b, row, keys, own)
    ensures Group(b, row, keys, k) == if own == k then b else []
  {
    if b != [] {
      assert b[0] in b && forall t :: t in b[1..] ==> t in b;
      GroupOneRow(b[1..], row, keys, own, k);
      assert b == [b[0]] + b[1..];
    }
  }

  lemma {:induction false} GroupPrefix(x: Tuple, b: seq<Tuple>, row: seq<int>, keys: seq<Attr>, k: seq<int>)
    requires |row| == |keys| && forall y :: y in b ==> x.Keys !! y.Keys
    ensures Group(Prefix(x, b), row, keys, k) == Prefix(x, Group(b, RowFor(row, x, keys), keys, k))
  {
    if b != [] {
      assert b[0] in b && forall y :: y in b[1..] ==> y in b;
      assert Prefix(x, b)[0] == x + b[0] && Prefix(x, b)[1..] == Prefix(x, b[1..]);
      GroupPrefix(x, b[1..], row, keys, k);
      assert RowFor(row, x + b[0], keys) == RowFor(RowFor(row, x, keys), b[0], keys);
      var rest := Group(b[1..], RowFor(row, x, keys), keys, k);
      assert Prefix(x, [b[0]] + rest) == [x + b[0]] + Prefix(x, rest);
    }
  }

  /** Tuples of one row beside another factor: the factor's groups, from that row on. */
  lemma {:induction false} GroupCross(a: seq<Tuple>, b: seq<Tuple>, row: seq<int>, keys: seq<Attr>, own: seq<int>, k: seq<int>)
    requires |row| == |keys| == |own| && OneRow(a, row, keys, own) && Disjoint(a, b)
    ensures Group(Cross(a, b), row, keys, k) == Cross(a, Group(b, own, keys, k))
  {
    if a != [] {
      assert a[0] in a && forall t :: t in a[1..] ==> t in a;
      GroupAppend(Prefix(a[0], b), Cross(a[1..], b), row, keys, k);
      GroupPrefix(a[0], b, row, keys, k);
      GroupCross(a[1..], b, row, keys, own, k);
    }
  }

  /** The tuples whose row is one of `ks`. */
  function GroupsIn(b: seq<Tuple>, row: seq<int>, keys: seq<Attr>, ks: set<seq<int>>): seq<Tuple>
    requires |row| == |keys|
  {
    if b == [] then []
    else if RowFor(row, b[0], keys) in ks then [b[0]] + GroupsIn(b[1..], row, keys, ks)
    else GroupsIn(b[1..], row, keys, ks)
  }

  lemma {:induction false} OneMoreGroup(b: seq<Tuple>, row: seq<int>, keys: seq<Attr>, ks: set<seq<int>>, k: seq<int>)
    requires |row| == |keys| && k !in ks
    ensures Perm(GroupsIn(b, row, keys, ks + {k}), GroupsIn(b, row, keys, ks) + Group(b, row, keys, k))
  {
    hide RowFor;
    if b != [] {
      hide Perm;
      OneMoreGroup(b[1..], row, keys, ks, k);
      OneMoreTuple(b[0], GroupsIn(b[1..], row, keys, ks + {k}), GroupsIn(b[1..], row, keys, ks), Group(b[1..], row, keys, k));
    }
  }

  lemma OneMoreTuple<T>(x: T, a: seq<T>, b: seq<T>, c: seq<T>)
    requires Perm(a, b + c)
    ensures Perm([x] + a, ([x] + b) + c) && Perm([x] + a, b + ([x] + c))
  {}

  lemma {:induction false} AllGroups(b: seq<Tuple>, row: seq<int>, keys: seq<Attr>, ks: set<seq<int>>)
    requires |row| == |keys| && forall t :: t in b ==> RowFor(row, t, keys) in ks
    ensures GroupsIn(b, row, keys, ks) == b
  {
    if b != [] {
      assert b[0] in b && forall t :: t in b[1..] ==> t in b;
      AllGroups(b[1..], row, keys, ks);
      assert b == [b[0]] + b[1..];
    }
  }

  lemma {:induction false} NoGroups(b: seq<Tuple>, row: seq<int>, keys: seq<Attr>)
    requires |row| == |keys|
    ensures GroupsIn(b, row, keys, {}) == []
  {
    if b != [] { NoGroups(b[1..], row, keys); }
  }
}
