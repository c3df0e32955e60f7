/** Join graphs over relations of integer rows, and the flat join they ask for. */
module Graphs {
  import opened Bags
  import opened Filters
  import opened KeyPacking
  import opened Ranges

  /** An equality between two relations' columns. */
  datatype Predicate = Predicate(left: nat, leftColumn: nat, right: nat, rightColumn: nat)

  datatype QueryGraph = QueryGraph(columnCounts: seq<nat>, columnTypes: seq<seq<ValueType>>, predicates: seq<Predicate>)

  type Row = seq<int>

  /** The rows of every relation. */
  type Data = seq<seq<Row>>

  function RelationCount(g: QueryGraph): nat {
    |g.columnCounts|
  }

  //
  // Attribute ids
  //

  function Base(counts: seq<nat>, r: nat): nat
    requires r <= |counts|
  {
    if r == 0 then 0 else Base(counts, r - 1) + counts[r - 1]
  }

  function TotalAttributes(g: QueryGraph): nat {
    Base(g.columnCounts, RelationCount(g))
  }

  /** A relation's columns are contiguous from its base. */
  function AttributeOf(g: QueryGraph, r: nat, c: nat): Attr
    requires r < RelationCount(g)
  {
    Base(g.columnCounts, r) + c
  }

  predicate Between(low: nat, a: Attr, high: nat) {
    low <= a < high
  }

  function AttributesOf(g: QueryGraph, r: nat): (attrs: set<Attr>)
    requires r < RelationCount(g)
    ensures forall a: Attr :: a in attrs <==> Base(g.columnCounts, r) <= a < Base(g.columnCounts, r + 1)
  {
    var low, high := Base(g.columnCounts, r), Base(g.columnCounts, r + 1);
    set a: Attr | low <= a < high && Between(low, a, high)
  }

  lemma BaseMonotone(counts: seq<nat>, r: nat, s: nat)
    requires r <= s <= |counts|
    ensures Base(counts, r) <= Base(counts, s)
    decreases s - r
  {
    if r < s { BaseMonotone(counts, r, s - 1); }
  }

  /** Different columns have different ids. */
  lemma AttributeInjective(g: QueryGraph, r: nat, c: nat, s: nat, d: nat)
    requires r < RelationCount(g) && c < g.columnCounts[r] && s < RelationCount(g) && d < g.columnCounts[s]
    ensures AttributeOf(g, r, c) == AttributeOf(g, s, d) <==> r == s && c == d
    ensures AttributeOf(g, r, c) < TotalAttributes(g) && AttributeOf(g, r, c) in AttributesOf(g, r)
  {
    if r < s { BaseMonotone(g.columnCounts, r + 1, s); }
    if s < r { BaseMonotone(g.columnCounts, s + 1, r); }
    BaseMonotone(g.columnCounts, r + 1, RelationCount(g));
  }

  lemma RelationsApart(g: QueryGraph, r: nat, s: nat)
    requires r < RelationCount(g) && s < RelationCount(g) && r != s
    ensures AttributesOf(g, r) !! AttributesOf(g, s)
  {
    if r < s { BaseMonotone(g.columnCounts, r + 1, s); } else { BaseMonotone(g.columnCounts, s + 1, r); }
  }

  lemma AttributesBelow(g: QueryGraph, r: nat)
    requires r < RelationCount(g)
    ensures forall a :: a in AttributesOf(g, r) ==> a < TotalAttributes(g)
  {
    BaseMonotone(g.columnCounts, r + 1, RelationCount(g));
  }

  //
  // Well-formedness
  //

  predicate TypesGiven(g: QueryGraph) {
    |g.columnTypes| == RelationCount(g) && forall r :: 0 <= r < RelationCount(g) ==> |g.columnTypes[r]| == g.columnCounts[r]
  }

  ghost predicate PredicateIn(g: QueryGraph, p: Predicate) {
    && p.left < RelationCount(g) && p.leftColumn < g.columnCounts[p.left]
    && p.right < RelationCount(g) && p.rightColumn < g.columnCounts[p.right]
  }

  ghost predicate ValidGraph(g: QueryGraph) {
    forall p :: p in g.predicates ==> PredicateIn(g, p)
  }

  /** Predicates between two relations compare columns of one width. */
  ghost predicate WidthsAgree(g: QueryGraph) {
    && TypesGiven(g)
    && forall p :: p in g.predicates && PredicateIn(g, p) && p.left != p.right ==>
      g.columnTypes[p.left][p.leftColumn] == g.columnTypes[p.right][p.rightColumn]
  }

  function TypesUpTo(g: QueryGraph, r: nat): Types
    requires TypesGiven(g) && r <= RelationCount(g)
  {
    if r == 0 then map[] else TypesUpTo(g, r - 1) + TypesOfRelation(g, r - 1)
  }

  function TypesOfRelation(g: QueryGraph, r: nat): Types
    requires TypesGiven(g) && r < RelationCount(g)
  {
    map a: Attr | a in AttributesOf(g, r) :: g.columnTypes[r][a - Base(g.columnCounts, r)]
  }

  function TypesIn(g: QueryGraph): Types
    requires TypesGiven(g)
  {
    TypesUpTo(g, RelationCount(g))
  }

  lemma {:induction false} TypesUpToAt(g: QueryGraph, n: nat, r: nat, c: nat)
    requires TypesGiven(g) && r < n <= RelationCount(g) && c < g.columnCounts[r]
    ensures AttributeOf(g, r, c) in TypesUpTo(g, n) && TypesUpTo(g, n)[AttributeOf(g, r, c)] == g.columnTypes[r][c]
  {
    AttributeInjective(g, r, c, r, c);
    if r < n - 1 {
      TypesUpToAt(g, n - 1, r, c);
      RelationsApart(g, r, n - 1);
    }
  }

  lemma TypeOfColumn(g: QueryGraph, r: nat, c: nat)
    requires TypesGiven(g) && r < RelationCount(g) && c < g.columnCounts[r]
    ensures TypeOf(TypesIn(g), AttributeOf(g, r, c)) == g.columnTypes[r][c]
    ensures AttributeOf(g, r, c) in TypesIn(g)
  {
    TypesUpToAt(g, RelationCount(g), r, c);
  }

  //
  // Rows and tuples
  //

  function TupleOf(g: QueryGraph, r: nat, row: Row): Tuple
    requires r < RelationCount(g) && |row| == g.columnCounts[r]
  {
    map a: Attr | a in AttributesOf(g, r) :: row[a - Base(g.columnCounts, r)]
  }

  ghost predicate ValidRow(g: QueryGraph, r: nat, row: Row)
    requires TypesGiven(g) && r < RelationCount(g)
  {
    |row| == g.columnCounts[r] && AllInRange(g.columnTypes[r], row)
  }

  /** Rows come as columns, so a relation without columns has no rows. */
  ghost predicate ValidData(g: QueryGraph, data: Data)
    requires TypesGiven(g)
  {
    && |data| == RelationCount(g)
    && (forall r, i :: 0 <= r < |data| && 0 <= i < |data[r]| ==> ValidRow(g, r, data[r][i]))
    && forall r :: 0 <= r < |data| && g.columnCounts[r] == 0 ==> data[r] == []
  }

  /** A relation as a bag of tuples. */
  ghost function Scanned(g: QueryGraph, data: Data, r: nat): (b: seq<Tuple>)
    requires TypesGiven(g) && ValidData(g, data) && r < RelationCount(g)
    ensures |b| == |data[r]| && forall i :: 0 <= i < |b| ==> b[i] == TupleOf(g, r, data[r][i])
  {
    seq(|data[r]|, i requires 0 <= i < |data[r]| => assert ValidRow(g, r, data[r][i]); TupleOf(g, r, data[r][i]))
  }

  lemma RowRanged(g: QueryGraph, r: nat, row: Row)
    requires TypesGiven(g) && r < RelationCount(g) && ValidRow(g, r, row)
    ensures TupleRanged(TupleOf(g, r, row), TypesIn(g))
  {
    forall a | a in TupleOf(g, r, row) ensures a in TypesIn(g) && InRange(TypesIn(g)[a], TupleOf(g, r, row)[a]) {
      var c := a - Base(g.columnCounts, r);
      TypeOfColumn(g, r, c);
    }
  }

  //
  // Predicates on tuples
  //

  function LeftOf(g: QueryGraph, p: Predicate): Attr
    requires p.left < RelationCount(g)
  {
    AttributeOf(g, p.left, p.leftColumn)
  }

  function RightOf(g: QueryGraph, p: Predicate): Attr
    requires p.right < RelationCount(g)
  {
    AttributeOf(g, p.right, p.rightColumn)
  }

  /** The two columns are there and equal. */
  predicate Sat(t: Tuple, g: QueryGraph, p: Predicate) {
    p.left < RelationCount(g) && p.right < RelationCount(g)
    && LeftOf(g, p) in t && RightOf(g, p) in t && t[LeftOf(g, p)] == t[RightOf(g, p)]
  }

  predicate SatAll(t: Tuple, g: QueryGraph, ps: seq<Predicate>) {
    forall p :: p in ps ==> Sat(t, g, p)
  }

  function Satisfies(g: QueryGraph, ps: seq<Predicate>): Tuple -> bool {
    t => SatAll(t, g, ps)
  }

  /** Every choice of one tuple from each bag. */
  function CrossSeq(bs: seq<seq<Tuple>>): seq<Tuple> {
    if bs == [] then [map[]] else Cross(bs[0], CrossSeq(bs[1..]))
  }

  ghost function ScansOf(g: QueryGraph, data: Data, rs: seq<nat>): (bs: seq<seq<Tuple>>)
    requires TypesGiven(g) && ValidData(g, data) && forall r :: r in rs ==> r < RelationCount(g)
    ensures |bs| == |rs| && forall i :: 0 <= i < |rs| ==> rs[i] in rs && bs[i] == Scanned(g, data, rs[i])
  {
    seq(|rs|, i requires 0 <= i < |rs| => assert rs[i] in rs; Scanned(g, data, rs[i]))
  }

  function Relations(g: QueryGraph): (rs: seq<nat>)
    ensures |rs| == RelationCount(g) && forall i :: 0 <= i < |rs| ==> rs[i] == i
  {
    seq(RelationCount(g), i requires 0 <= i < RelationCount(g) => i)
  }

  /** The combinations of rows, one from every relation, that satisfy the predicates. */
  ghost function FlatJoin(g: QueryGraph, data: Data, ps: seq<Predicate>): seq<Tuple>
    requires TypesGiven(g) && ValidData(g, data)
  {
    Filter(CrossSeq(ScansOf(g, data, Relations(g))), Satisfies(g, ps))
  }

  //
  // Rows as the join keys see them
  //

  /** The bits every column contributes to a key. */
  function Worded(t: Tuple, types: Types): Tuple {
    map a: Attr | a in t :: Unsigned(TypeOf(types, a), t[a])
  }

  /** Wherever one of the predicates compares two columns they have the same bits. */
  function SameWords(g: QueryGraph, ps: seq<Predicate>): Tuple -> bool
    requires TypesGiven(g)
  {
    t => SatAll(Worded(t, TypesIn(g)), g, ps)
  }

  /** The combinations of rows, one from every relation, in which compared columns have the same
      bits. */
  ghost function WordJoin(g: QueryGraph, data: Data, ps: seq<Predicate>): seq<Tuple>
    requires TypesGiven(g) && ValidData(g, data)
  {
    Filter(CrossSeq(ScansOf(g, data, Relations(g))), SameWords(g, ps))
  }

  /** The predicate speaks of attributes of `attrs` only. */
  predicate Within(g: QueryGraph, p: Predicate, attrs: set<Attr>) {
    p.left < RelationCount(g) && p.right < RelationCount(g) && LeftOf(g, p) in attrs && RightOf(g, p) in attrs
  }

  ghost predicate AllKeys(b: seq<Tuple>, attrs: set<Attr>) {
    forall t :: t in b ==> t.Keys == attrs
  }

  //
  // Products of many bags
  //

  lemma {:induction false} CrossSeqAppend(a: seq<seq<Tuple>>, b: seq<seq<Tuple>>)
    ensures CrossSeq(a + b) == Cross(CrossSeq(a), CrossSeq(b))
  {
    if a == [] {
      assert a + b == b;
      CrossUnit(CrossSeq(b));
    } else {
      assert (a + b)[0] == a[0] && (a + b)[1..] == a[1..] + b;
      CrossSeqAppend(a[1..], b);
      CrossAssoc(a[0], CrossSeq(a[1..]), CrossSeq(b));
    }
  }

  lemma CrossSeqSnoc(a: seq<seq<Tuple>>, b: seq<Tuple>)
    ensures CrossSeq(a + [b]) == Cross(CrossSeq(a), b)
  {
    CrossSeqAppend(a, [b]);
    assert [b][1..] == [];
    CrossUnit(b);
  }

  ghost predicate PairwiseDisjoint(bs: seq<seq<Tuple>>) {
    forall i, j :: 0 <= i < |bs| && 0 <= j < |bs| && i != j ==> Disjoint(bs[i], bs[j])
  }

  /** A bag apart from every factor is apart from the product. */
  lemma {:induction false} CrossSeqDisjoint(a: seq<Tuple>, bs: seq<seq<Tuple>>)
    requires forall i :: 0 <= i < |bs| ==> Disjoint(a, bs[i])
    ensures Disjoint(a, CrossSeq(bs))
  {
    if bs != [] {
      CrossSeqDisjoint(a, bs[1..]);
      forall x, t | x in a && t in CrossSeq(bs) ensures x.Keys !! t.Keys {
        CrossMembers(bs[0], CrossSeq(bs[1..]), t);
      }
    }
  }

  /** Any factor may come first. */
  lemma {:induction false} CrossSeqFront(bs: seq<seq<Tuple>>, i: nat)
    requires i < |bs| && PairwiseDisjoint(bs)
    ensures Perm(CrossSeq(bs), Cross(bs[i], CrossSeq(bs[..i] + bs[i + 1..])))
  {
    var pre, x, post := bs[..i], bs[i], bs[i + 1..];
    assert bs == pre + ([x] + post);
    CrossSeqAppend(pre, [x] + post);
    assert ([x] + post)[1..] == post;
    CrossSeqAppend(pre, post);
    forall j | 0 <= j < |pre| ensures Disjoint(x, pre[j]) {}
    CrossSeqDisjoint(x, pre);
    CrossAssoc(CrossSeq(pre), x, CrossSeq(post));
    CrossAssoc(x, CrossSeq(pre), CrossSeq(post));
    CrossComm(x, CrossSeq(pre));
    CrossCongLeft(Cross(CrossSeq(pre), x), Cross(x, CrossSeq(pre)), CrossSeq(post));
  }

  lemma MoveFront(bs: seq<seq<Tuple>>, i: nat, tail: seq<Tuple>)
    requires i < |bs| && PairwiseDisjoint(bs) && Perm(tail, CrossSeq(bs[..i] + bs[i + 1..]))
    ensures Perm(Cross(bs[i], tail), CrossSeq(bs))
  {
    CrossSeqFront(bs, i);
    CrossCongRight(bs[i], tail, CrossSeq(bs[..i] + bs[i + 1..]));
  }

  lemma ScansWithout(g: QueryGraph, data: Data, b: seq<nat>, i: nat, rest: seq<nat>)
    requires TypesGiven(g) && ValidData(g, data) && (forall r :: r in b ==> r < RelationCount(g)) && i < |b|
    requires rest == b[..i] + b[i + 1..] && forall r :: r in rest ==> r < RelationCount(g)
    ensures ScansOf(g, data, rest) == ScansOf(g, data, b)[..i] + ScansOf(g, data, b)[i + 1..]
  {
    hide Scanned;
  }

  ghost predicate Distinct(rs: seq<nat>) {
    forall i, j :: 0 <= i < j < |rs| ==> rs[i] != rs[j]
  }

  lemma DistinctWithout(b: seq<nat>, i: nat)
    requires Distinct(b) && i < |b|
    ensures Distinct(b[..i] + b[i + 1..])
  {}

  /** The order of the relations does not matter. */
  lemma {:induction false} ScansAnyOrder(g: QueryGraph, data: Data, a: seq<nat>, b: seq<nat>)
    requires TypesGiven(g) && ValidData(g, data) && forall r :: r in a ==> r < RelationCount(g)
    requires forall r :: r in b ==> r < RelationCount(g)
    requires Perm(a, b) && Distinct(b)
    ensures Perm(CrossSeq(ScansOf(g, data, a)), CrossSeq(ScansOf(g, data, b)))
    decreases |a|
  {
    PermLength(a, b);
    if a != [] {
      hide Scanned, ValidData, PairwiseDisjoint, Cross, Distinct, CrossSeq, Perm;
      var i := PermSplit(a, b);
      var rest := b[..i] + b[i + 1..];
      assert forall r :: r in a[1..] ==> r in a;
      assert forall r :: r in rest ==> r in b;
      ScansWithout(g, data, b, i, rest);
      DistinctWithout(b, i);
      ScansAnyOrder(g, data, a[1..], rest);
      ScansApart(g, data, b);
      MoveFront(ScansOf(g, data, b), i, CrossSeq(ScansOf(g, data, a[1..])));
      ScansFirst(g, data, a);
    }
  }

  lemma ScansFirst(g: QueryGraph, data: Data, rs: seq<nat>)
    requires TypesGiven(g) && ValidData(g, data) && rs != [] && forall r :: r in rs ==> r < RelationCount(g)
    ensures rs[0] in rs && CrossSeq(ScansOf(g, data, rs)) == Cross(Scanned(g, data, rs[0]), CrossSeq(ScansOf(g, data, rs[1..])))
  {
    hide Scanned, ValidData;
    assert forall r :: r in rs[1..] ==> r in rs;
    assert ScansOf(g, data, rs)[1..] == ScansOf(g, data, rs[1..]);
  }

  lemma ScansApart(g: QueryGraph, data: Data, rs: seq<nat>)
    requires TypesGiven(g) && ValidData(g, data) && forall r :: r in rs ==> r < RelationCount(g)
    requires Distinct(rs)
    ensures PairwiseDisjoint(ScansOf(g, data, rs))
  {
    forall i, j | 0 <= i < |rs| && 0 <= j < |rs| && i != j
      ensures Disjoint(ScansOf(g, data, rs)[i], ScansOf(g, data, rs)[j])
    {
      assert rs[i] in rs && rs[j] in rs;
      RelationsApart(g, rs[i], rs[j]);
    }
  }
}
