/** Data with one row per relation, its values given column by column: the rows combine in exactly
    one way, so whether a join has a row is whether that combination passes its predicates. */
module OneRows {
  import opened Bags
  import opened Filters
  import opened KeyPacking
  import opened Graphs
  import opened Answering

  function RowBy(g: QueryGraph, f: Attr -> int, r: nat): Row
    requires r < RelationCount(g)
  {
    seq(g.columnCounts[r], c requires 0 <= c < g.columnCounts[r] => f(AttributeOf(g, r, c)))
  }

  /** One row per relation, carrying the values of `f`. */
  function DataBy(g: QueryGraph, f: Attr -> int): (data: Data) {
    seq(RelationCount(g), r requires 0 <= r < RelationCount(g) => [RowBy(g, f, r)])
  }

  /** Every relation has a column, and `f` keeps to the columns' widths. */
  ghost predicate Storable(g: QueryGraph, f: Attr -> int)
    requires TypesGiven(g)
  {
    && (forall r :: 0 <= r < RelationCount(g) ==> g.columnCounts[r] > 0)
    && forall r, c :: 0 <= r < RelationCount(g) && 0 <= c < g.columnCounts[r] ==> InRange(g.columnTypes[r][c], f(AttributeOf(g, r, c)))
  }

  lemma DataByValid(g: QueryGraph, f: Attr -> int)
    requires TypesGiven(g) && Storable(g, f)
    ensures ValidData(g, DataBy(g, f))
  {
    forall r | 0 <= r < RelationCount(g) ensures ValidRow(g, r, RowBy(g, f, r)) {}
  }

  ghost predicate Carries(t: Tuple, f: Attr -> int) {
    forall a :: a in t ==> t[a] == f(a)
  }

  lemma ScanBy(g: QueryGraph, f: Attr -> int, r: nat)
    requires TypesGiven(g) && r < RelationCount(g) && ValidData(g, DataBy(g, f))
    ensures var b := Scanned(g, DataBy(g, f), r); |b| == 1 && Carries(b[0], f)
  {
    var row, b := RowBy(g, f, r), Scanned(g, DataBy(g, f), r);
    assert DataBy(g, f)[r] == [row] && |b| == 1;
    forall a | a in b[0] ensures b[0][a] == f(a) {
      var c := a - Base(g.columnCounts, r);
      assert 0 <= c < g.columnCounts[r] && AttributeOf(g, r, c) == a;
    }
  }

  lemma OneByOne(a: seq<Tuple>, b: seq<Tuple>, f: Attr -> int)
    requires |a| == 1 && |b| == 1 && Carries(a[0], f) && Carries(b[0], f)
    ensures |Cross(a, b)| == 1 && Carries(Cross(a, b)[0], f)
  {
    assert Cross(a, b) == Prefix(a[0], b) + Cross(a[1..], b);
    assert Prefix(a[0], b)[0] == a[0] + b[0];
  }

  lemma {:induction false} CrossBy(g: QueryGraph, f: Attr -> int, rs: seq<nat>)
    requires TypesGiven(g) && (forall r :: r in rs ==> r < RelationCount(g)) && ValidData(g, DataBy(g, f))
    ensures var c := CrossSeq(ScansOf(g, DataBy(g, f), rs)); |c| == 1 && Carries(c[0], f)
    decreases |rs|
  {
    if rs != [] {
      hide Carries, DataBy, Scanned;
      var data := DataBy(g, f);
      assert rs[0] in rs && forall r :: r in rs[1..] ==> r in rs;
      CrossBy(g, f, rs[1..]);
      assert ScansOf(g, data, rs)[1..] == ScansOf(g, data, rs[1..]);
      ScanBy(g, f, rs[0]);
      OneByOne(Scanned(g, data, rs[0]), CrossSeq(ScansOf(g, data, rs[1..])), f);
    }
  }

  lemma RelationsBelow(g: QueryGraph)
    ensures forall r :: r in Relations(g) ==> r < RelationCount(g)
  {}

  lemma EveryAttribute(g: QueryGraph, r: nat, c: nat)
    requires r < RelationCount(g) && c < g.columnCounts[r]
    requires forall q :: q in Relations(g) ==> q < RelationCount(g)
    ensures AttributeOf(g, r, c) in AttrsJoined(g, Relations(g)) && AttributeOf(g, r, c) < TotalAttributes(g)
  {
    AttributeInjective(g, r, c, r, c);
    assert Relations(g)[r] == r && r in Relations(g);
  }

  /** The tuple has every column, with the value of `f`. */
  ghost predicate Holds(t: Tuple, g: QueryGraph, f: Attr -> int) {
    forall r, c :: 0 <= r < RelationCount(g) && 0 <= c < g.columnCounts[r] ==>
      AttributeOf(g, r, c) in t && t[AttributeOf(g, r, c)] == f(AttributeOf(g, r, c))
  }

  /** The rows combine in one way, and the joins have that combination or nothing. */
  lemma OneCombination(g: QueryGraph, f: Attr -> int) returns (t: Tuple)
    requires TypesGiven(g) && Storable(g, f)
    ensures ValidData(g, DataBy(g, f)) && Holds(t, g, f)
    ensures forall ps :: FlatJoin(g, DataBy(g, f), ps) == if SatAll(t, g, ps) then [t] else []
    ensures forall ps :: WordJoin(g, DataBy(g, f), ps) == if SameWords(g, ps)(t) then [t] else []
  {
    hide SatAll, Worded, DataBy;
    var data, rs := DataBy(g, f), Relations(g);
    DataByValid(g, f);
    RelationsBelow(g);
    CrossBy(g, f, rs);
    CrossKeys(g, data, rs);
    var all := CrossSeq(ScansOf(g, data, rs));
    t := all[0];
    assert t in all && all == [t];
    forall r, c | 0 <= r < RelationCount(g) && 0 <= c < g.columnCounts[r] ensures AttributeOf(g, r, c) in t { EveryAttribute(g, r, c); }
    forall ps ensures FlatJoin(g, data, ps) == if SatAll(t, g, ps) then [t] else [] { FilterOne(t, Satisfies(g, ps)); }
    forall ps ensures WordJoin(g, data, ps) == if SameWords(g, ps)(t) then [t] else [] { FilterOne(t, SameWords(g, ps)); }
  }

  lemma FilterOne<T>(t: T, f: T -> bool)
    ensures Filter([t], f) == if f(t) then [t] else []
  {
    assert [t][1..] == [];
  }

  //
  // Relations without columns
  //

  predicate NoColumns(g: QueryGraph) {
    exists r :: 0 <= r < RelationCount(g) && g.columnCounts[r] == 0
  }

  lemma {:induction false} EmptyFactor(bs: seq<seq<Tuple>>, i: nat)
    requires i < |bs| && bs[i] == []
    ensures CrossSeq(bs) == []
  {
    if i == 0 {
      assert Cross([], CrossSeq(bs[1..])) == [];
    } else {
      EmptyFactor(bs[1..], i - 1);
      CrossEmptyRight(bs[0]);
    }
  }

  /** A relation without columns has no rows, so nothing joins. */
  lemma NothingJoins(g: QueryGraph, data: Data, ps: seq<Predicate>)
    requires TypesGiven(g) && ValidData(g, data) && NoColumns(g)
    ensures FlatJoin(g, data, ps) == [] && WordJoin(g, data, ps) == []
  {
    var r: nat :| r < RelationCount(g) && g.columnCounts[r] == 0;
    RelationsBelow(g);
    var bs := ScansOf(g, data, Relations(g));
    assert bs[r] == Scanned(g, data, r) && |Scanned(g, data, r)| == |data[r]| == 0;
    EmptyFactor(bs, r);
  }
}
