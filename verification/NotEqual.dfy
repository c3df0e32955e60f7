/** Counting a join that carries one inequality, as the difference of two equality joins. */
module NotEqual {
  import opened Bags
  import opened FTrees
  import opened Outcomes
  import opened KeyPacking
  import opened Ranges
  import opened Graphs
  import opened Plans
  import opened Filters
  import opened SqlJoins
  import opened Answering
  import opened OneRows
  import opened Executing

  /** Two columns asked to differ. Column positions are signed. */
  datatype Inequality = Inequality(left: nat, leftColumn: int, right: nat, rightColumn: int)

  /** It compares columns of two different relations that are there. */
  predicate Comparable(g: QueryGraph, neq: Inequality) {
    && neq.left < RelationCount(g) && neq.right < RelationCount(g) && neq.left != neq.right
    && 0 <= neq.leftColumn < g.columnCounts[neq.left] && 0 <= neq.rightColumn < g.columnCounts[neq.right]
  }

  /** The inequality as the equality it denies. */
  function Denied(g: QueryGraph, neq: Inequality): (p: Predicate)
    requires Comparable(g, neq)
    ensures PredicateIn(g, p)
  {
    Predicate(neq.left, neq.leftColumn, neq.right, neq.rightColumn)
  }

  /** The graph with the equality added. */
  function EqualGraph(g: QueryGraph, p: Predicate): QueryGraph {
    g.(predicates := g.predicates + [p])
  }

  /** The two columns are there and differ. */
  function Differ(a: Attr, b: Attr): Tuple -> bool {
    (t: Tuple) => a in t && b in t && t[a] != t[b]
  }

  lemma SameScans(g: QueryGraph, data: Data, p: Predicate)
    requires TypesGiven(g) && ValidData(g, data)
    ensures TypesGiven(EqualGraph(g, p)) && ValidData(EqualGraph(g, p), data) && Relations(EqualGraph(g, p)) == Relations(g)
    ensures ScansOf(EqualGraph(g, p), data, Relations(g)) == ScansOf(g, data, Relations(g))
  {
    var e := EqualGraph(g, p);
    forall r, i | 0 <= r < |data| && 0 <= i < |data[r]| ensures ValidRow(e, r, data[r][i]) { assert ValidRow(g, r, data[r][i]); }
    forall r: nat | r < RelationCount(g) ensures Scanned(e, data, r) == Scanned(g, data, r) {
      assert AttributesOf(e, r) == AttributesOf(g, r);
      forall i | 0 <= i < |data[r]| ensures TupleOf(e, r, data[r][i]) == TupleOf(g, r, data[r][i]) { assert ValidRow(g, r, data[r][i]); }
    }
  }

  lemma {:induction false} SameTypes(g: QueryGraph, p: Predicate, r: nat)
    requires TypesGiven(g) && TypesGiven(EqualGraph(g, p)) && r <= RelationCount(g)
    ensures TypesUpTo(EqualGraph(g, p), r) == TypesUpTo(g, r)
  {
    if r > 0 {
      SameTypes(g, p, r - 1);
      assert AttributesOf(EqualGraph(g, p), r - 1) == AttributesOf(g, r - 1);
    }
  }

  /** The predicates are tested the same in either graph. */
  lemma SameSat(t: Tuple, g: QueryGraph, p: Predicate, ps: seq<Predicate>)
    ensures SatAll(t, EqualGraph(g, p), ps) <==> SatAll(t, g, ps)
  {
    forall q | q in ps ensures Sat(t, EqualGraph(g, p), q) <==> Sat(t, g, q) {}
  }

  /** A test splits what passes another one into what passes both and what fails it. */
  lemma {:induction false} PassOrFail(b: seq<Tuple>, f: Tuple -> bool, both: Tuple -> bool, fails: Tuple -> bool)
    requires forall t :: t in b ==> both(t) == (f(t) && !fails(t))
    ensures |Filter(b, f)| == |Filter(b, both)| + |Filter(Filter(b, f), fails)|
  {
    if b != [] {
      assert b[0] in b && forall t :: t in b[1..] ==> t in b;
      PassOrFail(b[1..], f, both, fails);
      FilterCons(b[0], Filter(b[1..], f), fails);
    }
  }

  lemma {:induction false} NonSelfAppend(ps: seq<Predicate>, p: Predicate)
    requires p.left != p.right
    ensures NonSelf(ps + [p]) == NonSelf(ps) + [p]
  {
    if ps != [] {
      NonSelfAppend(ps[1..], p);
      assert (ps + [p])[0] == ps[0] && (ps + [p])[1..] == ps[1..] + [p];
    } else {
      assert ps + [p] == [p];
    }
  }

  /** The two columns have different bits. */
  function BitsDiffer(g: QueryGraph, p: Predicate): Tuple -> bool
    requires TypesGiven(g) && PredicateIn(g, p)
  {
    t => Differ(LeftOf(g, p), RightOf(g, p))(Worded(t, TypesIn(g)))
  }

  /** What one more equality makes of a row that has the columns. */
  lemma OneMore(g: QueryGraph, p: Predicate, ps: seq<Predicate>, t: Tuple)
    requires PredicateIn(g, p) && LeftOf(g, p) in t && RightOf(g, p) in t
    ensures SatAll(t, EqualGraph(g, p), ps + [p]) <==> SatAll(t, g, ps) && !Differ(LeftOf(g, p), RightOf(g, p))(t)
  {
    SameSat(t, g, p, ps + [p]);
    assert SatAll(t, g, ps + [p]) <==> SatAll(t, g, ps) && Sat(t, g, p);
  }

  lemma BothStored(g: QueryGraph, data: Data, p: Predicate)
    requires TypesGiven(g) && ValidData(g, data) && PredicateIn(g, p)
    ensures forall t :: t in CrossSeq(ScansOf(g, data, Relations(g))) ==> LeftOf(g, p) in t && RightOf(g, p) in t
  {
    hide CrossSeq, AttributesOf;
    CrossKeys(g, data, Relations(g));
    RelationsBelow(g);
    EveryAttribute(g, p.left, p.leftColumn);
    EveryAttribute(g, p.right, p.rightColumn);
  }

  /** The rows found are those in which the columns have the same bits and those in which they do
      not, and the first are what is found with the equality added. So the difference the program
      takes is never negative, whatever the widths. */
  lemma EqualTermPlusAnswer(g: QueryGraph, data: Data, p: Predicate)
    requires TypesGiven(g) && ValidData(g, data) && PredicateIn(g, p) && p.left != p.right
    ensures TypesGiven(EqualGraph(g, p)) && ValidData(EqualGraph(g, p), data)
    ensures |FoundRows(g, data)| == |FoundRows(EqualGraph(g, p), data)| + |Filter(FoundRows(g, data), BitsDiffer(g, p))|
  {
    hide CrossSeq, SatAll, Worded, Differ, LeftOf, RightOf;
    var e, ps, b := EqualGraph(g, p), NonSelf(g.predicates), CrossSeq(ScansOf(g, data, Relations(g)));
    SameScans(g, data, p);
    SameTypes(g, p, RelationCount(g));
    NonSelfAppend(g.predicates, p);
    BothStored(g, data, p);
    forall t | t in b ensures SameWords(e, ps + [p])(t) == (SameWords(g, ps)(t) && !BitsDiffer(g, p)(t)) {
      WordedKeys(t, TypesIn(g));
      OneMore(g, p, ps, Worded(t, TypesIn(g)));
    }
    PassOrFail(b, SameWords(g, ps), SameWords(e, ps + [p]), BitsDiffer(g, p));
  }

  /** The same for the rows of the join and the values of the columns. */
  lemma EqualTermPlusJoin(g: QueryGraph, data: Data, p: Predicate)
    requires TypesGiven(g) && ValidData(g, data) && PredicateIn(g, p) && p.left != p.right
    ensures TypesGiven(EqualGraph(g, p)) && ValidData(EqualGraph(g, p), data)
    ensures |JoinRows(g, data)|
         == |JoinRows(EqualGraph(g, p), data)| + |Filter(JoinRows(g, data), Differ(LeftOf(g, p), RightOf(g, p)))|
  {
    hide CrossSeq, SatAll, Differ, LeftOf, RightOf;
    var e, ps, b := EqualGraph(g, p), NonSelf(g.predicates), CrossSeq(ScansOf(g, data, Relations(g)));
    SameScans(g, data, p);
    NonSelfAppend(g.predicates, p);
    BothStored(g, data, p);
    forall t | t in b
      ensures Satisfies(e, ps + [p])(t) == (Satisfies(g, ps)(t) && !Differ(LeftOf(g, p), RightOf(g, p))(t))
    {
      OneMore(g, p, ps, t);
    }
    PassOrFail(b, Satisfies(g, ps), Satisfies(e, ps + [p]), Differ(LeftOf(g, p), RightOf(g, p)));
  }

  /** What stays of a query when its graph and plan are replaced. */
  datatype Running = Running(mode: JoinMode, strategy: PathStrategy, keyHash: nat -> nat, rowHash: Row -> nat, budget: nat)

  /** Plans one term and counts it. */
  method CountTerm(g: QueryGraph, how: Running, data: Data) returns (r: Outcome<nat>)
    requires TypesGiven(g) && ValidGraph(g) && ValidData(g, data) && RelationCount(g) > 0
    ensures r.Ok? ==> r.value == |FoundRows(g, data)|
    ensures r == Failed(KeyTooWide) ==> how.strategy == NAIVE && !WidthsAgree(g)
    ensures r.Failed? ==> r.error in {NoPlan, KeyTooWide, OutOfMemory, Overflow}
  {
    hide Planned, Covers, FoundRows, JoinRows, WidthsAgree, StepsFit;
    var plan := BuildPlan(g);
    if !plan.complete { return Failed(NoPlan); }
    r := ExecuteCount(Query(g, plan, how.mode, how.strategy, how.keyHash, how.rowHash, how.budget), data);
    if how.strategy == LEVELWISE || WidthsAgree(g) { PlannedFits(g, plan.steps, how.strategy); }
    PlannedIn(g, plan.steps);
  }

  /** The rows counted: those found whose columns have different bits. */
  ghost function DifferingRows(g: QueryGraph, data: Data, p: Predicate): seq<Tuple>
    requires TypesGiven(g) && ValidData(g, data) && PredicateIn(g, p)
  {
    Filter(FoundRows(g, data), BitsDiffer(g, p))
  }

  /** The rows asked for: those of the join whose columns differ. */
  ghost function UnequalRows(g: QueryGraph, data: Data, p: Predicate): seq<Tuple>
    requires TypesGiven(g) && ValidData(g, data) && PredicateIn(g, p)
  {
    Filter(JoinRows(g, data), Differ(LeftOf(g, p), RightOf(g, p)))
  }

  lemma DifferingAreUnequal(g: QueryGraph, data: Data, p: Predicate)
    requires TypesGiven(g) && ValidGraph(g) && ValidData(g, data) && PredicateIn(g, p) && p.left != p.right
    requires WidthsAgree(EqualGraph(g, p))
    ensures |DifferingRows(g, data, p)| == |UnequalRows(g, data, p)|
  {
    hide FoundRows, JoinRows, ValidData, WidthsAgree, ValidGraph, BitsDiffer, Differ;
    ValidWith(g, p);
    EqualTermPlusAnswer(g, data, p);
    EqualTermPlusJoin(g, data, p);
    FoundAsAsked(g, data);
    FoundAsAsked(EqualGraph(g, p), data);
  }

  /** The difference of the two terms. */
  method CountDiffering(g: QueryGraph, p: Predicate, how: Running, data: Data) returns (r: Outcome<nat>)
    requires TypesGiven(g) && ValidGraph(g) && ValidData(g, data) && PredicateIn(g, p) && p.left != p.right
    ensures r.Ok? ==> r.value == |DifferingRows(g, data, p)|
    ensures r == Failed(KeyTooWide) ==> how.strategy == NAIVE && !WidthsAgree(EqualGraph(g, p))
    ensures r.Failed? ==> r.error in {NoPlan, KeyTooWide, OutOfMemory, Overflow}
  {
    hide FoundRows, JoinRows, ValidData, WidthsAgree, ValidGraph, BitsDiffer, Differ;
    EqualTermPlusAnswer(g, data, p);
    ValidWith(g, p);
    var all :- CountTerm(g, how, data);
    var equal :- CountTerm(EqualGraph(g, p), how, data);
    return Ok(all - equal);
  }

  /** The positions of rows in which two columns have different values. */
  ghost function UnequalAt(b: seq<Tuple>, x: Attr, y: Attr): set<nat> {
    set i: nat | i < |b| && x in b[i] && y in b[i] && b[i][x] != b[i][y]
  }

  ghost predicate WordsDiffer(t: Tuple, types: Types, x: Attr, y: Attr) {
    x in t && y in t && Unsigned(TypeOf(types, x), t[x]) != Unsigned(TypeOf(types, y), t[y])
  }

  /** The positions of rows in which two columns have different bits. */
  ghost function DifferingAt(b: seq<Tuple>, types: Types, x: Attr, y: Attr): set<nat> {
    set i: nat | i < |b| && WordsDiffer(b[i], types, x, y)
  }

  lemma DifferIs(g: QueryGraph, p: Predicate, t: Tuple)
    requires TypesGiven(g) && PredicateIn(g, p)
    ensures BitsDiffer(g, p)(t)
         == WordsDiffer(t, TypesIn(g), AttributeOf(g, p.left, p.leftColumn), AttributeOf(g, p.right, p.rightColumn))
  {
    var u, types := Worded(t, TypesIn(g)), TypesIn(g);
    var a, b := AttributeOf(g, p.left, p.leftColumn), AttributeOf(g, p.right, p.rightColumn);
    assert LeftOf(g, p) == a && RightOf(g, p) == b;
    assert BitsDiffer(g, p)(t) == Differ(LeftOf(g, p), RightOf(g, p))(Worded(t, TypesIn(g)));
    assert Differ(a, b)(u) == (a in u && b in u && u[a] != u[b]);
    assert a in t ==> u[a] == Unsigned(TypeOf(types, a), t[a]);
    assert b in t ==> u[b] == Unsigned(TypeOf(types, b), t[b]);
  }

  /** A count that comes back is the number of rows found in which the two columns have different
      bits; where all widths agree that is the number of join rows in which they differ. A request
      is refused exactly when the columns are not there or are on one relation. */
  method ExecuteCountNotEqual(g: QueryGraph, neq: Inequality, how: Running, data: Data) returns (r: Outcome<nat>)
    requires TypesGiven(g) && ValidGraph(g) && ValidData(g, data)
    ensures r == Failed(BadRequest) <==>
      || neq.left >= |g.columnCounts| || neq.right >= |g.columnCounts| || neq.left == neq.right
      || !(0 <= neq.leftColumn < g.columnCounts[neq.left]) || !(0 <= neq.rightColumn < g.columnCounts[neq.right])
    ensures r.Ok? ==> Comparable(g, neq) && r.value == |DifferingRows(g, data, Denied(g, neq))|
    ensures r.Ok? && WidthsAgree(EqualGraph(g, Denied(g, neq))) ==> r.value == |UnequalRows(g, data, Denied(g, neq))|
    ensures r.Ok? ==> var a, b := AttributeOf(g, neq.left, neq.leftColumn), AttributeOf(g, neq.right, neq.rightColumn);
      && r.value == |DifferingAt(FoundRows(g, data), TypesIn(g), a, b)|
      && (WidthsAgree(EqualGraph(g, Denied(g, neq))) ==> r.value == |UnequalAt(JoinRows(g, data), a, b)|)
    ensures r == Failed(KeyTooWide) ==> Comparable(g, neq) && how.strategy == NAIVE && !WidthsAgree(EqualGraph(g, Denied(g, neq)))
    ensures r.Failed? ==> r.error in {BadRequest, NoPlan, KeyTooWide, OutOfMemory, Overflow}
  {
    hide DifferingRows, UnequalRows, WidthsAgree, ValidGraph, ValidData;
    if neq.left >= RelationCount(g) || neq.right >= RelationCount(g) { return Failed(BadRequest); }
    if neq.left == neq.right { return Failed(BadRequest); }
    if neq.leftColumn < 0 || neq.rightColumn < 0
      || neq.leftColumn >= g.columnCounts[neq.left] || neq.rightColumn >= g.columnCounts[neq.right] {
      return Failed(BadRequest);
    }
    r := CountDiffering(g, Denied(g, neq), how, data);
    if WidthsAgree(EqualGraph(g, Denied(g, neq))) { DifferingAreUnequal(g, data, Denied(g, neq)); }
    DifferingCounted(g, data, Denied(g, neq));
  }

  lemma DifferingCounted(g: QueryGraph, data: Data, p: Predicate)
    requires TypesGiven(g) && ValidGraph(g) && ValidData(g, data) && PredicateIn(g, p)
    ensures |DifferingRows(g, data, p)|
         == |DifferingAt(FoundRows(g, data), TypesIn(g), AttributeOf(g, p.left, p.leftColumn), AttributeOf(g, p.right, p.rightColumn))|
    ensures |UnequalRows(g, data, p)|
         == |UnequalAt(JoinRows(g, data), AttributeOf(g, p.left, p.leftColumn), AttributeOf(g, p.right, p.rightColumn))|
  {
    hide FoundRows, JoinRows, Unsigned, TypesIn;
    var a, b := AttributeOf(g, p.left, p.leftColumn), AttributeOf(g, p.right, p.rightColumn);
    FilterCounts(FoundRows(g, data), BitsDiffer(g, p));
    FilterCounts(JoinRows(g, data), Differ(a, b));
    forall t | t in FoundRows(g, data) ensures BitsDiffer(g, p)(t) == WordsDiffer(t, TypesIn(g), a, b) { DifferIs(g, p, t); }
    assert Passing(FoundRows(g, data), BitsDiffer(g, p)) == DifferingAt(FoundRows(g, data), TypesIn(g), a, b);
    assert Passing(JoinRows(g, data), Differ(a, b)) == UnequalAt(JoinRows(g, data), a, b);
  }

  lemma ValidWith(g: QueryGraph, p: Predicate)
    requires TypesGiven(g) && ValidGraph(g) && PredicateIn(g, p)
    ensures ValidGraph(EqualGraph(g, p)) && (WidthsAgree(EqualGraph(g, p)) ==> WidthsAgree(g))
  {
    var e := EqualGraph(g, p);
    forall q | q in e.predicates ensures PredicateIn(e, q) { assert q == p || (q in g.predicates && PredicateIn(g, q)); }
    if WidthsAgree(e) {
      forall q | q in g.predicates && PredicateIn(g, q) && q.left != q.right
        ensures g.columnTypes[q.left][q.leftColumn] == g.columnTypes[q.right][q.rightColumn]
      {
        assert q in e.predicates && PredicateIn(e, q);
      }
    }
  }
}
