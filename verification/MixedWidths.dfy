/** What comparing packed words instead of values does to a join: nothing, whatever the rows,
    exactly when every predicate between two relations compares columns of one width. */
module MixedWidths {
  import opened Bags
  import opened KeyPacking
  import opened Ranges
  import opened Restructuring
  import opened Graphs
  import opened Plans
  import opened Answering
  import opened OneRows

  /** A predicate between two relations whose columns differ in width. */
  ghost predicate Mixed(g: QueryGraph, p: Predicate)
    requires TypesGiven(g)
  {
    p in g.predicates && PredicateIn(g, p) && p.left != p.right
    && g.columnTypes[p.left][p.leftColumn] != g.columnTypes[p.right][p.rightColumn]
  }

  lemma SomeMixed(g: QueryGraph) returns (p: Predicate)
    requires TypesGiven(g) && !WidthsAgree(g)
    ensures Mixed(g, p)
  {
    p :| p in g.predicates && PredicateIn(g, p) && p.left != p.right
      && g.columnTypes[p.left][p.leftColumn] != g.columnTypes[p.right][p.rightColumn];
  }

  /** The type an attribute is stored in. */
  function AttributeType(g: QueryGraph, a: Attr): ValueType
    requires TypesGiven(g)
  {
    TypeOf(TypesIn(g), a)
  }

  function MinusOne(): Attr -> int {
    (a: Attr) => -1
  }

  /** Minus one in narrow columns, and in wide ones the number with the same low bits. */
  function LowOnes(g: QueryGraph): Attr -> int
    requires TypesGiven(g)
  {
    (a: Attr) => if AttributeType(g, a) == INT32 then -1 else TWO32 - 1
  }

  lemma Stored(g: QueryGraph)
    requires TypesGiven(g) && !NoColumns(g)
    ensures Storable(g, MinusOne()) && Storable(g, LowOnes(g))
  {
    hide TypesIn;
    forall r, c | 0 <= r < RelationCount(g) && 0 <= c < g.columnCounts[r]
      ensures InRange(g.columnTypes[r][c], LowOnes(g)(AttributeOf(g, r, c)))
    {
      TypeOfColumn(g, r, c);
    }
  }

  /** The two columns of a predicate, in a tuple that holds every column. */
  lemma Compared(g: QueryGraph, p: Predicate, t: Tuple, f: Attr -> int)
    requires TypesGiven(g) && PredicateIn(g, p) && Holds(t, g, f)
    ensures Sat(t, g, p) <==> f(LeftOf(g, p)) == f(RightOf(g, p))
    ensures Sat(Worded(t, TypesIn(g)), g, p)
      <==> Unsigned(g.columnTypes[p.left][p.leftColumn], f(LeftOf(g, p))) == Unsigned(g.columnTypes[p.right][p.rightColumn], f(RightOf(g, p)))
  {
    hide TypesIn, Unsigned;
    TypeOfColumn(g, p.left, p.leftColumn);
    TypeOfColumn(g, p.right, p.rightColumn);
    assert LeftOf(g, p) in t && RightOf(g, p) in t;
  }

  /** Minus one as a narrow and as a wide word differ, so a row the query has is not found. */
  lemma MinusOneMissed(g: QueryGraph, p: Predicate)
    requires TypesGiven(g) && ValidGraph(g) && Mixed(g, p) && !NoColumns(g)
    ensures var data := DataBy(g, MinusOne()); ValidData(g, data) && |JoinRows(g, data)| == 1 && |FoundRows(g, data)| == 0
  {
    hide FlatJoin, WordJoin, DataBy, Sat, Worded, TypesIn;
    Stored(g);
    var t := OneCombination(g, MinusOne());
    NonSelfMembers(g.predicates);
    forall q | q in NonSelf(g.predicates) ensures Sat(t, g, q) { Compared(g, q, t, MinusOne()); }
    Compared(g, p, t, MinusOne());
    assert p in NonSelf(g.predicates) && !Sat(Worded(t, TypesIn(g)), g, p);
  }

  lemma LowOneOf(g: QueryGraph, r: nat, c: nat)
    requires TypesGiven(g) && r < RelationCount(g) && c < g.columnCounts[r]
    ensures var t, v := g.columnTypes[r][c], LowOnes(g)(AttributeOf(g, r, c));
      v == (if t == INT32 then -1 else TWO32 - 1) && Unsigned(t, v) == TWO32 - 1
  {
    hide TypesIn;
    TypeOfColumn(g, r, c);
  }

  /** Values that share their low bits look alike, so a row the query does not have is found. */
  lemma LowOnesFound(g: QueryGraph, p: Predicate)
    requires TypesGiven(g) && ValidGraph(g) && Mixed(g, p) && !NoColumns(g)
    ensures var data := DataBy(g, LowOnes(g)); ValidData(g, data) && |JoinRows(g, data)| == 0 && |FoundRows(g, data)| == 1
  {
    hide FlatJoin, WordJoin, DataBy, Sat, Worded, TypesIn, Unsigned, LowOnes;
    Stored(g);
    var f := LowOnes(g);
    var t := OneCombination(g, f);
    NonSelfMembers(g.predicates);
    forall q | q in NonSelf(g.predicates) ensures Sat(Worded(t, TypesIn(g)), g, q) {
      assert PredicateIn(g, q);
      Compared(g, q, t, f);
      LowOneOf(g, q.left, q.leftColumn);
      LowOneOf(g, q.right, q.rightColumn);
    }
    Compared(g, p, t, f);
    LowOneOf(g, p.left, p.leftColumn);
    LowOneOf(g, p.right, p.rightColumn);
    assert p in NonSelf(g.predicates) && !Sat(t, g, p);
  }

  /** The rows found are counted like the rows asked for, on all data, exactly when every predicate
      between two relations compares columns of one width, or there is never a row at all. */
  lemma CountsExactIffWidthsAgree(g: QueryGraph)
    requires TypesGiven(g) && ValidGraph(g)
    ensures (forall data: Data :: ValidData(g, data) ==> |FoundRows(g, data)| == |JoinRows(g, data)|) <==> WidthsAgree(g) || NoColumns(g)
  {
    hide FoundRows, JoinRows;
    if NoColumns(g) {
      forall data: Data | ValidData(g, data) ensures |FoundRows(g, data)| == |JoinRows(g, data)| {
        NothingJoins(g, data, NonSelf(g.predicates));
        NothingFound(g, data);
      }
    } else if WidthsAgree(g) {
      forall data: Data | ValidData(g, data) ensures |FoundRows(g, data)| == |JoinRows(g, data)| { FoundAsAsked(g, data); }
    } else {
      var p := SomeMixed(g);
      MinusOneMissed(g, p);
    }
  }

  /** An edge has a column on either side. */
  lemma StepHasColumns(g: QueryGraph, steps: seq<PlanStep>, i: nat)
    requires 0 < i < |steps| && StepConnects(g, steps, i) && steps[0].relation < RelationCount(g)
    ensures steps[i].relation < RelationCount(g) && g.columnCounts[steps[i].relation] > 0
    ensures i == 1 ==> g.columnCounts[steps[0].relation] > 0
  {
    var e := steps[i].edges[0];
    assert e in steps[i].edges && PredicateIn(g, e);
    if i == 1 {
      assert RelationsOf(steps[..1]) == [steps[0].relation];
      assert SetOf(RelationsOf(steps[..1])) == {steps[0].relation};
    }
  }

  /** A relation that is joined to others has columns to join it by. */
  lemma PlannedHasColumns(g: QueryGraph, steps: seq<PlanStep>)
    requires TypesGiven(g) && Planned(g, steps) && Covers(g, steps) && RelationCount(g) > 1
    ensures !NoColumns(g)
  {
    hide StepLands, StepConnects;
    AllRelations(g, steps);
    assert steps[0] in steps;
    forall r: nat | r < RelationCount(g) ensures g.columnCounts[r] > 0 {
      PermMembers(RelationsOf(steps), Relations(g));
      assert Relations(g)[r] == r && r in Relations(g);
      var i: nat :| i < |steps| && steps[i].relation == r;
      assert StepConnects(g, steps, if i == 0 then 1 else i);
      StepHasColumns(g, steps, if i == 0 then 1 else i);
    }
  }

  /** The same for a graph that has a plan, where some row always is possible. */
  lemma PlannedCountsExactIff(g: QueryGraph, steps: seq<PlanStep>)
    requires TypesGiven(g) && ValidGraph(g) && Planned(g, steps) && Covers(g, steps)
    ensures (forall data: Data :: ValidData(g, data) ==> |FoundRows(g, data)| == |JoinRows(g, data)|) <==> WidthsAgree(g)
  {
    hide FoundRows, JoinRows, Planned, Covers;
    CountsExactIffWidthsAgree(g);
    if RelationCount(g) > 1 {
      PlannedHasColumns(g, steps);
    } else {
      assert WidthsAgree(g);
    }
  }

  lemma NothingFound(g: QueryGraph, data: Data)
    requires TypesGiven(g) && ValidData(g, data) && NoColumns(g)
    ensures FoundRows(g, data) == [] && JoinRows(g, data) == []
  {
    NothingJoins(g, data, NonSelf(g.predicates));
  }

  /** Where widths are mixed the executor may miss rows of the join, and may find rows that are
      none. */
  lemma MixedWidthsMiscount(g: QueryGraph) returns (missed: Data, extra: Data)
    requires TypesGiven(g) && ValidGraph(g) && !WidthsAgree(g) && !NoColumns(g)
    ensures ValidData(g, missed) && |FoundRows(g, missed)| < |JoinRows(g, missed)|
    ensures ValidData(g, extra) && |FoundRows(g, extra)| > |JoinRows(g, extra)|
  {
    hide FoundRows, JoinRows, DataBy;
    var p := SomeMixed(g);
    MinusOneMissed(g, p);
    LowOnesFound(g, p);
    missed, extra := DataBy(g, MinusOne()), DataBy(g, LowOnes(g));
  }
}
