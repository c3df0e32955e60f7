/** The rows of the join themselves, up to a limit. */
module Materializing {
  import opened Bags
  import opened FReps
  import opened FTrees
  import opened Transforming
  import opened Joins
  import opened Outcomes
  import opened FRepMethods
  import opened Graphs
  import opened Equalities
  import opened Plans
  import opened Answering
  import opened Executing
  import Building
  import Enumerating

  /** A join row in the order of the columns. */
  function WholeRow(g: QueryGraph, t: Tuple): Row {
    seq(TotalAttributes(g), a requires 0 <= a < TotalAttributes(g) => if a in t then t[a] else 0)
  }

  function WholeRows(g: QueryGraph, b: seq<Tuple>): (rows: seq<Row>)
    ensures |rows| == |b| && forall i :: 0 <= i < |b| ==> rows[i] == WholeRow(g, b[i])
  {
    seq(|b|, i requires 0 <= i < |b| => WholeRow(g, b[i]))
  }

  /** These are the first of the tuples, as many as the limit asks for (0 for all of them), each with the
      value of every column in its place. */
  ghost predicate FirstOf(rows: seq<Row>, order: seq<Tuple>, columns: nat, limit: nat) {
    && |rows| == (if limit == 0 || |order| < limit then |order| else limit)
    && forall i :: 0 <= i < |rows| ==> Shown(rows[i], order[i], columns)
  }

  ghost predicate Shown(row: Row, t: Tuple, columns: nat) {
    |row| == columns && forall a :: 0 <= a < columns ==> a in t && t[a] == row[a]
  }

  /** What is materialized of rows found is shown whole. */
  lemma FoundShown(q: Query, data: Data, rows: seq<Row>, order: seq<Tuple>, limit: nat)
    requires TypesGiven(q.graph) && ValidData(q.graph, data) && multiset(order) <= multiset(FoundRows(q.graph, data))
    requires rows == WholeRows(q.graph, order)[..Enumerating.Wanted(limit, |order|)]
    ensures FirstOf(rows, order, TotalAttributes(q.graph), limit)
  {
    hide FoundRows, WholeRow;
    var g := q.graph;
    Building.FoundWhole(g, data);
    forall i | 0 <= i < |rows| ensures Shown(rows[i], order[i], TotalAttributes(g)) {
      assert order[i] in multiset(order) && order[i] in FoundRows(g, data) + JoinRows(g, data);
      RowShown(g, order[i]);
    }
  }

  lemma RowShown(g: QueryGraph, t: Tuple)
    requires forall x: Attr :: x < TotalAttributes(g) ==> x in t
    ensures Shown(WholeRow(g, t), t, TotalAttributes(g))
  {}

  datatype Source = Source(attribute: Attr) | Missing

  /** The attribute a column's value is read from: its own where the tree stores it, otherwise an
      equal one the tree does store. */
  method SourceOf(g: QueryGraph, tree: FNode, wanted: Attr, classes: EquivalenceClasses) returns (s: Source)
    requires classes.Valid() && |classes.roots| == TotalAttributes(g) && wanted < TotalAttributes(g)
    modifies classes`parent
    ensures classes.Valid()
    ensures s.Source? ==> s.attribute in AttrSet(tree) && s.attribute < |classes.roots|
    ensures s.Source? ==> classes.roots[s.attribute] == classes.roots[wanted]
    ensures wanted in AttrSet(tree) ==> s == Source(wanted)
  {
    hide LeadTo;
    if wanted in AttrSet(tree) { return Source(wanted); }
    for candidate := 0 to TotalAttributes(g)
      invariant classes.Valid()
    {
      if candidate in AttrSet(tree) {
        var same := classes.SameClass(candidate, wanted);
        if same { return Source(candidate); }
      }
    }
    return Missing;
  }

  /** One output column per column of every relation, in order. */
  method ColumnsOf(g: QueryGraph, tree: FNode, classes: EquivalenceClasses) returns (columns: seq<Enumerating.TupleColumn>)
    requires classes.Valid() && |classes.roots| == TotalAttributes(g) && AttrSet(tree) == Building.AllAttributes(g)
    modifies classes`parent
    ensures |columns| == TotalAttributes(g) && forall i :: 0 <= i < |columns| ==> columns[i] == Enumerating.TupleColumn(i, i)
  {
    hide LeadTo, AttrSet;
    columns := [];
    for relation := 0 to RelationCount(g)
      invariant classes.Valid() && |columns| == Base(g.columnCounts, relation)
      invariant forall i :: 0 <= i < |columns| ==> columns[i] == Enumerating.TupleColumn(i, i)
    {
      for column := 0 to g.columnCounts[relation]
        invariant classes.Valid() && |columns| == AttributeOf(g, relation, column)
        invariant forall i :: 0 <= i < |columns| ==> columns[i] == Enumerating.TupleColumn(i, i)
      {
        AttributeInjective(g, relation, column, relation, column);
        var source := SourceOf(g, tree, AttributeOf(g, relation, column), classes);
        columns := columns + [Enumerating.TupleColumn(source.attribute, |columns|)];
      }
    }
  }

  lemma RowsAreWhole(g: QueryGraph, columns: seq<Enumerating.TupleColumn>, b: seq<Tuple>)
    requires |columns| == TotalAttributes(g) && forall i :: 0 <= i < |columns| ==> columns[i] == Enumerating.TupleColumn(i, i)
    ensures Enumerating.ColumnsOk(columns) && Enumerating.RowsOf(b, columns) == WholeRows(g, b)
  {
    forall p: nat | p < |columns| ensures Enumerating.AttrAt(columns, p) == Enumerating.Here(p) { Enumerating.AttrAtIs(columns, p); }
    forall i | 0 <= i < |b| ensures Enumerating.RowOf(b[i], columns) == WholeRow(g, b[i]) {
      forall p: nat | p < |columns| ensures Enumerating.RowOf(b[i], columns)[p] == WholeRow(g, b[i])[p] {
        assert Enumerating.AttrAt(columns, p) == Enumerating.Here(p);
      }
    }
  }

  /** The first `limit` rows found, in some order; all of them for a limit of 0. */
  method ExecuteMaterialize(q: Query, data: Data, limit: nat) returns (r: Outcome<seq<Row>>, ghost order: seq<Tuple>)
    requires Posed(q, data)
    ensures !q.plan.complete <==> r == Failed(NoPlan)
    ensures q.plan.complete && !TypesGiven(q.graph) <==> r == Failed(Malformed)
    ensures r.Ok? ==> FitsPlan(q) && ValidData(q.graph, data) && Perm(order, FoundRows(q.graph, data))
    ensures r.Ok? && WidthsAgree(q.graph) ==> Perm(order, JoinRows(q.graph, data))
    ensures r.Ok? ==> r.value == WholeRows(q.graph, order)[..Enumerating.Wanted(limit, |order|)]
    ensures r.Ok? ==> FirstOf(r.value, order, TotalAttributes(q.graph), limit)
    ensures r == Failed(KeyTooWide) ==> !FitsPlan(q)
    ensures r.Failed? ==> r.error in {NoPlan, Malformed, KeyTooWide, OutOfMemory, Overflow}
  {
    order := [];
    if !q.plan.complete { return Failed(NoPlan), []; }
    hide FlatAll, WholeRows, FirstOf, AttrSet, LeadTo, After, EdgesOf, FoundRows, JoinRows, WidthsAgree, SatAll, SameWords, Planned, Covers,
         StepsFit;
    var built, classes := Building.BuildRepresentation(q, data);
    if built.Failed? { return Failed(built.error), []; }
    order := FlatAll(built.value.roots);
    BuiltFacts(q, data, built.value);
    var columns := ColumnsOf(q.graph, built.value.tree, classes);
    var rows := FirstRows(q.graph, built.value, columns, limit);
    FoundShown(q, data, rows, order, limit);
    r := Ok(rows);
  }

  lemma BuiltFacts(q: Query, data: Data, acc: FRelation)
    requires Building.Built(q.graph, data, q.plan, q.strategy, acc)
    ensures TypesGiven(q.graph) && ValidData(q.graph, data) && Perm(FlatAll(acc.roots), FoundRows(q.graph, data))
    ensures ValidRelation(acc) && AttrSet(acc.tree) == Building.AllAttributes(q.graph)
  {}

  method FirstRows(g: QueryGraph, acc: FRelation, columns: seq<Enumerating.TupleColumn>, limit: nat) returns (rows: seq<Row>)
    requires ValidRelation(acc)
    requires |columns| == TotalAttributes(g) && forall i :: 0 <= i < |columns| ==> columns[i] == Enumerating.TupleColumn(i, i)
    ensures rows == WholeRows(g, FlatAll(acc.roots))[..Enumerating.Wanted(limit, |FlatAll(acc.roots)|)]
  {
    hide FlatAll, Enumerating.RowsOf, WholeRows, Enumerating.ColumnsOk;
    RowsAreWhole(g, columns, FlatAll(acc.roots));
    var rep := new FRepresentation(acc.roots);
    var emitted, refused;
    rows, emitted, refused := Enumerating.Enumerate(rep, acc.tree, columns, limit, true);
  }
}
