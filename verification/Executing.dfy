/** Running a plan: the joins one after the other, their keys rewritten through the equalities
    already applied, the last one counted without being built. */
module Executing {
  import opened Bags
  import opened FReps
  import opened FTrees
  import opened Restructuring
  import opened Transforming
  import opened FlatJoins
  import opened Joins
  import opened FactorizedJoins
  import opened Convergence
  import opened Outcomes
  import opened KeyPacking
  import opened Ranges
  import opened SqlJoins
  import opened JoinMethods
  import opened CountMethods
  import opened FRepMethods
  import opened Graphs
  import opened Scanning
  import opened Equalities
  import opened Plans
  import opened Answering

  //
  // Widths
  //

  /** The widths of a graph's columns as a tuple. */
  ghost function WidthTuple(g: QueryGraph): Tuple
    requires TypesGiven(g)
  {
    map a: Attr | a in TypesIn(g) :: if TypesIn(g)[a] == INT32 then 0 else 1
  }

  lemma WidthsSat(g: QueryGraph, ps: seq<Predicate>)
    requires WidthsAgree(g) && forall p :: p in ps ==> p in g.predicates && PredicateIn(g, p) && p.left != p.right
    ensures SatAll(WidthTuple(g), g, ps)
  {
    forall p | p in ps ensures Sat(WidthTuple(g), g, p) {
      TypeOfColumn(g, p.left, p.leftColumn);
      TypeOfColumn(g, p.right, p.rightColumn);
    }
  }

  /** Rewriting a key keeps its width. */
  lemma RewrittenWidth(g: QueryGraph, ps: seq<Predicate>, t: FNode, k: Attr)
    requires WidthsAgree(g) && (forall p :: p in ps ==> p in g.predicates && PredicateIn(g, p) && p.left != p.right) && k < TotalAttributes(g)
    ensures TypeOf(TypesIn(g), Rewritten(After(g, ps), t, k)) == TypeOf(TypesIn(g), k)
  {
    var s := Shallowest(After(g, ps), t, k);
    ShallowestIs(After(g, ps), t, k);
    if s != k {
      WidthsSat(g, ps);
      ClassesHold(g, ps, WidthTuple(g), s, k);
    }
  }

  lemma KeyWidths(g: QueryGraph, ps: seq<Predicate>, t: FNode, r: nat, es: seq<Predicate>)
    requires WidthsAgree(g) && forall p :: p in ps ==> p in g.predicates && PredicateIn(g, p) && p.left != p.right
    requires forall e :: e in es ==> e in g.predicates && PredicateIn(g, e) && e.left != e.right
    ensures TypesOf(TypesIn(g), RewrittenAll(After(g, ps), t, RawKeys(g, r, es))) == TypesOf(TypesIn(g), NewKeys(g, r, es))
  {
    forall i | 0 <= i < |es|
      ensures TypeOf(TypesIn(g), Rewritten(After(g, ps), t, RawKey(g, r, es[i]))) == TypeOf(TypesIn(g), NewKey(g, r, es[i]))
    {
      assert es[i] in es;
      RawBelow(g, r, es[i]);
      RewrittenWidth(g, ps, t, RawKey(g, r, es[i]));
      TypeOfColumn(g, es[i].left, es[i].leftColumn);
      TypeOfColumn(g, es[i].right, es[i].rightColumn);
    }
  }

  /** The step's packed keys fit a word on both sides, as the strategy rewrites them. */
  ghost predicate StepFits(g: QueryGraph, steps: seq<PlanStep>, i: nat, strategy: PathStrategy)
    requires TypesGiven(g) && StepsIn(g, steps) && 0 < i < |steps|
  {
    StepsInPrefix(g, steps, i + 1);
    assert steps[i] in steps;
    KeysFit(TypesIn(g), AccumulatedKeys(g, steps[..i + 1], strategy), NewKeys(g, steps[i].relation, steps[i].edges))
  }

  ghost predicate StepsFit(g: QueryGraph, steps: seq<PlanStep>, strategy: PathStrategy)
    requires TypesGiven(g) && StepsIn(g, steps)
  {
    forall i :: 0 < i < |steps| ==> StepFits(g, steps, i, strategy)
  }

  lemma SidesApart(e: Predicate, r: nat, joined: set<nat>)
    requires Connects(e, r, joined) && r !in joined
    ensures e.left != e.right
  {}

  /** A step the planner made fits under the strategy it was planned for, and under the other one
      where predicates compare columns of one width. */
  lemma PlannedStepFits(g: QueryGraph, steps: seq<PlanStep>, i: nat, strategy: PathStrategy)
    requires TypesGiven(g) && Planned(g, steps) && 0 < i < |steps| && (strategy == LEVELWISE || WidthsAgree(g))
    ensures StepFits(g, steps, i, strategy)
  {
    hide TreeAfter, After, RewrittenAll, NewKeys, RawKeys, EdgesOf, TypesOf;
    assert StepLands(g, steps, i) && StepConnects(g, steps, i);
    if strategy == NAIVE {
      var s, before := steps[i], steps[..i];
      StepsInPrefix(g, steps, i);
      AllConnectPrefix(g, steps, i);
      EdgesWithin(g, before);
      forall e | e in s.edges ensures e.left != e.right { SidesApart(e, s.relation, SetOf(RelationsOf(before))); }
      assert steps[..i + 1][..i] == before && steps[..i + 1][i] == s;
      KeyWidths(g, EdgesOf(before), TreeAfter(g, before, NAIVE), s.relation, s.edges);
    }
  }

  /** A plan the planner made is never refused for the width of its keys under the strategy it was
      made for, nor under the other one where predicates compare columns of one width. */
  lemma PlannedFits(g: QueryGraph, steps: seq<PlanStep>, strategy: PathStrategy)
    requires TypesGiven(g) && Planned(g, steps) && (strategy == LEVELWISE || WidthsAgree(g))
    ensures StepsFit(g, steps, strategy)
  {
    hide StepFits, StepLands, StepConnects;
    forall i | 0 < i < |steps| ensures StepFits(g, steps, i, strategy) { PlannedStepFits(g, steps, i, strategy); }
  }

  //
  // The executor
  //

  /** The accumulated relation after these steps. */
  ghost predicate Accumulates(g: QueryGraph, data: Data, steps: seq<PlanStep>, strategy: PathStrategy, acc: FRelation)
    requires TypesGiven(g) && ValidData(g, data)
  {
    && steps != [] && StepsIn(g, steps) && AllConnect(g, steps)
    && (forall r :: r in RelationsOf(steps) ==> r < RelationCount(g))
    && acc.tree == TreeAfter(g, steps, strategy) && ValidRelation(acc) && PrunedAll(acc.roots) && RangedAll(acc.roots, TypesIn(g))
    && Perm(FlatAll(acc.roots), Answer(g, data, steps))
  }

  lemma FirstAccumulates(g: QueryGraph, data: Data, s: PlanStep, strategy: PathStrategy, acc: FRelation)
    requires TypesGiven(g) && ValidData(g, data) && StepConnects(g, [s], 0) && ScanOf(acc, g, data, s.relation)
    ensures Accumulates(g, data, [s], strategy, acc)
  {
    hide Answer, ValidRelation, PrunedAll, RangedAll, Scanned;
    AnswerOne(g, data, s);
  }

  /** The step's keys are in the trees they are read from. */
  lemma StepKeysIn(g: QueryGraph, steps: seq<PlanStep>, s: PlanStep, strategy: PathStrategy, t: FNode, keys: seq<Attr>)
    requires TypesGiven(g) && steps != [] && StepsIn(g, steps) && AllConnect(g, steps) && t == TreeAfter(g, steps, strategy)
    requires StepConnects(g, steps + [s], |steps|) && s.relation < RelationCount(g) && EdgesIn(g, s.edges)
    requires keys == RewrittenAll(After(g, EdgesOf(steps)), t, RawKeys(g, s.relation, s.edges))
    ensures AtMostOnce(AttrBag(t) + multiset(AttributesOf(g, s.relation))) && AtMostOnce(AttrBag(t))
    ensures forall k :: k in keys ==> k in AttrSet(t)
    ensures forall k :: k in NewKeys(g, s.relation, s.edges) ==> k in AttributesOf(g, s.relation)
  {
    hide After, EdgesOf;
    var r, es, rs, more := s.relation, s.edges, RelationsOf(steps), steps + [s];
    var new' := NewKeys(g, r, es);
    assert more[..|steps|] == steps && more[|steps|] == s;
    TreeAfterBag(g, steps, strategy);
    AttrsJoinedSnoc(g, rs, r);
    MultisetUnion(AttrsJoined(g, rs), AttributesOf(g, r));
    forall k | k in keys ensures k in AttrSet(t) {
      var i :| 0 <= i < |es| && keys[i] == k;
      KeyInTree(g, steps, t, r, es[i]);
    }
    forall k | k in new' ensures k in AttributesOf(g, r) {
      var i :| 0 <= i < |es| && new'[i] == k;
      EdgeAttributes(g, rs, r, es[i]);
    }
  }

  /** What the executor asks of a step: its keys converge on both sides. */
  lemma StepRuns(g: QueryGraph, data: Data, steps: seq<PlanStep>, s: PlanStep, strategy: PathStrategy, acc: FRelation, scan: FRelation,
                 keys: seq<Attr>)
    requires TypesGiven(g) && ValidData(g, data) && Accumulates(g, data, steps, strategy, acc)
    requires StepConnects(g, steps + [s], |steps|) && StepsIn(g, steps + [s]) && StepLands(g, steps + [s], |steps|)
    requires s.relation < RelationCount(g) && EdgesIn(g, s.edges) && ScanOf(scan, g, data, s.relation)
    requires keys == RewrittenAll(After(g, EdgesOf(steps)), acc.tree, RawKeys(g, s.relation, s.edges))
    ensures var new' := NewKeys(g, s.relation, s.edges);
            && Joinable(acc, scan) && keys == AccumulatedKeys(g, steps + [s], strategy)
            && KeysConverge(acc.tree, scan.tree, keys, new', strategy) && KeysConverge(scan.tree, acc.tree, new', keys, strategy)
  {
    hide Converges, PathTree, InsertionPath, RewrittenAll, RawKeys, NewKeys, After, KeysAt;
    var r, es := s.relation, s.edges;
    var more := steps + [s];
    assert more[..|steps|] == steps && more[..|steps| + 1] == more && more[|steps|] == s;
    StepKeysIn(g, steps, s, strategy, acc.tree, keys);
    ScanBag(AttributesOf(g, r));
    ScanConverges(AttributesOf(g, r), NewKeys(g, r, es), strategy);
    AccumulatedConverges(acc.tree, keys, strategy);
  }

  lemma KeyInTree(g: QueryGraph, steps: seq<PlanStep>, t: FNode, r: nat, e: Predicate)
    requires (forall q :: q in RelationsOf(steps) ==> q < RelationCount(g)) && r < RelationCount(g) && r !in RelationsOf(steps)
    requires AttrBag(t) == multiset(AttrsJoined(g, RelationsOf(steps)))
    requires PredicateIn(g, e) && Connects(e, r, SetOf(RelationsOf(steps)))
    ensures Rewritten(After(g, EdgesOf(steps)), t, RawKey(g, r, e)) in AttrSet(t)
  {
    var k := RawKey(g, r, e);
    EdgeAttributes(g, RelationsOf(steps), r, e);
    RawBelow(g, r, e);
    AttrSetIsBag(t);
    HasLevel(t, k);
    ShallowestIs(After(g, EdgesOf(steps)), t, k);
    HasLevel(t, Shallowest(After(g, EdgesOf(steps)), t, k));
  }

  lemma MoreConnect(g: QueryGraph, steps: seq<PlanStep>, s: PlanStep)
    requires AllConnect(g, steps) && StepConnects(g, steps + [s], |steps|)
    ensures AllConnect(g, steps + [s])
  {
    hide StepConnects;
    var more := steps + [s];
    forall i | 0 <= i < |more| ensures StepConnects(g, more, i) {
      if i < |steps| { ConnectsPrefix(g, steps, s, i); assert StepConnects(g, steps, i); }
    }
  }

  lemma StepAccumulates(g: QueryGraph, data: Data, steps: seq<PlanStep>, s: PlanStep, strategy: PathStrategy, acc: FRelation,
                        scan: FRelation, keys: seq<Attr>, next: FRelation)
    requires TypesGiven(g) && ValidData(g, data) && Accumulates(g, data, steps, strategy, acc)
    requires StepConnects(g, steps + [s], |steps|) && StepsIn(g, steps + [s])
    requires s.relation < RelationCount(g) && EdgesIn(g, s.edges) && ScanOf(scan, g, data, s.relation)
    requires keys == RewrittenAll(After(g, EdgesOf(steps)), acc.tree, RawKeys(g, s.relation, s.edges))
    requires Joined(next, acc, scan, keys, NewKeys(g, s.relation, s.edges), TypesIn(g))
    requires KeysFit(TypesIn(g), keys, NewKeys(g, s.relation, s.edges))
    requires next.tree == JoinTree(acc.tree, scan.tree, keys, NewKeys(g, s.relation, s.edges), strategy)
    ensures Accumulates(g, data, steps + [s], strategy, next)
  {
    hide Answer, After, RewrittenAll, RawKeys, NewKeys, KeysFit, EdgesOf, ValidData, BagJoin, ValidRelation, RangedAll, PrunedAll,
         AllConnect, StepConnects, Scanned, TreeAfter, RelationsOf, FlatAll;
    RelationsIn(g, steps + [s]);
    MoreConnect(g, steps, s);
    TreeSnoc(g, steps, s, strategy);
    NextAnswer(g, data, steps, s, keys, acc.tree, FlatAll(acc.roots), FlatAll(scan.roots));
    NowAccumulates(g, data, steps + [s], strategy, next);
  }

  lemma TreeSnoc(g: QueryGraph, steps: seq<PlanStep>, s: PlanStep, strategy: PathStrategy)
    requires steps != [] && StepsIn(g, steps) && StepsIn(g, steps + [s]) && s.relation < RelationCount(g) && EdgesIn(g, s.edges)
    ensures var t := TreeAfter(g, steps, strategy);
      TreeAfter(g, steps + [s], strategy)
      == JoinTree(t, Scan(AttributesOf(g, s.relation)), RewrittenAll(After(g, EdgesOf(steps)), t, RawKeys(g, s.relation, s.edges)),
                  NewKeys(g, s.relation, s.edges), strategy)
  {
    hide After, RewrittenAll, RawKeys, NewKeys, JoinTree, EdgesOf;
    assert (steps + [s])[..|steps|] == steps;
  }

  lemma NowAccumulates(g: QueryGraph, data: Data, steps: seq<PlanStep>, strategy: PathStrategy, acc: FRelation)
    requires TypesGiven(g) && ValidData(g, data) && steps != [] && StepsIn(g, steps) && AllConnect(g, steps)
    requires forall r :: r in RelationsOf(steps) ==> r < RelationCount(g)
    requires acc.tree == TreeAfter(g, steps, strategy) && ValidRelation(acc) && PrunedAll(acc.roots) && RangedAll(acc.roots, TypesIn(g))
    requires Perm(FlatAll(acc.roots), Answer(g, data, steps))
    ensures Accumulates(g, data, steps, strategy, acc)
  {}

  lemma CountIsAnswer(g: QueryGraph, data: Data, steps: seq<PlanStep>, s: PlanStep, strategy: PathStrategy, acc: FRelation,
                      scan: FRelation, keys: seq<Attr>)
    requires TypesGiven(g) && ValidData(g, data) && Accumulates(g, data, steps, strategy, acc)
    requires StepConnects(g, steps + [s], |steps|) && s.relation < RelationCount(g) && EdgesIn(g, s.edges)
    requires ScanOf(scan, g, data, s.relation) && KeysFit(TypesIn(g), keys, NewKeys(g, s.relation, s.edges))
    requires keys == RewrittenAll(After(g, EdgesOf(steps)), acc.tree, RawKeys(g, s.relation, s.edges))
    ensures forall r :: r in RelationsOf(steps + [s]) ==> r < RelationCount(g)
    ensures var a, b, new' := FlatAll(acc.roots), FlatAll(scan.roots), NewKeys(g, s.relation, s.edges);
      && |SqlRows(PRODUCT, NEITHER, a, b, keys, new', ByWords(TypesIn(g), keys, new'))| == |Answer(g, data, steps + [s])|
      && |SqlRows(PRODUCT, NEITHER, b, a, new', keys, ByWords(TypesIn(g), new', keys))| == |Answer(g, data, steps + [s])|
  {
    hide StepConnects, ValidData, Answer, RewrittenAll, NewKeys, RawKeys, BagJoin, TypesOf, KeysFit;
    var a, b, new' := FlatAll(acc.roots), FlatAll(scan.roots), NewKeys(g, s.relation, s.edges);
    var how := ByWords(TypesIn(g), keys, new');
    NextAnswer(g, data, steps, s, keys, acc.tree, a, b);
    PermLength(BagJoin(a, b, keys, new', how), Answer(g, data, steps + [s]));
    JoinSymmetric(a, b, keys, new', how);
  }

  /** Reads one relation. Whether its rows are grouped is left to the sample. */
  method Make(g: QueryGraph, data: Data, r: nat, rowHash: Row -> nat, budget: nat) returns (out: Outcome<FRelation>)
    requires TypesGiven(g) && ValidData(g, data) && r < RelationCount(g)
    ensures out.Ok? ==> ScanOf(out.value, g, data, r)
    ensures out.Failed? ==> out.error in {OutOfMemory, Overflow}
  {
    var group: bool := *;
    var grouped;
    if * { return Failed(OutOfMemory); }
    out, grouped := MakeScan(g, data, r, rowHash, group, budget);
    if out.Failed? { out := Failed(Overflow); }
  }

  /** A join graph, the plan for it, and how to run it. */
  datatype Query = Query(graph: QueryGraph, plan: Plan, mode: JoinMode, strategy: PathStrategy, keyHash: nat -> nat,
                         rowHash: Row -> nat, budget: nat)

  /** The graph and the data are well-formed, and a complete plan is one the planner made. */
  ghost predicate Posed(q: Query, data: Data) {
    && ValidGraph(q.graph) && (TypesGiven(q.graph) ==> ValidData(q.graph, data))
    && (TypesGiven(q.graph) && q.plan.complete ==> Planned(q.graph, q.plan.steps) && Covers(q.graph, q.plan.steps))
  }

  /** A planned query none of whose steps has keys too wide for a word. */
  ghost predicate FitsPlan(q: Query) {
    TypesGiven(q.graph) && StepsIn(q.graph, q.plan.steps) && StepsFit(q.graph, q.plan.steps, q.strategy)
  }

  /** The first scan and the plan's joins below `n`, one after the other. */
  method RunSteps(q: Query, data: Data, n: nat, classes: EquivalenceClasses) returns (r: Outcome<FRelation>)
    requires TypesGiven(q.graph) && ValidData(q.graph, data) && Planned(q.graph, q.plan.steps) && 0 < n <= |q.plan.steps|
    requires classes.Valid() && classes.roots == After(q.graph, [])
    modifies classes
    ensures r.Ok? ==> classes.Valid() && classes.roots == After(q.graph, EdgesOf(q.plan.steps[..n]))
    ensures r.Ok? ==> Accumulates(q.graph, data, q.plan.steps[..n], q.strategy, r.value)
    ensures r.Ok? ==> StepsIn(q.graph, q.plan.steps) && forall i :: 0 < i < n ==> StepFits(q.graph, q.plan.steps, i, q.strategy)
    ensures r == Failed(KeyTooWide) ==> !FitsPlan(q)
    ensures r.Failed? ==> r.error in {KeyTooWide, OutOfMemory, Overflow}
  {
    hide Planned, StepConnects, StepLands, StepsIn, Accumulates, ScanOf, LeadTo, After, ValidData, EdgesOf, StepFits;
    var steps := q.plan.steps;
    PlanStarts(q.graph, steps);
    PlannedIn(q.graph, steps);
    var accumulated :- Make(q.graph, data, steps[0].relation, q.rowHash, q.budget);
    FirstAccumulates(q.graph, data, steps[0], q.strategy, accumulated);
    NoEdges(steps[0]);
    for i := 1 to n
      invariant classes.Valid() && classes.roots == After(q.graph, EdgesOf(steps[..i]))
      invariant Accumulates(q.graph, data, steps[..i], q.strategy, accumulated)
      invariant forall j :: 0 < j < i ==> StepFits(q.graph, steps, j, q.strategy)
    {
      accumulated :- RunStep(q.graph, data, steps, i, q.mode, q.strategy, q.keyHash, q.rowHash, q.budget, classes, accumulated);
    }
    return Ok(accumulated);
  }

  /** All joins but the last are built, the last one is counted. */
  method CountSteps(q: Query, data: Data) returns (r: Outcome<nat>)
    requires TypesGiven(q.graph) && ValidData(q.graph, data) && Planned(q.graph, q.plan.steps) && Covers(q.graph, q.plan.steps)
    ensures r.Ok? ==> FitsPlan(q) && r.value == |FoundRows(q.graph, data)|
    ensures r == Failed(KeyTooWide) ==> !FitsPlan(q)
    ensures r.Failed? ==> r.error in {KeyTooWide, OutOfMemory, Overflow}
  {
    hide Planned, StepConnects, StepLands, StepsIn, Accumulates, LeadTo, FoundRows, Covers, After, ValidData, Answer, EdgesOf, StepFits;
    var g, steps := q.graph, q.plan.steps;
    PlanStarts(g, steps);
    PlannedIn(g, steps);
    var classes := new EquivalenceClasses.Enforced(g);
    var built := if |steps| == 1 then 1 else |steps| - 1;
    var accumulated :- RunSteps(q, data, built, classes);
    if |steps| == 1 {
      assert steps == steps[..1];
      r := CountOne(g, data, steps, q.strategy, accumulated);
    } else {
      r := CountLast(g, data, steps, q.mode, q.strategy, q.keyHash, q.rowHash, q.budget, classes, accumulated);
    }
  }

  /** Every relation and every column of it has a type. */
  method CheckTypes(g: QueryGraph) returns (given: bool)
    ensures given <==> |g.columnTypes| == |g.columnCounts| && forall r :: 0 <= r < |g.columnCounts| ==> |g.columnTypes[r]| == g.columnCounts[r]
    ensures given <==> TypesGiven(g)
  {
    if |g.columnTypes| != |g.columnCounts| { return false; }
    for r := 0 to |g.columnCounts|
      invariant forall i :: 0 <= i < r ==> |g.columnTypes[i]| == g.columnCounts[i]
    {
      if |g.columnTypes[r]| != g.columnCounts[r] { return false; }
    }
    return true;
  }

  /** Runs a plan. Whatever the mode and the strategy, a count that comes back is the number of
      row combinations whose columns have the same bits wherever a predicate between two relations
      compares them; those are the join's rows where the predicates compare columns of one width.
      Keys never fail to converge, and are refused as too wide only where some step's are. */
  method ExecuteCount(q: Query, data: Data) returns (r: Outcome<nat>)
    requires Posed(q, data)
    ensures !q.plan.complete <==> r == Failed(NoPlan)
    ensures q.plan.complete && !TypesGiven(q.graph) <==> r == Failed(Malformed)
    ensures r.Ok? ==> FitsPlan(q) && ValidData(q.graph, data) && r.value == |FoundRows(q.graph, data)|
    ensures r.Ok? && WidthsAgree(q.graph) ==> r.value == |JoinRows(q.graph, data)|
    ensures r == Failed(KeyTooWide) ==> !FitsPlan(q)
    ensures r.Failed? ==> r.error in {NoPlan, Malformed, KeyTooWide, OutOfMemory, Overflow}
  {
    hide FoundRows, JoinRows, Planned, Covers, StepsFit, ValidData;
    if !q.plan.complete { return Failed(NoPlan); }
    var typed := CheckTypes(q.graph);
    if !typed { return Failed(Malformed); }
    r := CountSteps(q, data);
    if WidthsAgree(q.graph) { FoundAsAsked(q.graph, data); }
  }

  lemma PlanStarts(g: QueryGraph, steps: seq<PlanStep>)
    requires TypesGiven(g) && Planned(g, steps)
    ensures steps != [] && StepConnects(g, [steps[0]], 0) && steps[0].relation < RelationCount(g) && steps[0].edges == []
    ensures steps[..1] == [steps[0]]
  {
    PrefixStep(g, steps, 0);
    assert StepConnects(g, steps, 0) && steps[..0] + [steps[0]] == [steps[0]];
  }

  lemma PrefixStep(g: QueryGraph, steps: seq<PlanStep>, i: nat)
    requires TypesGiven(g) && Planned(g, steps) && i < |steps|
    ensures steps[..i + 1] == steps[..i] + [steps[i]]
    ensures StepConnects(g, steps[..i] + [steps[i]], i) && StepsIn(g, steps[..i] + [steps[i]])
    ensures steps[i].relation < RelationCount(g) && EdgesIn(g, steps[i].edges)
    ensures i > 0 ==> StepLands(g, steps[..i] + [steps[i]], i)
  {
    assert steps[..i + 1] == steps[..i] + [steps[i]] && steps[i] in steps;
    assert StepConnects(g, steps, i) && steps[..i + 1][..i] == steps[..i];
    StepsInPrefix(g, steps, i + 1);
    if i > 0 {
      assert StepLands(g, steps, i);
      assert steps[..i + 1][..i + 1] == steps[..i + 1];
    }
  }

  /** Without a join the scan itself is counted. */
  method CountOne(g: QueryGraph, data: Data, steps: seq<PlanStep>, ghost strategy: PathStrategy, acc: FRelation)
    returns (r: Outcome<nat>)
    requires TypesGiven(g) && ValidData(g, data) && Covers(g, steps) && Accumulates(g, data, steps, strategy, acc)
    ensures r.Ok? ==> r.value == |FoundRows(g, data)|
    ensures r.Failed? ==> r.error in {Overflow}
  {
    var rep := new FRepresentation(acc.roots);
    var counted := rep.Count();
    WholeAnswer(g, data, steps);
    PermLength(FlatAll(acc.roots), Answer(g, data, steps));
    PermLength(Answer(g, data, steps), FoundRows(g, data));
    return if counted.Ok? then counted else Failed(Overflow);
  }

  /** One materialized join. The accumulated tree stays on top in either mode. */
  method RunStep(g: QueryGraph, data: Data, steps: seq<PlanStep>, i: nat, mode: JoinMode, strategy: PathStrategy, hash: nat -> nat,
                 rowHash: Row -> nat, budget: nat, classes: EquivalenceClasses, accumulated: FRelation)
    returns (r: Outcome<FRelation>)
    requires TypesGiven(g) && ValidData(g, data) && Planned(g, steps) && 0 < i < |steps|
    requires classes.Valid() && classes.roots == After(g, EdgesOf(steps[..i]))
    requires Accumulates(g, data, steps[..i], strategy, accumulated)
    modifies classes
    ensures r.Ok? ==> classes.Valid() && classes.roots == After(g, EdgesOf(steps[..i + 1]))
    ensures r.Ok? ==> Accumulates(g, data, steps[..i + 1], strategy, r.value)
    ensures StepsIn(g, steps) && (r.Ok? ==> StepFits(g, steps, i, strategy))
    ensures r == Failed(KeyTooWide) ==> !StepFits(g, steps, i, strategy)
    ensures r.Failed? ==> r.error in {KeyTooWide, OutOfMemory, Overflow}
  {
    hide StepFits, Planned, StepConnects, StepLands, StepsIn, Accumulates, Joined, ScanOf, KeysConverge, LeadTo;
    var s := steps[i];
    PlannedIn(g, steps);
    PrefixStep(g, steps, i);
    var newKeys := NewKeys(g, s.relation, s.edges);
    var keys := KeysFor(classes, g, accumulated.tree, s.edges, s.relation);
    var scan :- Make(g, data, s.relation, rowHash, budget);
    StepRuns(g, data, steps[..i], s, strategy, accumulated, scan, keys);
    FitsIs(g, steps, i, strategy, keys);
    ScanFacts(scan, g, data, s.relation);
    AccumulatesFacts(g, data, steps[..i], strategy, accumulated);
    if mode == TOP_INSERT {
      JoinableEitherWay(accumulated, scan);
      r := FactorizedJoin(scan, accumulated, newKeys, keys, TypesIn(g), mode, strategy, hash);
      if r.Ok? { JoinedEitherWay(r.value, scan, accumulated, newKeys, keys, TypesIn(g)); }
    } else {
      r := FactorizedJoin(accumulated, scan, keys, newKeys, TypesIn(g), mode, strategy, hash);
    }
    if r.Failed? { return Failed(r.error); }
    StepAccumulates(g, data, steps[..i], s, strategy, accumulated, scan, keys, r.value);
    EnforceAll(classes, g, s.edges, EdgesOf(steps[..i]));
    EdgesSnoc(steps[..i], s);
  }

  /** The last join is counted, not built. */
  method CountLast(g: QueryGraph, data: Data, steps: seq<PlanStep>, mode: JoinMode, strategy: PathStrategy, hash: nat -> nat,
                   rowHash: Row -> nat, budget: nat, classes: EquivalenceClasses, accumulated: FRelation) returns (r: Outcome<nat>)
    requires TypesGiven(g) && ValidData(g, data) && Planned(g, steps) && Covers(g, steps) && |steps| > 1
    requires classes.Valid() && classes.roots == After(g, EdgesOf(steps[..|steps| - 1]))
    requires Accumulates(g, data, steps[..|steps| - 1], strategy, accumulated)
    modifies classes
    ensures r.Ok? ==> r.value == |FoundRows(g, data)|
    ensures StepsIn(g, steps) && (r.Ok? ==> StepFits(g, steps, |steps| - 1, strategy))
    ensures r == Failed(KeyTooWide) ==> !StepFits(g, steps, |steps| - 1, strategy)
    ensures r.Failed? ==> r.error in {KeyTooWide, OutOfMemory, Overflow}
  {
    hide StepFits, Planned, StepConnects, StepLands, StepsIn, Accumulates, ScanOf, KeysConverge, LeadTo, SqlRows, FoundRows, Covers, Answer,
         FlatAll, TypesOf, Converges, PathTree;
    var i := |steps| - 1;
    var s := steps[i];
    PlannedIn(g, steps);
    PrefixStep(g, steps, i);
    var newKeys := NewKeys(g, s.relation, s.edges);
    var keys := KeysFor(classes, g, accumulated.tree, s.edges, s.relation);
    var scan :- Make(g, data, s.relation, rowHash, budget);
    StepRuns(g, data, steps[..i], s, strategy, accumulated, scan, keys);
    FitsIs(g, steps, i, strategy, keys);
    ScanFacts(scan, g, data, s.relation);
    AccumulatesFacts(g, data, steps[..i], strategy, accumulated);
    if KeysFit(TypesIn(g), keys, newKeys) { CountIsAnswer(g, data, steps[..i], s, strategy, accumulated, scan, keys); }
    if mode == TOP_INSERT {
      r := FactorizedCountJoin(scan, accumulated, newKeys, keys, TypesIn(g), mode, strategy, NEITHER, PRODUCT, hash);
    } else {
      r := FactorizedCountJoin(accumulated, scan, keys, newKeys, TypesIn(g), mode, strategy, NEITHER, PRODUCT, hash);
    }
    assert steps[..i + 1] == steps;
    WholeAnswerLength(g, data, steps);
  }

  lemma PlannedIn(g: QueryGraph, steps: seq<PlanStep>)
    requires TypesGiven(g) && Planned(g, steps)
    ensures StepsIn(g, steps)
  {}

  lemma FitsIs(g: QueryGraph, steps: seq<PlanStep>, i: nat, strategy: PathStrategy, keys: seq<Attr>)
    requires TypesGiven(g) && Planned(g, steps) && 0 < i < |steps| && EdgesIn(g, steps[i].edges)
    requires StepsIn(g, steps[..i] + [steps[i]]) && keys == AccumulatedKeys(g, steps[..i] + [steps[i]], strategy)
    ensures StepsIn(g, steps)
    ensures StepFits(g, steps, i, strategy) <==> KeysFit(TypesIn(g), keys, NewKeys(g, steps[i].relation, steps[i].edges))
  {
    hide AccumulatedKeys, NewKeys, KeysFit;
    assert steps[..i] + [steps[i]] == steps[..i + 1];
  }

  lemma ScanFacts(scan: FRelation, g: QueryGraph, data: Data, r: nat)
    requires TypesGiven(g) && ValidData(g, data) && r < RelationCount(g) && ScanOf(scan, g, data, r)
    ensures scan.tree == Scan(AttributesOf(g, r)) && ValidRelation(scan) && PrunedAll(scan.roots) && RangedAll(scan.roots, TypesIn(g))
  {}

  lemma AccumulatesFacts(g: QueryGraph, data: Data, steps: seq<PlanStep>, strategy: PathStrategy, acc: FRelation)
    requires TypesGiven(g) && ValidData(g, data) && Accumulates(g, data, steps, strategy, acc)
    ensures ValidRelation(acc) && PrunedAll(acc.roots) && RangedAll(acc.roots, TypesIn(g))
  {}

  lemma JoinableEitherWay(a: FRelation, b: FRelation)
    requires Joinable(a, b)
    ensures Joinable(b, a)
  {
    assert AttrBag(b.tree) + AttrBag(a.tree) == AttrBag(a.tree) + AttrBag(b.tree);
  }

  lemma WholeAnswerLength(g: QueryGraph, data: Data, steps: seq<PlanStep>)
    requires TypesGiven(g) && ValidData(g, data) && Planned(g, steps) && Covers(g, steps)
    ensures forall r :: r in RelationsOf(steps) ==> r < RelationCount(g)
    ensures |Answer(g, data, steps)| == |FoundRows(g, data)|
  {
    RelationsIn(g, steps);
    WholeAnswer(g, data, steps);
    PermLength(Answer(g, data, steps), FoundRows(g, data));
  }
}
