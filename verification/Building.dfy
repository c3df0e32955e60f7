/** Queries that need the joined representation itself: sums, sums of products, and groups. */
module Building {
  import opened Bags
  import opened Filters
  import opened FReps
  import opened FTrees
  import opened FlatJoins
  import opened Transforming
  import opened Joins
  import opened Reordering
  import opened Outcomes
  import opened Ranges
  import opened FRepMethods
  import opened Graphs
  import opened Scanning
  import opened Equalities
  import opened Plans
  import opened Answering
  import opened Executing
  import opened Sums
  import opened Folds
  import opened Groups
  import opened GroupFolds
  import opened GroupTables

  /** A representation of the whole join, with the classes its equalities make. */
  ghost predicate Built(g: QueryGraph, data: Data, plan: Plan, strategy: PathStrategy, acc: FRelation) {
    && TypesGiven(g) && ValidData(g, data) && plan.steps != [] && StepsIn(g, plan.steps)
    && acc.tree == TreeAfter(g, plan.steps, strategy) && ValidRelation(acc) && RangedAll(acc.roots, TypesIn(g))
    && AttrSet(acc.tree) == AllAttributes(g) && EdgesIn(g, EdgesOf(plan.steps))
    && Perm(FlatAll(acc.roots), FoundRows(g, data))
    && forall t :: t in FlatAll(acc.roots) ==> SameWords(g, EdgesOf(plan.steps))(t)
  }

  function AllAttributes(g: QueryGraph): set<Attr> {
    UpTo(TotalAttributes(g))
  }

  /** The steps of the plan, one after the other. */
  method BuildSteps(q: Query, data: Data, classes: EquivalenceClasses) returns (r: Outcome<FRelation>)
    requires Posed(q, data) && q.plan.complete && TypesGiven(q.graph)
    requires classes.Valid() && classes.roots == After(q.graph, [])
    modifies classes
    ensures r.Ok? ==> classes.Valid() && classes.roots == After(q.graph, EdgesOf(q.plan.steps))
    ensures r.Ok? ==> FitsPlan(q) && Built(q.graph, data, q.plan, q.strategy, r.value)
    ensures r.Ok? && WidthsAgree(q.graph) ==> Perm(FlatAll(r.value.roots), JoinRows(q.graph, data))
    ensures r == Failed(KeyTooWide) ==> !FitsPlan(q)
    ensures r.Failed? ==> r.error in {KeyTooWide, OutOfMemory, Overflow}
  {
    hide Planned, StepConnects, StepLands, StepsIn, Accumulates, ScanOf, LeadTo, FoundRows, JoinRows, Covers, After, ValidData,
         WidthsAgree, Answer, EdgesOf, Built, StepFits;
    var g, steps := q.graph, q.plan.steps;
    PlanStarts(g, steps);
    PlannedIn(g, steps);
    r := RunSteps(q, data, |steps|, classes);
    assert steps[..|steps|] == steps;
    if r.Ok? {
      AccumulatedIsBuilt(g, data, q.plan, q.strategy, r.value);
      BuiltRows(g, data, q.plan, q.strategy, r.value);
    }
  }

  /** Every join is materialized, nothing is fused. */
  method BuildRepresentation(q: Query, data: Data) returns (r: Outcome<FRelation>, classes: EquivalenceClasses)
    requires Posed(q, data) && q.plan.complete
    ensures fresh(classes)
    ensures !TypesGiven(q.graph) <==> r == Failed(Malformed)
    ensures r.Ok? ==> classes.Valid() && classes.roots == After(q.graph, EdgesOf(q.plan.steps))
    ensures r.Ok? ==> FitsPlan(q) && Built(q.graph, data, q.plan, q.strategy, r.value)
    ensures r.Ok? && WidthsAgree(q.graph) ==> Perm(FlatAll(r.value.roots), JoinRows(q.graph, data))
    ensures r == Failed(KeyTooWide) ==> !FitsPlan(q)
    ensures r.Failed? ==> r.error in {Malformed, KeyTooWide, OutOfMemory, Overflow}
  {
    hide Posed, FitsPlan, Built, After, EdgesOf, WidthsAgree, JoinRows, LeadTo;
    classes := new EquivalenceClasses.Enforced(q.graph);
    var typed := CheckTypes(q.graph);
    if !typed { return Failed(Malformed), classes; }
    r := BuildSteps(q, data, classes);
  }

  lemma BuiltRows(g: QueryGraph, data: Data, plan: Plan, strategy: PathStrategy, acc: FRelation)
    requires ValidGraph(g) && Built(g, data, plan, strategy, acc)
    ensures WidthsAgree(g) ==> Perm(FlatAll(acc.roots), JoinRows(g, data))
  {
    hide FoundRows, JoinRows, SameWords;
    if WidthsAgree(g) { FoundAsAsked(g, data); }
  }

  lemma AccumulatedIsBuilt(g: QueryGraph, data: Data, plan: Plan, strategy: PathStrategy, acc: FRelation)
    requires TypesGiven(g) && ValidData(g, data) && Planned(g, plan.steps) && Covers(g, plan.steps)
    requires Accumulates(g, data, plan.steps, strategy, acc)
    ensures Built(g, data, plan, strategy, acc)
  {
    hide FoundRows, ScansOf, CrossSeq, PrunedAll, StepConnects, StepLands, SameWords, TreeAfter, ValidRelation, RangedAll;
    var steps := plan.steps;
    WholeAnswer(g, data, steps);
    FilterMembers(CrossSeq(ScansOf(g, data, RelationsOf(steps))), SameWords(g, EdgesOf(steps)));
    PermMembers(FlatAll(acc.roots), Answer(g, data, steps));
    EdgesOfIn(g, steps);
    TreeAfterBag(g, steps, strategy);
    AttrSetIsBag(acc.tree);
    EveryAttribute(g, steps);
  }

  lemma EveryAttribute(g: QueryGraph, steps: seq<PlanStep>)
    requires StepsIn(g, steps) && AllConnect(g, steps) && |steps| == RelationCount(g)
    requires forall r :: r in RelationsOf(steps) ==> r < RelationCount(g)
    ensures AttrsJoined(g, RelationsOf(steps)) == AllAttributes(g)
  {
    AllRelations(g, steps);
    PermMembers(RelationsOf(steps), Relations(g));
    forall a: Attr ensures a in AttrsJoined(g, RelationsOf(steps)) <==> a in AllAttributes(g) {
      if a in AttrsJoined(g, RelationsOf(steps)) {
        var r :| r in RelationsOf(steps) && a in AttributesOf(g, r);
        AttributesBelow(g, r);
      }
      if a in AllAttributes(g) { OwnerJoined(g, RelationsOf(steps), a); }
    }
  }

  lemma OwnerJoined(g: QueryGraph, rs: seq<nat>, a: Attr)
    requires a < TotalAttributes(g) && (forall r :: r in rs ==> r < RelationCount(g)) && forall r :: r in Relations(g) ==> r in rs
    ensures a in AttrsJoined(g, rs)
  {
    var r := RelationOf(g.columnCounts, a, RelationCount(g));
    assert Relations(g)[r] == r && r in Relations(g);
    assert r in rs && a in AttributesOf(g, r);
  }

  /** Some relation owns every attribute. */
  lemma {:induction false} RelationOf(counts: seq<nat>, a: Attr, n: nat) returns (r: nat)
    requires n <= |counts| && a < Base(counts, n)
    ensures r < n && Base(counts, r) <= a < Base(counts, r + 1)
  {
    if a < Base(counts, n - 1) { r := RelationOf(counts, a, n - 1); } else { r := n - 1; }
  }

  //
  // Sums
  //

  predicate IsColumn(g: QueryGraph, relation: nat, column: nat) {
    relation < RelationCount(g) && column < g.columnCounts[relation]
  }

  /** The sum of a column over the join, and over how many rows: a sum of zero says nothing
      about whether there was anything to add. */
  method ExecuteSum(q: Query, data: Data, relation: nat, column: nat) returns (r: Outcome<(int, nat)>)
    requires Posed(q, data)
    ensures !q.plan.complete <==> r == Failed(NoPlan)
    ensures q.plan.complete && !IsColumn(q.graph, relation, column) <==> r == Failed(BadRequest)
    ensures q.plan.complete && IsColumn(q.graph, relation, column) && !TypesGiven(q.graph) <==> r == Failed(Malformed)
    ensures r.Ok? ==> FitsPlan(q) && ValidData(q.graph, data)
    ensures r.Ok? ==>
      r.value == (SumOf(FoundRows(q.graph, data), AttributeOf(q.graph, relation, column)), |FoundRows(q.graph, data)|)
    ensures r.Ok? && WidthsAgree(q.graph) ==>
      r.value == (SumOf(JoinRows(q.graph, data), AttributeOf(q.graph, relation, column)), |JoinRows(q.graph, data)|)
    ensures r == Failed(KeyTooWide) ==> !FitsPlan(q)
    ensures r.Failed? ==> r.error in {NoPlan, BadRequest, Malformed, KeyTooWide, OutOfMemory, Overflow}
  {
    var g := q.graph;
    if !q.plan.complete { return Failed(NoPlan); }
    if relation >= |g.columnCounts| || column >= g.columnCounts[relation] { return Failed(BadRequest); }
    var built, classes := BuildRepresentation(q, data);
    if built.Failed? { return Failed(built.error); }
    r := SumOver(built.value, AttributeOf(g, relation, column));
    if r.Failed? { return Failed(Overflow); }
    ghost var bag := FlatAll(built.value.roots);
    SumPerm(bag, FoundRows(g, data), AttributeOf(g, relation, column));
    PermLength(bag, FoundRows(g, data));
    if WidthsAgree(g) { FoundAsAsked(g, data); }
  }

  /** Roots are alternatives, so their sums add. */
  method SumOver(acc: FRelation, x: Attr) returns (r: Outcome<(int, nat)>)
    requires ValidRelation(acc)
    ensures r.Ok? ==> r.value == (SumOf(FlatAll(acc.roots), x), |FlatAll(acc.roots)|)
  {
    hide Faithful, Settled, SumOf, Flat, FlatAll, Conforms;
    var rep := new FRepresentation(acc.roots);
    var total, tuples: nat := 0, 0;
    SumOfNothing(x);
    NoFlat();
    for i := 0 to |acc.roots|
      invariant rep.Valid() && total == SumOf(FlatAll(acc.roots[..i]), x) && tuples == |FlatAll(acc.roots[..i])|
    {
      FlatAllSnoc(acc.roots, i);
      ShapedRoot(acc.roots, acc.tree, i);
      SumAppend(FlatAll(acc.roots[..i]), Flat(acc.roots[i]), x);
      SizeIsCount(acc.roots[i]);
      var sum :- SubtreeSum(rep, Root(i), x, acc.tree);
      total :- PlusInt(total, sum);
      var size :- rep.SubtreeSize(Root(i));
      tuples :- Plus(tuples, size);
    }
    assert acc.roots[..|acc.roots|] == acc.roots;
    return Ok((total, tuples));
  }

  lemma ProductPerm(a: seq<Tuple>, b: seq<Tuple>, x: Attr, y: Attr)
    requires Perm(a, b)
    ensures ProductOf(a, x, y) == ProductOf(b, x, y)
    decreases |a|
  {
    PermLength(a, b);
    if a != [] {
      var i := PermSplit(a, b);
      ProductPerm(a[1..], b[..i] + b[i + 1..], x, y);
      assert b == b[..i] + ([b[i]] + b[i + 1..]) && ([b[i]] + b[i + 1..])[1..] == b[i + 1..];
      ProductAppend(b[..i], [b[i]] + b[i + 1..], x, y);
      ProductAppend(b[..i], b[i + 1..], x, y);
    }
  }

  /** The sum of one column times another over the join, in 128 bits. The plan must be complete. */
  method ExecuteProductSum(q: Query, data: Data, xr: nat, xc: nat, yr: nat, yc: nat) returns (r: Outcome<(Int128s.Int128, nat)>)
    requires Posed(q, data) && q.plan.complete && IsColumn(q.graph, xr, xc) && IsColumn(q.graph, yr, yc)
    ensures !TypesGiven(q.graph) <==> r == Failed(Malformed)
    ensures r.Ok? ==> FitsPlan(q) && ValidData(q.graph, data) && Int128s.Valid(r.value.0)
    ensures r.Ok? ==> var b := FoundRows(q.graph, data);
      r.value.1 == |b| && Int128s.Value(r.value.0) == ProductOf(b, AttributeOf(q.graph, xr, xc), AttributeOf(q.graph, yr, yc))
    ensures r.Ok? && WidthsAgree(q.graph) ==> var b := JoinRows(q.graph, data);
      r.value.1 == |b| && Int128s.Value(r.value.0) == ProductOf(b, AttributeOf(q.graph, xr, xc), AttributeOf(q.graph, yr, yc))
    ensures r == Failed(KeyTooWide) ==> !FitsPlan(q)
    ensures r.Failed? ==> r.error in {Malformed, KeyTooWide, OutOfMemory, Overflow}
  {
    var g := q.graph;
    var built, classes := BuildRepresentation(q, data);
    if built.Failed? { return Failed(built.error); }
    ghost var bag := FlatAll(built.value.roots);
    r := ProductSumOver(built.value, AttributeOf(g, xr, xc), AttributeOf(g, yr, yc), TypesIn(g));
    if r.Failed? { return Failed(Overflow); }
    ProductPerm(bag, FoundRows(g, data), AttributeOf(g, xr, xc), AttributeOf(g, yr, yc));
    PermLength(bag, FoundRows(g, data));
    if WidthsAgree(g) { FoundAsAsked(g, data); }
  }

  method ProductSumOver(acc: FRelation, x: Attr, y: Attr, ghost types: Types) returns (r: Outcome<(Int128s.Int128, nat)>)
    requires ValidRelation(acc) && RangedAll(acc.roots, types)
    ensures r.Ok? ==> Int128s.Valid(r.value.0) && r.value.1 == |FlatAll(acc.roots)|
    ensures r.Ok? ==> Int128s.Value(r.value.0) == ProductOf(FlatAll(acc.roots), x, y)
  {
    hide Faithful, Settled, SumOf, ProductOf, Flat, FlatAll, Conforms, Int128s.CheckedAdd128, Int128s.Value, Int128s.Valid;
    var rep := new FRepresentation(acc.roots);
    var total, tuples: nat := Int128s.OfInt64(0), 0;
    Nothing(x, y);
    NoFlat();
    for i := 0 to |acc.roots|
      invariant rep.Valid() && Int128s.Valid(total) && tuples == |FlatAll(acc.roots[..i])|
      invariant Int128s.Value(total) == ProductOf(FlatAll(acc.roots[..i]), x, y)
    {
      FlatAllSnoc(acc.roots, i);
      ShapedRoot(acc.roots, acc.tree, i);
      assert acc.roots[i] in acc.roots;
      ProductAppend(FlatAll(acc.roots[..i]), Flat(acc.roots[i]), x, y);
      var sums :- SubtreeProductSum(rep, Root(i), x, y, acc.tree, types);
      total :- Add128(total, sums.sumXY);
      tuples :- Plus(tuples, sums.count);
    }
    assert acc.roots[..|acc.roots|] == acc.roots;
    return Ok((total, tuples));
  }

  //
  // Groups
  //

  datatype GroupKey = GroupKey(relation: nat, column: nat)

  datatype GroupAggregate = GroupAggregate(kind: Kind, relation: nat, column: nat)

  const MAX_AGGREGATES: nat := 8

  predicate IsKey(g: QueryGraph, k: GroupKey) {
    IsColumn(g, k.relation, k.column)
  }

  /** One to eight aggregates, each of a kind that can be grouped and, but for a count, of a column of
      the query; and every key is one. */
  predicate RequestOk(g: QueryGraph, keys: seq<GroupKey>, aggs: seq<GroupAggregate>) {
    && 1 <= |aggs| <= 8
    && (forall a :: a in aggs ==> a.kind in {COUNT, SUM, AVG, MIN, MAX} && (a.kind != COUNT ==> IsColumn(g, a.relation, a.column)))
    && forall k :: k in keys ==> IsKey(g, k)
  }

  method CheckRequest(g: QueryGraph, keys: seq<GroupKey>, aggs: seq<GroupAggregate>) returns (ok: bool)
    ensures ok <==> RequestOk(g, keys, aggs)
  {
    if aggs == [] || |aggs| > MAX_AGGREGATES { return false; }
    for i := 0 to |aggs|
      invariant forall a :: a in aggs[..i] ==> a.kind in {COUNT, SUM, AVG, MIN, MAX} && (a.kind != COUNT ==> IsColumn(g, a.relation, a.column))
    {
      var a := aggs[i];
      assert a in aggs;
      if a.kind == SUM_PRODUCT { return false; }
      if a.kind != COUNT && (a.relation >= |g.columnCounts| || a.column >= g.columnCounts[a.relation]) { return false; }
    }
    for i := 0 to |keys|
      invariant forall k :: k in keys[..i] ==> IsKey(g, k)
    {
      assert keys[i] in keys;
      if keys[i].relation >= |g.columnCounts| || keys[i].column >= g.columnCounts[keys[i].relation] { return false; }
    }
    assert aggs == aggs[..|aggs|] && keys == keys[..|keys|];
    return true;
  }

  function WantedOf(g: QueryGraph, keys: seq<GroupKey>): (w: seq<Attr>)
    requires forall k :: k in keys ==> IsKey(g, k)
    ensures |w| == |keys| && forall i :: 0 <= i < |w| ==> IsKey(g, keys[i]) && w[i] == KeyAttribute(g, keys[i])
  {
    seq(|keys|, i requires 0 <= i < |keys| => assert keys[i] in keys; KeyAttribute(g, keys[i]))
  }

  function KeyAttribute(g: QueryGraph, k: GroupKey): Attr
    requires IsKey(g, k)
  {
    AttributeOf(g, k.relation, k.column)
  }

  function AggregateFor(g: QueryGraph, a: GroupAggregate): Aggregate
    requires a.kind != COUNT ==> IsColumn(g, a.relation, a.column)
  {
    Aggregate(a.kind, if a.kind == COUNT then 0 else AttributeOf(g, a.relation, a.column))
  }

  function AggregatesFor(g: QueryGraph, aggs: seq<GroupAggregate>): (s: seq<Aggregate>)
    requires forall a :: a in aggs ==> a.kind != COUNT ==> IsColumn(g, a.relation, a.column)
    ensures |s| == |aggs| && forall i :: 0 <= i < |s| ==> aggs[i] in aggs && s[i] == AggregateFor(g, aggs[i])
  {
    seq(|aggs|, i requires 0 <= i < |aggs| => assert aggs[i] in aggs; AggregateFor(g, aggs[i]))
  }

  /** Each site is stored in the tree and equals the column asked for. */
  ghost predicate SitesFor(sites: seq<Attr>, wanted: seq<Attr>, roots: Roots, tree: FNode) {
    |sites| == |wanted| && forall i :: 0 <= i < |sites| ==> SiteFor(sites[i], wanted[i], roots, tree)
  }

  ghost predicate SiteFor(site: Attr, wanted: Attr, roots: Roots, tree: FNode) {
    site in AttrSet(tree) && site < |roots| && wanted < |roots| && roots[site] == roots[wanted]
  }

  datatype Found = Found(site: Attr) | NotFound

  /** The least attribute below `limit`, of those a node stores, that equals the wanted one. */
  function FirstSite(attrs: set<Attr>, wanted: Attr, roots: Roots, limit: nat): Found
    requires wanted < |roots| && limit <= |roots|
  {
    if limit == 0 then NotFound
    else
      var sooner := FirstSite(attrs, wanted, roots, limit - 1);
      if sooner.NotFound? && limit - 1 in attrs && roots[limit - 1] == roots[wanted] then Found(limit - 1) else sooner
  }

  /** The site at the first node, from the root on, that stores the wanted attribute or an equal one. */
  function SiteOf(n: FNode, wanted: Attr, roots: Roots): Found
    requires wanted < |roots|
    decreases n, 1
  {
    var here := FirstSite(n.attrs, wanted, roots, |roots|);
    if here.Found? then here else SiteIn(n.children, wanted, roots)
  }

  function SiteIn(ns: seq<FNode>, wanted: Attr, roots: Roots): Found
    requires wanted < |roots|
    decreases ns, 0
  {
    if ns == [] then NotFound
    else
      var first := SiteOf(ns[0], wanted, roots);
      if first.Found? then first else SiteIn(ns[1..], wanted, roots)
  }

  lemma {:induction false} FirstSiteIs(attrs: set<Attr>, wanted: Attr, roots: Roots, limit: nat)
    requires wanted < |roots| && limit <= |roots|
    ensures var f := FirstSite(attrs, wanted, roots, limit);
      && (f.Found? ==> f.site in attrs && f.site < |roots| && roots[f.site] == roots[wanted])
      && (f.NotFound? && wanted < limit ==> wanted !in attrs)
  {
    if limit > 0 { FirstSiteIs(attrs, wanted, roots, limit - 1); }
  }

  /** An attribute the tree stores has a site, stored in the tree and equal to it. */
  lemma {:induction false} SiteIs(n: FNode, wanted: Attr, roots: Roots)
    requires wanted < |roots|
    ensures SiteOf(n, wanted, roots).Found? ==> SiteFor(SiteOf(n, wanted, roots).site, wanted, roots, n)
    ensures wanted in AttrSet(n) ==> SiteOf(n, wanted, roots).Found?
    decreases n, 1
  {
    FirstSiteIs(n.attrs, wanted, roots, |roots|);
    SiteInIs(n.children, wanted, roots);
  }

  lemma {:induction false} SiteInIs(ns: seq<FNode>, wanted: Attr, roots: Roots)
    requires wanted < |roots|
    ensures var f := SiteIn(ns, wanted, roots);
      f.Found? ==> f.site in AttrSetAll(ns) && f.site < |roots| && roots[f.site] == roots[wanted]
    ensures wanted in AttrSetAll(ns) ==> SiteIn(ns, wanted, roots).Found?
    decreases ns, 0
  {
    if ns != [] {
      SiteIs(ns[0], wanted, roots);
      SiteInIs(ns[1..], wanted, roots);
    }
  }

  function SitesOf(tree: FNode, wanted: seq<Attr>, roots: Roots): (sites: seq<Attr>)
    requires forall w :: w in wanted ==> w < |roots|
    ensures |sites| == |wanted|
  {
    seq(|wanted|, i requires 0 <= i < |wanted| =>
      assert wanted[i] in wanted;
      var f := SiteOf(tree, wanted[i], roots);
      if f.Found? then f.site else 0)
  }

  lemma SameSize(classes: EquivalenceClasses)
    requires classes.Valid()
    ensures |classes.parent| == |classes.roots|
  {}

  method FindSite(n: FNode, wanted: Attr, classes: EquivalenceClasses) returns (f: Found)
    requires classes.Valid() && wanted < |classes.roots|
    modifies classes`parent
    ensures classes.Valid() && f == SiteOf(n, wanted, classes.roots)
    decreases n, 1
  {
    hide LeadTo;
    f := NotFound;
    SameSize(classes);
    for a := 0 to |classes.parent|
      invariant classes.Valid() && f.NotFound? && |classes.parent| == |classes.roots|
      invariant FirstSite(n.attrs, wanted, classes.roots, a) == f
    {
      if a !in n.attrs { continue; }
      var same := classes.SameClass(a, wanted);
      SameSize(classes);
      if a == wanted || same {
        f := Found(a);
        FirstStays(n.attrs, wanted, classes.roots, a + 1, |classes.roots|);
        return;
      }
    }
    f := FindSiteIn(n.children, wanted, classes);
  }

  lemma {:induction false} FirstStays(attrs: set<Attr>, wanted: Attr, roots: Roots, i: nat, limit: nat)
    requires wanted < |roots| && i <= limit <= |roots| && FirstSite(attrs, wanted, roots, i).Found?
    ensures FirstSite(attrs, wanted, roots, limit) == FirstSite(attrs, wanted, roots, i)
  {
    if i < limit { FirstStays(attrs, wanted, roots, i, limit - 1); }
  }

  method FindSiteIn(ns: seq<FNode>, wanted: Attr, classes: EquivalenceClasses) returns (f: Found)
    requires classes.Valid() && wanted < |classes.roots|
    modifies classes`parent
    ensures classes.Valid() && f == SiteIn(ns, wanted, classes.roots)
    decreases ns, 0
  {
    hide LeadTo;
    if ns == [] { return NotFound; }
    f := FindSite(ns[0], wanted, classes);
    if f.NotFound? { f := FindSiteIn(ns[1..], wanted, classes); }
  }

  /** Where each key is stored. In a representation of the whole join everything is. */
  method FindSites(tree: FNode, wanted: seq<Attr>, classes: EquivalenceClasses) returns (sites: seq<Attr>)
    requires classes.Valid() && forall w :: w in wanted ==> w in AttrSet(tree) && w < |classes.roots|
    modifies classes`parent
    ensures classes.Valid() && sites == SitesOf(tree, wanted, classes.roots) && SitesFor(sites, wanted, classes.roots, tree)
  {
    hide LeadTo, AttrSet;
    sites := [];
    for i := 0 to |wanted|
      invariant classes.Valid() && |sites| == i
      invariant forall j :: 0 <= j < i ==>
        sites[j] == SitesOf(tree, wanted, classes.roots)[j] && SiteFor(sites[j], wanted[j], classes.roots, tree)
    {
      assert wanted[i] in wanted;
      var f := FindSite(tree, wanted[i], classes);
      SiteIs(tree, wanted[i], classes.roots);
      sites := sites + [f.site];
    }
  }

  lemma EntryAt(out: Out, b: seq<Tuple>, keys: seq<Attr>, k: seq<int>, dirty: bool, aggs: seq<Aggregate>)
    requires OutIs(out, GroupsBy(b, keys), dirty, aggs)
    ensures EntryIs(out, Matching(b, keys, k), k, dirty, aggs)
  {
    assert EntryIs(out, GroupsBy(b, keys)(k), k, dirty, aggs);
  }

  /** Turns the folds into rows. */
  method Emit(out: Out, aggs: seq<Aggregate>, ghost b: seq<Tuple>, ghost keys: seq<Attr>, ghost dirty: bool) returns (groups: GroupTable)
    requires OutIs(out, GroupsBy(b, keys), dirty, aggs)
    ensures GroupsAre(groups, b, keys, aggs, dirty)
  {
    hide SumOf, ExtremeOf, Matching;
    groups := map[];
    var left := out.Keys;
    while left != {}
      invariant left <= out.Keys && groups.Keys == out.Keys - left
      invariant forall k :: k in groups ==> RowIs(groups[k], Matching(b, keys, k), aggs, dirty)
      decreases |left|
    {
      var k :| k in left;
      var f := out[k];
      EntryAt(out, b, keys, k, dirty, aggs);
      var row := GroupRow(seq(|aggs|, i requires 0 <= i < |aggs| =>
        if IsSum(aggs[i]) then f.sums[i] else if IsExtreme(aggs[i]) then f.extremes[i] else f.count), f.count);
      forall i | 0 <= i < |aggs| ensures row.values[i] == ValueOf(Matching(b, keys, k), aggs[i], dirty) {
        assert AggregateIs(f, Matching(b, keys, k), dirty, aggs[i], i);
      }
      assert f.count > 0;
      groups, left := groups[k := row], left - {k};
    }
    forall k ensures k in groups <==> Matching(b, keys, k) != [] {
      EntryAt(out, b, keys, k, dirty, aggs);
    }
  }

  lemma SitesCarry(g: QueryGraph, ps: seq<Predicate>, sites: seq<Attr>, wanted: seq<Attr>, tree: FNode, t: Tuple)
    requires EdgesIn(g, ps) && SitesFor(sites, wanted, After(g, ps), tree) && SatAll(t, g, ps)
    ensures KeyOf(t, sites) == KeyOf(t, wanted)
  {
    forall i | 0 <= i < |sites| ensures KeyOf(t, sites)[i] == KeyOf(t, wanted)[i] {
      assert SiteFor(sites[i], wanted[i], After(g, ps), tree);
      if sites[i] != wanted[i] { ClassesHold(g, ps, t, sites[i], wanted[i]); }
    }
  }

  /** A request the query can answer. */
  ghost predicate Groupable(q: Query, data: Data, keys: seq<GroupKey>, aggs: seq<GroupAggregate>) {
    && TypesGiven(q.graph) && ValidData(q.graph, data) && RequestOk(q.graph, keys, aggs)
    && q.plan.steps != [] && StepsIn(q.graph, q.plan.steps)
  }

  /** The columns the groups are read from: for each column asked for, itself or one the joins made
      equal to it, whichever is met first in the tree the plan builds. */
  ghost function SiteKeys(q: Query, keys: seq<GroupKey>): (sites: seq<Attr>)
    requires (forall k :: k in keys ==> IsKey(q.graph, k)) && q.plan.steps != [] && StepsIn(q.graph, q.plan.steps)
    ensures |sites| == |keys|
  {
    WantedStored(q.graph, keys);
    SitesOf(TreeAfter(q.graph, q.plan.steps, q.strategy), WantedOf(q.graph, keys), After(q.graph, EdgesOf(q.plan.steps)))
  }

  /** The keys' sites part into different branches of the tree. */
  ghost predicate Parted(q: Query, keys: seq<GroupKey>)
    requires (forall k :: k in keys ==> IsKey(q.graph, k)) && q.plan.steps != [] && StepsIn(q.graph, q.plan.steps)
  {
    Branches(TreeAfter(q.graph, q.plan.steps, q.strategy), SiteKeys(q, keys))
  }

  /** The table holds the groups of these rows, by the columns they are read from. */
  ghost predicate GroupedAs(groups: GroupTable, q: Query, b: seq<Tuple>, keys: seq<GroupKey>, aggs: seq<GroupAggregate>)
    requires RequestOk(q.graph, keys, aggs) && q.plan.steps != [] && StepsIn(q.graph, q.plan.steps)
  {
    GroupsAre(groups, b, SiteKeys(q, keys), AggregatesFor(q.graph, aggs), Parted(q, keys))
  }

  /** The table holds the groups of these rows, by the columns asked for. */
  ghost predicate GroupedByColumns(groups: GroupTable, q: Query, b: seq<Tuple>, keys: seq<GroupKey>, aggs: seq<GroupAggregate>)
    requires RequestOk(q.graph, keys, aggs) && q.plan.steps != [] && StepsIn(q.graph, q.plan.steps)
  {
    GroupsAre(groups, b, WantedOf(q.graph, keys), AggregatesFor(q.graph, aggs), Parted(q, keys))
  }

  /** The table has a group for each combination of values some row carries in the columns `read`,
      and no other, with the number of its rows and what each aggregate asked for is over them. */
  ghost predicate Answered(groups: GroupTable, g: QueryGraph, b: seq<Tuple>, read: seq<Attr>, aggs: seq<GroupAggregate>, parted: bool)
    requires forall a :: a in aggs && a.kind != COUNT ==> a.relation < |g.columnCounts|
  {
    forall k :: && (k in groups <==> Members(b, read, k) != {})
                && (k in groups ==> GroupAnswered(groups[k], g, b, read, k, aggs, parted))
  }

  ghost predicate GroupAnswered(row: GroupRow, g: QueryGraph, b: seq<Tuple>, read: seq<Attr>, k: seq<int>, aggs: seq<GroupAggregate>,
                                parted: bool)
    requires forall a :: a in aggs && a.kind != COUNT ==> a.relation < |g.columnCounts|
  {
    && row.count == |Members(b, read, k)| && |row.values| == |aggs|
    && forall i :: 0 <= i < |aggs| ==>
         aggs[i] in aggs
         && Tells(row.values[i], b, read, k, aggs[i].kind,
                  if aggs[i].kind == COUNT then 0 else AttributeOf(g, aggs[i].relation, aggs[i].column), parted)
  }

  /** Groups as a table holds them answer the request. */
  lemma TableAnswered(groups: GroupTable, g: QueryGraph, b: seq<Tuple>, read: seq<Attr>, aggs: seq<GroupAggregate>, parted: bool)
    requires forall a :: a in aggs && a.kind != COUNT ==> IsColumn(g, a.relation, a.column)
    requires GroupsAre(groups, b, read, AggregatesFor(g, aggs), parted) && InRanges(b, AggregatesFor(g, aggs))
    requires forall t, x: Attr :: t in b && x < TotalAttributes(g) ==> x in t
    ensures Answered(groups, g, b, read, aggs, parted)
  {
    hide Tells, Members, GroupsAre, InRanges, AttributeOf;
    var folded := AggregatesFor(g, aggs);
    forall t, i | t in b && 0 <= i < |folded| && folded[i].kind in {MIN, MAX} ensures folded[i].attr in t {
      AttributeInjective(g, aggs[i].relation, aggs[i].column, aggs[i].relation, aggs[i].column);
    }
    forall k ensures k in groups <==> Members(b, read, k) != {}
      ensures k in groups ==> GroupAnswered(groups[k], g, b, read, k, aggs, parted)
    {
      TableAnswers(groups, b, read, folded, parted, k);
    }
  }

  /** Every row found has every column. */
  lemma FoundWhole(g: QueryGraph, data: Data)
    requires TypesGiven(g) && ValidData(g, data)
    ensures forall t, x: Attr :: t in FoundRows(g, data) + JoinRows(g, data) && x < TotalAttributes(g) ==> x in t
  {
    hide CrossSeq, SameWords, Satisfies, AttributesOf;
    var all := CrossSeq(ScansOf(g, data, Relations(g)));
    assert forall r :: r in Relations(g) ==> r < RelationCount(g);
    CrossKeys(g, data, Relations(g));
    FilterMembers(all, SameWords(g, NonSelf(g.predicates)));
    FilterMembers(all, Satisfies(g, NonSelf(g.predicates)));
    forall t, x: Attr | t in FoundRows(g, data) + JoinRows(g, data) && x < TotalAttributes(g) ensures x in t {
      OwnerJoined(g, Relations(g), x);
    }
  }

  /** The rows carry the same values where the groups are read as in the columns asked for. */
  ghost predicate SitesAgree(q: Query, b: seq<Tuple>, keys: seq<GroupKey>)
    requires (forall k :: k in keys ==> IsKey(q.graph, k)) && q.plan.steps != [] && StepsIn(q.graph, q.plan.steps)
  {
    forall t :: t in b ==> KeyOf(t, SiteKeys(q, keys)) == KeyOf(t, WantedOf(q.graph, keys))
  }

  lemma ByColumns(groups: GroupTable, q: Query, b: seq<Tuple>, keys: seq<GroupKey>, aggs: seq<GroupAggregate>)
    requires RequestOk(q.graph, keys, aggs) && q.plan.steps != [] && StepsIn(q.graph, q.plan.steps)
    requires GroupedAs(groups, q, b, keys, aggs) && SitesAgree(q, b, keys)
    ensures GroupedByColumns(groups, q, b, keys, aggs)
  {
    hide SiteKeys, Parted, KeyOf, GroupsAre;
    GroupsRekeyed(groups, b, SiteKeys(q, keys), WantedOf(q.graph, keys), AggregatesFor(q.graph, aggs), Parted(q, keys));
  }

  /** In rows of the join the sites and the columns asked for hold the same values. */
  lemma RowsAgree(q: Query, data: Data, keys: seq<GroupKey>)
    requires TypesGiven(q.graph) && ValidGraph(q.graph) && ValidData(q.graph, data)
    requires Planned(q.graph, q.plan.steps) && Covers(q.graph, q.plan.steps) && forall k :: k in keys ==> IsKey(q.graph, k)
    ensures q.plan.steps != [] && StepsIn(q.graph, q.plan.steps) && SitesAgree(q, JoinRows(q.graph, data), keys)
  {
    hide After, TreeAfter, KeyOf, CrossSeq, Sat, StepConnects, StepLands, AttrSet;
    var g, ps, wanted := q.graph, EdgesOf(q.plan.steps), WantedOf(q.graph, keys);
    var tree := TreeAfter(g, q.plan.steps, q.strategy);
    WantedStored(g, keys);
    PlanStores(q);
    EdgesOfIn(g, q.plan.steps);
    PermMembers(ps, NonSelf(g.predicates));
    assert SitesFor(SiteKeys(q, keys), wanted, After(g, ps), tree) by {
      forall i | 0 <= i < |wanted| ensures SiteFor(SiteKeys(q, keys)[i], wanted[i], After(g, ps), tree) {
        assert wanted[i] in wanted;
        SiteIs(tree, wanted[i], After(g, ps));
      }
    }
    FilterMembers(CrossSeq(ScansOf(g, data, Relations(g))), Satisfies(g, NonSelf(g.predicates)));
    forall t | t in JoinRows(g, data) ensures KeyOf(t, SiteKeys(q, keys)) == KeyOf(t, wanted) {
      SitesCarry(g, ps, SiteKeys(q, keys), wanted, tree, t);
    }
  }

  /** The tree of a whole plan stores every attribute. */
  lemma PlanStores(q: Query)
    requires TypesGiven(q.graph) && Planned(q.graph, q.plan.steps) && Covers(q.graph, q.plan.steps)
    ensures q.plan.steps != [] && StepsIn(q.graph, q.plan.steps)
    ensures AttrSet(TreeAfter(q.graph, q.plan.steps, q.strategy)) == AllAttributes(q.graph)
  {
    hide StepConnects, StepLands, TreeAfter;
    TreeAfterBag(q.graph, q.plan.steps, q.strategy);
    AttrSetIsBag(TreeAfter(q.graph, q.plan.steps, q.strategy));
    EveryAttribute(q.graph, q.plan.steps);
  }

  /** The columns a request groups by. */
  ghost function AskedColumns(g: QueryGraph, keys: seq<GroupKey>): seq<Attr>
    requires forall k :: k in keys ==> IsKey(g, k)
  {
    assert forall i :: 0 <= i < |keys| ==> keys[i] in keys;
    seq(|keys|, i requires 0 <= i < |keys| => assert IsKey(g, keys[i]); AttributeOf(g, keys[i].relation, keys[i].column))
  }

  lemma WantedAsked(g: QueryGraph, keys: seq<GroupKey>)
    requires forall k :: k in keys ==> IsKey(g, k)
    ensures WantedOf(g, keys) == AskedColumns(g, keys)
  {}

  /** Grouped rows of the query are answered as asked. */
  lemma RowsAnswered(groups: GroupTable, g: QueryGraph, b: seq<Tuple>, read: seq<Attr>, aggs: seq<GroupAggregate>, parted: bool)
    requires TypesGiven(g) && forall a :: a in aggs && a.kind != COUNT ==> IsColumn(g, a.relation, a.column)
    requires GroupsAre(groups, b, read, AggregatesFor(g, aggs), parted) && AllRanged(b, TypesIn(g))
    requires forall t, x: Attr :: t in b && x < TotalAttributes(g) ==> x in t
    ensures Answered(groups, g, b, read, aggs, parted)
  {
    hide GroupsAre, AllRanged, Answered, TypesIn;
    forall i | 0 <= i < |aggs| ensures InRange64(b, AggregatesFor(g, aggs)[i].attr) {
      RangedIn64(b, TypesIn(g), AggregatesFor(g, aggs)[i].attr);
    }
    TableAnswered(groups, g, b, read, aggs, parted);
  }

  /** The tables a grouping may return, as answers to the request. */
  lemma GroupingAnswered(groups: GroupTable, q: Query, data: Data, b: seq<Tuple>, keys: seq<GroupKey>, aggs: seq<GroupAggregate>)
    requires Groupable(q, data, keys, aggs) && forall t :: t in b ==> t in FoundRows(q.graph, data)
    ensures GroupedAs(groups, q, b, keys, aggs) ==> Answered(groups, q.graph, b, SiteKeys(q, keys), aggs, Parted(q, keys))
    ensures GroupedByColumns(groups, q, b, keys, aggs) ==> Answered(groups, q.graph, b, AskedColumns(q.graph, keys), aggs, Parted(q, keys))
  {
    hide FoundRows, GroupsAre, Answered, SiteKeys, Parted, TypesIn, TupleRanged, WantedOf, AskedColumns;
    RowsRanged(q.graph, data);
    FoundWhole(q.graph, data);
    WantedAsked(q.graph, keys);
    if GroupedAs(groups, q, b, keys, aggs) { RowsAnswered(groups, q.graph, b, SiteKeys(q, keys), aggs, Parted(q, keys)); }
    if GroupedByColumns(groups, q, b, keys, aggs) { RowsAnswered(groups, q.graph, b, AskedColumns(q.graph, keys), aggs, Parted(q, keys)); }
  }

  /** Groups the rows found by any columns. Counts and sums are exact; a minimum or maximum is
      exact unless the keys part, when it is compared with a zero no row carries. Where widths
      agree the groups are those of the join by the columns asked for. */
  method GroupBy(q: Query, data: Data, keys: seq<GroupKey>, aggs: seq<GroupAggregate>) returns (r: Outcome<GroupTable>)
    requires Posed(q, data)
    ensures !q.plan.complete <==> r == Failed(NoPlan)
    ensures q.plan.complete && !RequestOk(q.graph, keys, aggs) <==> r == Failed(BadRequest)
    ensures q.plan.complete && RequestOk(q.graph, keys, aggs) && !TypesGiven(q.graph) <==> r == Failed(Malformed)
    ensures r == Failed(KeyTooWide) ==> !FitsPlan(q)
    ensures r.Failed? ==> r.error in {NoPlan, BadRequest, Malformed, KeyTooWide, OutOfMemory, Overflow}
    ensures r.Ok? ==> Groupable(q, data, keys, aggs) && GroupedAs(r.value, q, FoundRows(q.graph, data), keys, aggs)
    ensures r.Ok? ==> Answered(r.value, q.graph, FoundRows(q.graph, data), SiteKeys(q, keys), aggs, Parted(q, keys))
    ensures r.Ok? && WidthsAgree(q.graph) ==> GroupedByColumns(r.value, q, JoinRows(q.graph, data), keys, aggs)
    ensures r.Ok? && WidthsAgree(q.graph) ==>
      Answered(r.value, q.graph, JoinRows(q.graph, data), AskedColumns(q.graph, keys), aggs, Parted(q, keys))
  {
    var g := q.graph;
    if !q.plan.complete { return Failed(NoPlan); }
    var asked := CheckRequest(g, keys, aggs);
    if !asked { return Failed(BadRequest); }
    hide Planned, Covers, GroupsAre, Answered, AskedColumns, LeadTo, After, SatAll, SameWords, FoundRows,
         JoinRows, WidthsAgree, GroupedByColumns, SitesAgree, StepsFit;
    var built, classes := BuildRepresentation(q, data);
    if built.Failed? { return Failed(built.error); }
    var acc, wanted, folded := built.value, WantedOf(g, keys), AggregatesFor(g, aggs);
    WantedStored(g, keys);
    var sites := FindSites(acc.tree, wanted, classes);
    SitesStored(sites, wanted, classes.roots, acc.tree);
    var rep := new FRepresentation(acc.roots);
    var fold := new GroupFold(rep, sites, folded, TypesIn(g));
    var out := fold.Run(acc.tree);
    if out.Failed? { return Failed(Overflow); }
    ghost var dirty := Branches(acc.tree, sites);
    var groups := Emit(out.value, folded, FlatAll(acc.roots), sites, dirty);
    RangesOfAll(acc.roots, TypesIn(g), folded);
    GroupsPerm(groups, FlatAll(acc.roots), FoundRows(g, data), sites, folded, dirty);
    if WidthsAgree(g) {
      FoundAsAsked(g, data);
      RowsAgree(q, data, keys);
      ByColumns(groups, q, JoinRows(g, data), keys, aggs);
    }
    GroupingAnswered(groups, q, data, FoundRows(g, data), keys, aggs);
    r := Ok(groups);
  }

  lemma WantedStored(g: QueryGraph, keys: seq<GroupKey>)
    requires forall k :: k in keys ==> IsKey(g, k)
    ensures forall w :: w in WantedOf(g, keys) ==> w < TotalAttributes(g)
  {
    forall i | 0 <= i < |keys| ensures WantedOf(g, keys)[i] < TotalAttributes(g) {
      assert keys[i] in keys;
      AttributeInjective(g, keys[i].relation, keys[i].column, keys[i].relation, keys[i].column);
    }
  }

  lemma SitesStored(sites: seq<Attr>, wanted: seq<Attr>, roots: Roots, tree: FNode)
    requires SitesFor(sites, wanted, roots, tree)
    ensures forall s :: s in sites ==> s in AttrSet(tree)
  {
    forall i | 0 <= i < |sites| ensures sites[i] in AttrSet(tree) { assert SiteFor(sites[i], wanted[i], roots, tree); }
  }
}
