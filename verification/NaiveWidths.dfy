/** A plan is made for level-wise merging. Under the naive strategy its keys converge all the same,
    but where widths are mixed they need not fit a word any more: a column the planner saw rewritten
    to a narrower one nearer the root stays itself once the nodes above it are merged. */
module NaiveWidths {
  import opened Bags
  import opened FTrees
  import opened Restructuring
  import opened Transforming
  import opened Joins
  import opened FactorizedJoins
  import opened Convergence
  import opened KeyPacking
  import opened Ranges
  import opened Graphs
  import opened Equalities
  import opened Plans
  import opened Answering
  import opened Executing

  /** The first column of relation 1 is wide, every other one narrow. */
  function WideBelow(): QueryGraph {
    QueryGraph([2, 3, 2, 2], [[INT32, INT32], [INT64, INT32, INT32], [INT32, INT32], [INT32, INT32]],
               [Predicate(0, 0, 1, 0), Predicate(1, 1, 2, 0), Predicate(1, 2, 2, 1), Predicate(1, 0, 3, 0), Predicate(0, 1, 3, 1)])
  }

  function Steps(ps: seq<Predicate>): (steps: seq<PlanStep>)
    requires |ps| == 5
    ensures |steps| == 4
  {
    [PlanStep(0, []), PlanStep(1, [ps[0]]), PlanStep(2, [ps[1], ps[2]]), PlanStep(3, [ps[3], ps[4]])]
  }

  /** The graph by its attributes: relation 0 has 0 and 1, relation 1 has 2, 3 and 4, relation 2 has
      5 and 6, relation 3 has 7 and 8. */
  ghost predicate Described(g: QueryGraph) {
    && TypesGiven(g) && ValidGraph(g) && RelationCount(g) == 4 && |g.predicates| == 5 && TotalAttributes(g) == 9
    && AttributesOf(g, 0) == {0, 1} && AttributesOf(g, 1) == {2, 3, 4} && AttributesOf(g, 2) == {5, 6} && AttributesOf(g, 3) == {7, 8}
    && (forall a | 0 <= a < 9 :: TypeOf(TypesIn(g), a) == if a == 2 then INT64 else INT32)
    && Is(g, 0, 0, 0, 1, 2) && Is(g, 1, 1, 3, 2, 5) && Is(g, 2, 1, 4, 2, 6) && Is(g, 3, 1, 2, 3, 7) && Is(g, 4, 0, 1, 3, 8)
  }

  /** Predicate `i` compares attribute `a` of relation `r` with attribute `b` of relation `s`. */
  ghost predicate Is(g: QueryGraph, i: nat, r: nat, a: Attr, s: nat, b: Attr)
    requires i < |g.predicates| && r < RelationCount(g) && s < RelationCount(g)
  {
    var p := g.predicates[i];
    p.left == r && p.right == s && LeftOf(g, p) == a && RightOf(g, p) == b
  }

  lemma IsDescribed()
    ensures Described(WideBelow())
  {
    hide TypesIn;
    var g := WideBelow();
    var cs := g.columnCounts;
    assert Base(cs, 0) == 0 && Base(cs, 1) == 2 && Base(cs, 2) == 5 && Base(cs, 3) == 7 && Base(cs, 4) == 9;
    forall a | 0 <= a < 9 ensures TypeOf(TypesIn(g), a) == if a == 2 then INT64 else INT32 {
      var r := if a < 2 then 0 else if a < 5 then 1 else if a < 7 then 2 else 3;
      TypeOfColumn(g, r, a - Base(cs, r));
    }
  }

  //
  // The plan joins the relations in order
  //

  lemma Prefixes(ps: seq<Predicate>)
    requires |ps| == 5
    ensures var s := Steps(ps);
      && s[..1] == [s[0]] && s[..2] == [s[0], s[1]] && s[..3] == [s[0], s[1], s[2]] && s[..4] == s
      && EdgesOf(s[..1]) == [] && EdgesOf(s[..2]) == ps[..1] && EdgesOf(s[..3]) == ps[..3] && EdgesOf(s) == ps
  {
    var s := Steps(ps);
    assert s[..1] == [s[0]] && s[..2] == s[..1] + [s[1]] && s[..3] == s[..2] + [s[2]] && s == s[..3] + [s[3]];
    NoEdges(s[0]);
    EdgesSnoc(s[..1], s[1]);
    EdgesSnoc(s[..2], s[2]);
    EdgesSnoc(s[..3], s[3]);
  }

  lemma Connected(g: QueryGraph)
    requires Described(g)
    ensures AllConnect(g, Steps(g.predicates)) && StepsIn(g, Steps(g.predicates))
  {
    hide AttributesOf, TypesIn, StepConnects, Is;
    var s := Steps(g.predicates);
    assert s[..0] == [] && RelationsOf(s[..1]) == [0] && RelationsOf(s[..2]) == [0, 1] && RelationsOf(s[..3]) == [0, 1, 2];
    ConnectsAt(g, s, 0, []);
    ConnectsAt(g, s, 1, [0]);
    ConnectsAt(g, s, 2, [0, 1]);
    ConnectsAt(g, s, 3, [0, 1, 2]);
  }

  lemma ConnectsAt(g: QueryGraph, s: seq<PlanStep>, i: nat, rs: seq<nat>)
    requires Described(g) && s == Steps(g.predicates) && i < 4 && rs == RelationsOf(s[..i])
    requires rs == if i == 0 then [] else if i == 1 then [0] else if i == 2 then [0, 1] else [0, 1, 2]
    ensures StepConnects(g, s, i) && s[i].relation < RelationCount(g) && EdgesIn(g, s[i].edges)
  {
    hide AttributesOf, TypesIn, LeftOf, RightOf;
    var ps := g.predicates;
    assert forall r :: r in SetOf(rs) <==> r in rs;
    assert SetOf(rs) == if i == 0 then {} else if i == 1 then {0} else if i == 2 then {0, 1} else {0, 1, 2};
    assert ps[0] in ps && ps[1] in ps && ps[2] in ps && ps[3] in ps && ps[4] in ps;
  }

  lemma Covered(g: QueryGraph)
    requires Described(g)
    ensures Covers(g, Steps(g.predicates))
  {
    hide AttributesOf, LeftOf, RightOf, TypesGiven;
    Prefixes(g.predicates);
    AllNonSelf(g.predicates);
  }

  lemma {:induction false} AllNonSelf(ps: seq<Predicate>)
    requires forall i :: 0 <= i < |ps| ==> ps[i].left != ps[i].right
    ensures NonSelf(ps) == ps
  {
    if ps != [] { AllNonSelf(ps[1..]); }
  }

  //
  // Its keys
  //

  lemma Columns(g: QueryGraph)
    requires Described(g)
    ensures StepsIn(g, Steps(g.predicates))
    ensures var s := Steps(g.predicates);
      && RawKeys(g, 1, s[1].edges) == [0] && RawKeys(g, 2, s[2].edges) == [3, 4] && RawKeys(g, 3, s[3].edges) == [2, 1]
      && NewKeys(g, 1, s[1].edges) == [2] && NewKeys(g, 2, s[2].edges) == [5, 6] && NewKeys(g, 3, s[3].edges) == [7, 8]
  {
    hide LeftOf, RightOf, AttributesOf;
    Connected(g);
  }

  /** Attributes equal by the first predicate, or by the first three, have one label. */
  function Label(n: nat): Tuple {
    map[0 := 0, 1 := 1, 2 := 0, 3 := 3, 4 := 4, 5 := if n < 2 then 5 else 3, 6 := if n < 2 then 6 else 4, 7 := 7, 8 := 8]
  }

  /** The equalities applied before a step keep attributes with different labels apart. */
  lemma Separate(g: QueryGraph, n: nat, a: Attr, b: Attr)
    requires Described(g) && (n < 2 || n == 3) && a < 9 && b < 9
    requires After(g, g.predicates[..n])[a] == After(g, g.predicates[..n])[b]
    ensures Label(n)[a] == Label(n)[b]
  {
    hide After, LeftOf, RightOf, AttributesOf;
    var ps := g.predicates[..n];
    forall p | p in ps ensures Sat(Label(n), g, p) && PredicateIn(g, p) {
      var i :| 0 <= i < n && p == g.predicates[i];
      assert g.predicates[i] in g.predicates;
    }
    if a != b { ClassesHold(g, ps, Label(n), a, b); }
  }

  /** Columns no equality has touched stay themselves. */
  lemma Untouched(g: QueryGraph, n: nat, t: FNode, a: Attr)
    requires Described(g) && if n < 2 then a in {1, 3, 4} else n == 3 && a == 1
    ensures Rewritten(After(g, g.predicates[..n]), t, a) == a
  {
    hide After, LeftOf, RightOf, AttributesOf;
    var roots := After(g, g.predicates[..n]);
    ShallowestIs(roots, t, a);
    Separate(g, n, Shallowest(roots, t, a), a);
  }

  /** The wide column is known to equal one of relation 0, and gives way to it only where it is
      nearer to the root. */
  lemma GivesWay(g: QueryGraph, t: FNode)
    requires Described(g) && DepthOf(t, 0) == 0 && DepthOf(t, 2) >= 0
    ensures Rewritten(After(g, g.predicates[..3]), t, 2) == if DepthOf(t, 2) == 0 then 2 else 0
  {
    hide After, LeftOf, RightOf, AttributesOf, DepthOf;
    var ps := g.predicates[..3];
    var roots := After(g, ps);
    ShallowestIs(roots, t, 2);
    var s := Shallowest(roots, t, 2);
    Separate(g, 3, s, 2);
    assert s in {0, 2};
    if DepthOf(t, 2) == 0 {
      NeverNearer(roots, t, 2, |roots|);
    } else {
      assert g.predicates[0] in g.predicates && ps[0] == g.predicates[0] && ps[0] in ps;
      PredicatesInClasses(g, ps, ps[0]);
      assert roots[0] == roots[2];
    }
  }

  /** Nothing is nearer than the root. */
  lemma {:induction false} NeverNearer(roots: Roots, t: FNode, key: Attr, n: nat)
    requires n <= |roots| && key < |roots| && DepthOf(t, key) == 0
    ensures ShallowestBelow(roots, t, key, n) == key
  {
    if n > 0 { NeverNearer(roots, t, key, n - 1); }
  }

  //
  // The trees it builds
  //

  /** A scan has nothing to merge. */
  lemma ScanPath(attrs: set<Attr>, keys: seq<Attr>, strategy: PathStrategy)
    ensures PathTree(Scan(attrs), keys, strategy) == FNode(attrs, [[]], []) && InsertionPath(Scan(attrs), keys, strategy) == []
  {
    assert Stamp(Scan(attrs), []) == FNode(attrs, [[]], []);
    assert attrs + {} == attrs;
  }

  /** Two relations joined are a root and its child under either strategy. */
  lemma Two(g: QueryGraph, strategy: PathStrategy)
    requires Described(g)
    ensures StepsIn(g, Steps(g.predicates)[..2])
    ensures TreeAfter(g, Steps(g.predicates)[..2], strategy).attrs == {0, 1}
    ensures var c := TreeAfter(g, Steps(g.predicates)[..2], strategy).children; |c| == 1 && c[0].attrs == {2, 3, 4}
  {
    hide RewrittenAll, After, AttributesOf, LeftOf, RightOf, PathTree, InsertionPath;
    var s := Steps(g.predicates);
    Connected(g);
    StepsInPrefix(g, s, 2);
    Prefixes(g.predicates);
    var two := s[..2];
    assert two[..1] == s[..1];
    ScanPath({0, 1}, AccumulatedKeys(g, two, strategy), strategy);
    ScanPath({2, 3, 4}, NewKeys(g, 1, s[1].edges), strategy);
  }

  /** Level-wise merging leaves the root's attributes alone. */
  lemma LevelwiseRoot(u: FNode, l: FNode, uk: seq<Attr>, lk: seq<Attr>)
    ensures JoinTree(u, l, uk, lk, LEVELWISE).attrs == u.attrs
  {
    forall a ensures a in PathTree(u, uk, LEVELWISE).attrs <==> a in u.attrs { PathTreeKeepsDepth(u, uk, a, 0); }
  }

  /** Naive merging takes the attributes of a child that holds a key into the root. */
  lemma NaiveRoot(u: FNode, l: FNode, uk: seq<Attr>, lk: seq<Attr>, a: Attr)
    requires |u.children| == 1 && a in u.children[0].attrs && HoldsKey(u.children[0], uk)
    ensures a in JoinTree(u, l, uk, lk, NAIVE).attrs && u.attrs <= JoinTree(u, l, uk, lk, NAIVE).attrs
  {
    var s := Stamp(u, []);
    var c := s.children[0];
    assert s.children == StampAll(u.children, [], 0);
    assert c == Stamp(u.children[0], [] + [0]);
    assert HoldsKey(c, uk) && Required(c, uk);
    assert Required(s, uk) && a in AbsorbedAttrs(s.children, uk);
  }

  /** The first two steps' tree, and the keys the third step reads from it. */
  lemma ThirdKeys(g: QueryGraph, strategy: PathStrategy)
    requires Described(g)
    ensures StepsIn(g, Steps(g.predicates)[..3]) && AccumulatedKeys(g, Steps(g.predicates)[..3], strategy) == [3, 4]
  {
    hide Rewritten, After, TreeAfter;
    var s := Steps(g.predicates);
    Connected(g);
    StepsInPrefix(g, s, 2);
    StepsInPrefix(g, s, 3);
    Prefixes(g.predicates);
    Columns(g);
    assert s[..3][..2] == s[..2];
    Untouched(g, 1, TreeAfter(g, s[..2], strategy), 3);
    Untouched(g, 1, TreeAfter(g, s[..2], strategy), 4);
  }

  /** After three joins the wide column is in the root under the naive strategy only. */
  lemma Three(g: QueryGraph, strategy: PathStrategy)
    requires Described(g)
    ensures StepsIn(g, Steps(g.predicates)[..3])
    ensures var t := TreeAfter(g, Steps(g.predicates)[..3], strategy);
      && AtMostOnce(AttrBag(t)) && AttrSet(t) == {0, 1, 2, 3, 4, 5, 6}
      && {0, 1} <= t.attrs && (2 in t.attrs <==> strategy == NAIVE)
  {
    hide JoinTree, AccumulatedKeys, NewKeys, After, AttrBag;
    var s := Steps(g.predicates);
    var three, two := s[..3], s[..2];
    ThirdKeys(g, strategy);
    Two(g, strategy);
    Prefixes(g.predicates);
    assert three[..2] == two;
    var u, l, lk := TreeAfter(g, two, strategy), Scan(AttributesOf(g, 2)), NewKeys(g, 2, s[2].edges);
    assert TreeAfter(g, three, strategy) == JoinTree(u, l, [3, 4], lk, strategy);
    if strategy == LEVELWISE {
      LevelwiseRoot(u, l, [3, 4], lk);
    } else {
      assert 3 in [3, 4] && HoldsKey(u.children[0], [3, 4]);
      NaiveRoot(u, l, [3, 4], lk, 2);
    }
    ThreeAttrs(g, strategy);
  }

  lemma ThreeJoined(g: QueryGraph, rs: seq<nat>)
    requires Described(g) && rs == [0, 1, 2]
    ensures AttrsJoined(g, rs) == {0, 1, 2, 3, 4, 5, 6}
  {
    hide AttributesOf, TypesIn, Is;
    forall a ensures a in AttrsJoined(g, rs) <==> a in AttributesOf(g, 0) + AttributesOf(g, 1) + AttributesOf(g, 2) {
      assert rs[0] in rs && rs[1] in rs && rs[2] in rs;
    }
  }

  lemma ThreeAttrs(g: QueryGraph, strategy: PathStrategy)
    requires Described(g)
    ensures StepsIn(g, Steps(g.predicates)[..3])
    ensures var t := TreeAfter(g, Steps(g.predicates)[..3], strategy); AtMostOnce(AttrBag(t)) && AttrSet(t) == {0, 1, 2, 3, 4, 5, 6}
  {
    hide TreeAfter, AttrBag, AttributesOf, AttrsJoined, AttrSet, TypesGiven, LeftOf, RightOf;
    var s := Steps(g.predicates);
    Connected(g);
    StepsInPrefix(g, s, 3);
    AllConnectPrefix(g, s, 3);
    TreeAfterBag(g, s[..3], strategy);
    ThreeJoined(g, RelationsOf(s[..3]));
    AttrSetIsBag(TreeAfter(g, s[..3], strategy));
  }

  /** In the last join the wide column is read from the narrow one it equals, unless the naive
      strategy has brought both into the root. */
  lemma LastKeys(g: QueryGraph, strategy: PathStrategy)
    requires Described(g)
    ensures StepsIn(g, Steps(g.predicates))
    ensures AccumulatedKeys(g, Steps(g.predicates), strategy) == if strategy == NAIVE then [2, 1] else [0, 1]
  {
    hide Rewritten, After, TreeAfter, AttrBag, AttrSet;
    var s := Steps(g.predicates);
    Connected(g);
    Three(g, strategy);
    Prefixes(g.predicates);
    Columns(g);
    var t := TreeAfter(g, s[..3], strategy);
    Untouched(g, 3, t, 1);
    RootDepths(g, strategy);
    GivesWay(g, t);
  }

  lemma RootDepths(g: QueryGraph, strategy: PathStrategy)
    requires Described(g)
    ensures StepsIn(g, Steps(g.predicates)[..3])
    ensures var t := TreeAfter(g, Steps(g.predicates)[..3], strategy);
      DepthOf(t, 0) == 0 && DepthOf(t, 1) == 0 && if strategy == NAIVE then DepthOf(t, 2) == 0 else DepthOf(t, 2) > 0
  {
    hide TreeAfter, AttrBag, AttrSet, DepthOf;
    Three(g, strategy);
    var t := TreeAfter(g, Steps(g.predicates)[..3], strategy);
    StoredAtDepth(t, 0, 0);
    StoredAtDepth(t, 1, 0);
    StoredAtDepth(t, 2, 0);
    HasLevel(t, 2);
  }

  //
  // It is a plan, and is refused
  //

  lemma SecondLands(g: QueryGraph)
    requires Described(g)
    ensures StepLands(g, Steps(g.predicates), 1)
  {
    hide AttributesOf, LeftOf, RightOf;
    var s := Steps(g.predicates);
    Connected(g);
    StepsInPrefix(g, s, 2);
    Columns(g);
    OneKeyFits(TypesIn(g), AccumulatedKeys(g, s[..2], LEVELWISE));
    OneKeyFits(TypesIn(g), NewKeys(g, 1, s[1].edges));
  }

  lemma TwoBits(ts: seq<ValueType>)
    requires |ts| == 2
    ensures TotalBits(ts) == Bits(ts[0]) + Bits(ts[1])
  {
    assert ts[1..] == [ts[1]] && [ts[1]][1..] == [];
    assert TotalBits([ts[1]]) == Bits(ts[1]);
  }

  lemma NarrowFit(g: QueryGraph, a: Attr, b: Attr)
    requires Described(g) && a < 9 && b < 9 && a != 2 && b != 2
    ensures TotalBits(TypesOf(TypesIn(g), [a, b])) == 64
  {
    hide TypesIn;
    TwoBits(TypesOf(TypesIn(g), [a, b]));
  }

  /** What makes a step land: its keys are stored at one depth, and they fit. */
  lemma Lands(g: QueryGraph, s: seq<PlanStep>, i: nat, keys: seq<Attr>)
    requires TypesGiven(g) && 0 < i < |s| && StepsIn(g, s[..i]) && StepsIn(g, s[..i + 1]) && keys == AccumulatedKeys(g, s[..i + 1], LEVELWISE)
    requires keys != [] && AtMostOnce(AttrBag(TreeAfter(g, s[..i], LEVELWISE))) && AtOneDepth(TreeAfter(g, s[..i], LEVELWISE), keys)
    requires s[i].relation < RelationCount(g) && EdgesIn(g, s[i].edges)
    requires KeysFit(TypesIn(g), keys, NewKeys(g, s[i].relation, s[i].edges))
    ensures StepLands(g, s, i)
  {
    hide TypesOf, AttrBag, PathTree, InsertionPath, TreeAfter, AtOneDepth;
    PlannerAsksOneDepth(TreeAfter(g, s[..i], LEVELWISE), keys);
  }

  lemma ThirdLands(g: QueryGraph)
    requires Described(g)
    ensures StepLands(g, Steps(g.predicates), 2)
  {
    hide AttributesOf, LeftOf, RightOf, TreeAfter, AtOneDepth, AttrBag, StepLands, TypesOf;
    var s := Steps(g.predicates);
    ThirdKeys(g, LEVELWISE);
    Columns(g);
    NarrowFit(g, 3, 4);
    NarrowFit(g, 5, 6);
    BelowRoot(g);
    Lands(g, s, 2, [3, 4]);
  }

  /** The third join's keys are both one level down. */
  lemma BelowRoot(g: QueryGraph)
    requires Described(g)
    ensures StepsIn(g, Steps(g.predicates)[..2])
    ensures var t := TreeAfter(g, Steps(g.predicates)[..2], LEVELWISE); AtMostOnce(AttrBag(t)) && AtOneDepth(t, [3, 4])
  {
    hide TreeAfter, DepthOf, AttrBag, AttributesOf;
    var s := Steps(g.predicates);
    Connected(g);
    StepsInPrefix(g, s, 2);
    AllConnectPrefix(g, s, 2);
    TreeAfterBag(g, s[..2], LEVELWISE);
    Two(g, LEVELWISE);
    var t := TreeAfter(g, s[..2], LEVELWISE);
    StoredChild(t.children, 0, 3, 0);
    StoredChild(t.children, 0, 4, 0);
    StoredAtDepth(t, 3, 1);
    StoredAtDepth(t, 4, 1);
  }

  lemma FourthLands(g: QueryGraph)
    requires Described(g)
    ensures StepLands(g, Steps(g.predicates), 3)
  {
    hide AttributesOf, LeftOf, RightOf, TreeAfter, DepthOf, AttrBag, AttrSet, StepLands, TypesOf;
    var s := Steps(g.predicates);
    LastKeys(g, LEVELWISE);
    Columns(g);
    Prefixes(g.predicates);
    NarrowFit(g, 0, 1);
    NarrowFit(g, 7, 8);
    Three(g, LEVELWISE);
    RootDepths(g, LEVELWISE);
    Lands(g, s, 3, [0, 1]);
  }

  lemma LastTooWide(g: QueryGraph)
    requires Described(g)
    ensures StepsIn(g, Steps(g.predicates)) && !StepFits(g, Steps(g.predicates), 3, NAIVE)
  {
    hide AttributesOf, LeftOf, RightOf, AccumulatedKeys, TypesIn;
    LastKeys(g, NAIVE);
    Prefixes(g.predicates);
    TwoBits(TypesOf(TypesIn(g), [2, 1]));
  }

  /** A planned graph that the naive strategy refuses for the width of its keys, the last join's
      being 96 bits wide, and the level-wise strategy runs. */
  lemma NaiveRefusesPlan()
    ensures var g := WideBelow();
            var steps := Steps(g.predicates);
            && TypesGiven(g) && ValidGraph(g) && Planned(g, steps) && Covers(g, steps)
            && StepsFit(g, steps, LEVELWISE) && !StepsFit(g, steps, NAIVE)
  {
    hide WideBelow, Steps, StepLands, StepConnects, StepFits, Described, AttributesOf;
    var g := WideBelow();
    IsDescribed();
    DescribedGraph(g);
    Connected(g);
    Covered(g);
    SecondLands(g);
    ThirdLands(g);
    FourthLands(g);
    LastTooWide(g);
    PlannedFits(g, Steps(g.predicates), LEVELWISE);
  }

  lemma DescribedGraph(g: QueryGraph)
    requires Described(g)
    ensures TypesGiven(g) && ValidGraph(g) && |g.predicates| == 5
  {}
}
