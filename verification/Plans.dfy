/** Ordering the joins: a left-deep plan, built greedily against the tree the executor will
    build, so that no join of it can find its keys scattered. */
module Plans {
  import opened Bags
  import opened FTrees
  import opened Reordering
  import opened Restructuring
  import opened Transforming
  import opened Joins
  import opened FactorizedJoins
  import opened KeyPacking
  import opened Ranges
  import opened Graphs
  import opened Equalities

  /** One relation, and the predicates that connect it to everything joined before. */
  datatype PlanStep = PlanStep(relation: nat, edges: seq<Predicate>)

  datatype Reason = NO_REASON | TOO_MANY | DISCONNECTED | TOO_WIDE | NO_CONVERGENCE | RESIDUAL

  datatype Plan = Plan(steps: seq<PlanStep>, complete: bool, reason: Reason)

  const MAX_RELATIONS: nat := 500

  //
  // What a prefix of a plan stands for
  //

  function RelationsOf(steps: seq<PlanStep>): (rs: seq<nat>)
    ensures |rs| == |steps| && forall i :: 0 <= i < |rs| ==> rs[i] == steps[i].relation
  {
    seq(|steps|, i requires 0 <= i < |steps| => steps[i].relation)
  }

  function EdgesOf(steps: seq<PlanStep>): seq<Predicate> {
    if steps == [] then [] else EdgesOf(steps[..|steps| - 1]) + steps[|steps| - 1].edges
  }

  /** The edge's column on the relation being attached. */
  function NewKey(g: QueryGraph, r: nat, e: Predicate): Attr
    requires e.left < RelationCount(g) && e.right < RelationCount(g)
  {
    if e.left == r then LeftOf(g, e) else RightOf(g, e)
  }

  /** The edge's column on the side already joined. */
  function RawKey(g: QueryGraph, r: nat, e: Predicate): Attr
    requires e.left < RelationCount(g) && e.right < RelationCount(g)
  {
    if e.left == r then RightOf(g, e) else LeftOf(g, e)
  }

  ghost predicate EdgesIn(g: QueryGraph, es: seq<Predicate>) {
    forall e :: e in es ==> PredicateIn(g, e)
  }

  function NewKeys(g: QueryGraph, r: nat, es: seq<Predicate>): (ks: seq<Attr>)
    requires forall e :: e in es ==> e.left < RelationCount(g) && e.right < RelationCount(g)
    ensures |ks| == |es| && forall i :: 0 <= i < |es| ==> es[i] in es && ks[i] == NewKey(g, r, es[i])
  {
    seq(|es|, i requires 0 <= i < |es| => assert es[i] in es; NewKey(g, r, es[i]))
  }

  function RawKeys(g: QueryGraph, r: nat, es: seq<Predicate>): (ks: seq<Attr>)
    requires forall e :: e in es ==> e.left < RelationCount(g) && e.right < RelationCount(g)
    ensures |ks| == |es| && forall i :: 0 <= i < |es| ==> es[i] in es && ks[i] == RawKey(g, r, es[i])
  {
    seq(|es|, i requires 0 <= i < |es| => assert es[i] in es; RawKey(g, r, es[i]))
  }

  /** The key as the join will name it: the shallowest attribute known to equal it. */
  function Rewritten(roots: Roots, t: FNode, k: Attr): Attr {
    if k < |roots| then Shallowest(roots, t, k) else k
  }

  function RewrittenAll(roots: Roots, t: FNode, ks: seq<Attr>): (r: seq<Attr>)
    ensures |r| == |ks| && forall i :: 0 <= i < |ks| ==> r[i] == Rewritten(roots, t, ks[i])
  {
    seq(|ks|, i requires 0 <= i < |ks| => Rewritten(roots, t, ks[i]))
  }

  ghost predicate StepsIn(g: QueryGraph, steps: seq<PlanStep>) {
    forall s :: s in steps ==> s.relation < RelationCount(g) && EdgesIn(g, s.edges)
  }

  /** The accumulated side's keys for the last of the steps. */
  ghost function AccumulatedKeys(g: QueryGraph, steps: seq<PlanStep>, strategy: PathStrategy): seq<Attr>
    requires |steps| > 1 && StepsIn(g, steps)
    decreases |steps|, 0
  {
    var before, last := steps[..|steps| - 1], steps[|steps| - 1];
    RewrittenAll(After(g, EdgesOf(before)), TreeAfter(g, before, strategy), RawKeys(g, last.relation, last.edges))
  }

  /** The tree the joins build. */
  ghost function TreeAfter(g: QueryGraph, steps: seq<PlanStep>, strategy: PathStrategy): FNode
    requires steps != [] && StepsIn(g, steps)
    decreases |steps|, 1
  {
    var last := steps[|steps| - 1];
    if |steps| == 1 then Scan(AttributesOf(g, last.relation))
    else
      var before := steps[..|steps| - 1];
      JoinTree(TreeAfter(g, before, strategy), Scan(AttributesOf(g, last.relation)),
               AccumulatedKeys(g, steps, strategy), NewKeys(g, last.relation, last.edges), strategy)
  }

  //
  // What a plan promises
  //

  /** The predicate connects `r` to something in `joined`. */
  predicate Connects(e: Predicate, r: nat, joined: set<nat>) {
    (e.left == r && e.right in joined) || (e.right == r && e.left in joined)
  }

  ghost predicate StepConnects(g: QueryGraph, steps: seq<PlanStep>, i: nat)
    requires i < |steps|
  {
    var s, before := steps[i], SetOf(RelationsOf(steps[..i]));
    && s.relation < RelationCount(g) && s.relation !in before
    && (if i == 0 then s.edges == [] else s.edges != [])
    && forall e :: e in s.edges ==> e in g.predicates && PredicateIn(g, e) && Connects(e, s.relation, before)
  }

  /** The step's keys land on one node and fit a word, on both sides. */
  ghost predicate StepConverges(g: QueryGraph, steps: seq<PlanStep>, i: nat)
    requires TypesGiven(g) && 0 < i < |steps| && StepsIn(g, steps[..i + 1])
  {
    var t := TreeAfter(g, steps[..i], LEVELWISE);
    var keys := AccumulatedKeys(g, steps[..i + 1], LEVELWISE);
    && (|keys| < 2 || KeysAt(PathTree(t, keys, LEVELWISE), InsertionPath(t, keys, LEVELWISE), keys))
    && TotalBits(TypesOf(TypesIn(g), keys)) <= 64
    && TotalBits(TypesOf(TypesIn(g), NewKeys(g, steps[i].relation, steps[i].edges))) <= 64
  }

  ghost predicate Planned(g: QueryGraph, steps: seq<PlanStep>)
    requires TypesGiven(g)
  {
    && steps != [] && (forall i :: 0 <= i < |steps| ==> StepConnects(g, steps, i))
    && StepsIn(g, steps) && forall i :: 0 < i < |steps| ==> StepLands(g, steps, i)
  }

  ghost predicate StepLands(g: QueryGraph, steps: seq<PlanStep>, i: nat)
    requires TypesGiven(g) && 0 < i < |steps|
  {
    StepsIn(g, steps[..i + 1]) && StepConverges(g, steps, i)
  }

  function NonSelf(ps: seq<Predicate>): seq<Predicate> {
    if ps == [] then []
    else if ps[0].left != ps[0].right then [ps[0]] + NonSelf(ps[1..])
    else NonSelf(ps[1..])
  }

  lemma NonSelfMembers(ps: seq<Predicate>)
    ensures forall p :: p in NonSelf(ps) <==> p in ps && p.left != p.right
  {}

  /** Every relation is joined, and every predicate between two relations is applied by exactly
      one step. */
  ghost predicate Covers(g: QueryGraph, steps: seq<PlanStep>) {
    |steps| == RelationCount(g) && Perm(EdgesOf(steps), NonSelf(g.predicates))
  }

  //
  // Prefixes
  //

  lemma StepsInPrefix(g: QueryGraph, steps: seq<PlanStep>, i: nat)
    requires StepsIn(g, steps) && i <= |steps|
    ensures StepsIn(g, steps[..i])
  {
    forall s | s in steps[..i] ensures s in steps {}
  }

  lemma EdgesSnoc(steps: seq<PlanStep>, s: PlanStep)
    ensures EdgesOf(steps + [s]) == EdgesOf(steps) + s.edges
  {
    assert (steps + [s])[..|steps|] == steps;
  }

  lemma {:induction false} EdgesOfIn(g: QueryGraph, steps: seq<PlanStep>)
    requires StepsIn(g, steps)
    ensures EdgesIn(g, EdgesOf(steps))
    decreases |steps|
  {
    if steps != [] {
      StepsInPrefix(g, steps, |steps| - 1);
      EdgesOfIn(g, steps[..|steps| - 1]);
      assert steps[|steps| - 1] in steps;
    }
  }

  /** No relation is joined twice. */
  lemma DistinctRelations(g: QueryGraph, steps: seq<PlanStep>, i: nat, j: nat)
    requires i < j < |steps| && StepConnects(g, steps, j)
    ensures steps[i].relation != steps[j].relation
  {
    assert RelationsOf(steps[..j])[i] == steps[i].relation;
    assert RelationsOf(steps[..j])[i] in RelationsOf(steps[..j]);
  }

  /** Conditions on earlier steps do not see later ones. */
  lemma ConnectsPrefix(g: QueryGraph, steps: seq<PlanStep>, s: PlanStep, i: nat)
    requires i < |steps|
    ensures StepConnects(g, steps + [s], i) <==> StepConnects(g, steps, i)
  {
    assert (steps + [s])[..i] == steps[..i];
  }

  lemma LandsPrefix(g: QueryGraph, steps: seq<PlanStep>, s: PlanStep, i: nat)
    requires TypesGiven(g) && 0 < i < |steps|
    ensures StepLands(g, steps + [s], i) <==> StepLands(g, steps, i)
  {
    assert (steps + [s])[..i] == steps[..i] && (steps + [s])[..i + 1] == steps[..i + 1];
  }

  lemma PlannedSnoc(g: QueryGraph, steps: seq<PlanStep>, s: PlanStep)
    requires TypesGiven(g) && Planned(g, steps) && StepConnects(g, steps + [s], |steps|)
    requires StepsIn(g, steps + [s]) && StepLands(g, steps + [s], |steps|)
    ensures Planned(g, steps + [s])
  {
    hide StepConnects, StepLands;
    var more := steps + [s];
    forall i | 0 <= i < |more| ensures StepConnects(g, more, i) {
      if i < |steps| { ConnectsPrefix(g, steps, s, i); }
    }
    forall i | 0 < i < |more| ensures StepLands(g, more, i) {
      if i < |steps| { LandsPrefix(g, steps, s, i); }
    }
  }

  //
  // Which predicates a prefix has applied
  //

  /** The unapplied predicates that connect `r` to the joined relations. */
  function Crossing(ps: seq<Predicate>, joined: set<nat>, r: nat): seq<Predicate> {
    if ps == [] then []
    else
      var p, rest := ps[0], Crossing(ps[1..], joined, r);
      if (p.left in joined) != (p.right in joined) && (if p.left in joined then p.right else p.left) == r then [p] + rest
      else rest
  }

  /** The predicates between two joined relations. */
  function Inside(ps: seq<Predicate>, joined: set<nat>): seq<Predicate> {
    if ps == [] then []
    else
      var p, rest := ps[0], Inside(ps[1..], joined);
      if p.left in joined && p.right in joined && p.left != p.right then [p] + rest else rest
  }

  lemma InsertedEither<T>(x: T, a: seq<T>, b: seq<T>, c: seq<T>)
    requires Perm(a, b + c)
    ensures Perm([x] + a, ([x] + b) + c) && Perm([x] + a, b + ([x] + c))
  {}

  lemma {:induction false} InsideGrows(ps: seq<Predicate>, joined: set<nat>, r: nat)
    requires r !in joined
    ensures Perm(Inside(ps, joined + {r}), Inside(ps, joined) + Crossing(ps, joined, r))
  {
    if ps != [] {
      InsideGrows(ps[1..], joined, r);
      InsertedEither(ps[0], Inside(ps[1..], joined + {r}), Inside(ps[1..], joined), Crossing(ps[1..], joined, r));
    }
  }

  lemma {:induction false} InsideAll(ps: seq<Predicate>, joined: set<nat>)
    requires forall p :: p in ps ==> p.left in joined && p.right in joined
    ensures Inside(ps, joined) == NonSelf(ps)
  {
    if ps != [] {
      assert ps[0] in ps && forall p :: p in ps[1..] ==> p in ps;
      InsideAll(ps[1..], joined);
    }
  }

  lemma {:induction false} InsideOne(ps: seq<Predicate>, r: nat)
    ensures Inside(ps, {r}) == []
  {
    if ps != [] { InsideOne(ps[1..], r); }
  }

  lemma {:induction false} CrossingMembers(ps: seq<Predicate>, joined: set<nat>, r: nat)
    requires r !in joined
    ensures forall p :: p in Crossing(ps, joined, r) ==> p in ps && Connects(p, r, joined)
    ensures Crossing(ps, joined, r) == [] ==> forall p :: p in ps ==> !Connects(p, r, joined)
  {
    if ps != [] { CrossingMembers(ps[1..], joined, r); }
  }

  //
  // Building the plan
  //

  method KeysFor(classes: EquivalenceClasses, g: QueryGraph, t: FNode, es: seq<Predicate>, r: nat) returns (keys: seq<Attr>)
    requires classes.Valid() && EdgesIn(g, es) && |classes.roots| == TotalAttributes(g)
    modifies classes`parent
    ensures classes.Valid() && keys == RewrittenAll(classes.roots, t, RawKeys(g, r, es)) && |keys| == |es|
    ensures forall i :: 0 <= i < |es| ==> RawKeys(g, r, es)[i] < |classes.roots| && Nearest(classes.roots, t, RawKeys(g, r, es)[i], keys[i])
  {
    keys := [];
    for i := 0 to |es|
      invariant classes.Valid() && |keys| == i
      invariant forall j :: 0 <= j < i ==> keys[j] == RewrittenAll(classes.roots, t, RawKeys(g, r, es))[j]
      invariant forall j :: 0 <= j < i ==>
        RawKeys(g, r, es)[j] < |classes.roots| && Nearest(classes.roots, t, RawKeys(g, r, es)[j], keys[j])
    {
      var e := es[i];
      assert e in es;
      AttributeInjective(g, e.left, e.leftColumn, e.left, e.leftColumn);
      AttributeInjective(g, e.right, e.rightColumn, e.right, e.rightColumn);
      var key := classes.ShallowestEquivalent(t, RawKey(g, r, e));
      keys := keys + [key];
    }
  }

  method KeyBits(types: Types, keys: seq<Attr>) returns (bits: nat)
    ensures bits == TotalBits(TypesOf(types, keys))
  {
    bits := 0;
    for i := 0 to |keys|
      invariant bits + TotalBits(TypesOf(types, keys[i..])) == TotalBits(TypesOf(types, keys))
    {
      assert TypesOf(types, keys[i..])[1..] == TypesOf(types, keys[i + 1..]);
      bits := bits + Bits(TypeOf(types, keys[i]));
    }
    assert keys[|keys|..] == [];
  }

  /** Whether every key can be read from the node the path ends at. */
  predicate AtInsertion(t: FNode, keys: seq<Attr>) {
    |keys| < 2
    || (var n := NodeAt(PathTree(t, keys, LEVELWISE), InsertionPath(t, keys, LEVELWISE));
        n.Some? && forall k :: k in keys ==> k in n.value.attrs)
  }

  /** What the planner has built so far: the steps, the simulated tree, the equalities applied,
      and which predicates they account for. */
  ghost predicate Building(g: QueryGraph, steps: seq<PlanStep>, joined: set<nat>, used: seq<bool>, simulated: FNode,
                           roots: Roots, seed: nat)
    requires TypesGiven(g)
  {
    && Planned(g, steps) && joined == SetOf(RelationsOf(steps)) && |joined| == |steps|
    && seed in joined && (forall r :: r in joined ==> r < RelationCount(g))
    && simulated == TreeAfter(g, steps, LEVELWISE) && roots == After(g, EdgesOf(steps))
    && Perm(EdgesOf(steps), Inside(g.predicates, joined))
    && |used| == |g.predicates|
    && forall i :: 0 <= i < |used| ==> (used[i] <==> Applied(g.predicates[i], joined, seed))
  }

  predicate Applied(p: Predicate, joined: set<nat>, seed: nat) {
    p.left in joined && p.right in joined && !(p.left == seed && p.right == seed)
  }

  lemma JoinedOne(steps: seq<PlanStep>, s: PlanStep)
    requires s.relation !in SetOf(RelationsOf(steps))
    ensures SetOf(RelationsOf(steps + [s])) == SetOf(RelationsOf(steps)) + {s.relation}
  {
    var rs, more := RelationsOf(steps), RelationsOf(steps + [s]);
    assert more == rs + [s.relation];
  }

  lemma BuildingStart(g: QueryGraph, seed: nat, used: seq<bool>)
    requires TypesGiven(g) && ValidGraph(g) && seed < RelationCount(g)
    requires |used| == |g.predicates| && forall i :: 0 <= i < |used| ==> !used[i]
    ensures Building(g, [PlanStep(seed, [])], {seed}, used, Scan(AttributesOf(g, seed)), After(g, []), seed)
  {
    var steps := [PlanStep(seed, [])];
    assert EdgesOf(steps) == [] by { assert steps[..0] == []; }
    InsideOne(g.predicates, seed);
    assert RelationsOf(steps) == [seed];
    assert SetOf([seed]) == {seed};
    assert RelationsOf(steps[..0]) == [];
  }

  /** Taking one more relation keeps it all. */
  lemma BuildingStep(g: QueryGraph, steps: seq<PlanStep>, joined: set<nat>, used: seq<bool>, simulated: FNode, roots: Roots,
                     seed: nat, r: nat, more: seq<bool>, es: seq<Predicate>, keys: seq<Attr>)
    requires TypesGiven(g) && ValidGraph(g) && Building(g, steps, joined, used, simulated, roots, seed)
    requires r < RelationCount(g) && r !in joined && es == Crossing(g.predicates, joined, r) && es != [] && EdgesIn(g, es)
    requires |more| == |used|
    requires forall i :: 0 <= i < |used| ==>
      (more[i] <==> used[i] || (g.predicates[i].left == r && g.predicates[i].right in joined + {r})
                            || (g.predicates[i].right == r && g.predicates[i].left in joined + {r}))
    requires keys == RewrittenAll(roots, simulated, RawKeys(g, r, es)) && Attaches(g, simulated, roots, r, es)
    ensures Building(g, steps + [PlanStep(r, es)], joined + {r}, more,
                     JoinTree(simulated, Scan(AttributesOf(g, r)), keys, NewKeys(g, r, es), LEVELWISE),
                     After(g, EdgesOf(steps) + es), seed)
  {
    hide Planned, StepConnects, StepLands, TreeAfter, After, RewrittenAll, NewKeys, RawKeys, Attaches, Crossing, Inside, JoinTree;
    var s := PlanStep(r, es);
    JoinedOne(steps, s);
    EdgesSnoc(steps, s);
    InsideGrows(g.predicates, joined, r);
    StepJoins(g, steps, joined, roots, simulated, r, es, keys);
    UsedStep(g.predicates, joined, used, seed, r, more);
  }

  /** The new step connects and lands, and the simulated tree advances as the join will. */
  lemma StepJoins(g: QueryGraph, steps: seq<PlanStep>, joined: set<nat>, roots: Roots, simulated: FNode, r: nat,
                  es: seq<Predicate>, keys: seq<Attr>)
    requires TypesGiven(g) && Planned(g, steps) && joined == SetOf(RelationsOf(steps))
    requires simulated == TreeAfter(g, steps, LEVELWISE) && roots == After(g, EdgesOf(steps))
    requires r < RelationCount(g) && r !in joined && es == Crossing(g.predicates, joined, r) && es != [] && EdgesIn(g, es)
    requires keys == RewrittenAll(roots, simulated, RawKeys(g, r, es)) && Attaches(g, simulated, roots, r, es)
    ensures Planned(g, steps + [PlanStep(r, es)])
    ensures TreeAfter(g, steps + [PlanStep(r, es)], LEVELWISE)
         == JoinTree(simulated, Scan(AttributesOf(g, r)), keys, NewKeys(g, r, es), LEVELWISE)
  {
    hide JoinTree, PathTree, InsertionPath, After, Crossing;
    var s := PlanStep(r, es);
    var all := steps + [s];
    CrossingMembers(g.predicates, joined, r);
    assert all[..|steps|] == steps && all[..|steps| + 1] == all && all[|all| - 1] == s;
    assert StepsIn(g, all);
    assert StepConnects(g, all, |steps|);
    assert AccumulatedKeys(g, all, LEVELWISE) == keys;
    assert StepLands(g, all, |steps|);
    PlannedSnoc(g, steps, s);
  }

  lemma UsedStep(ps: seq<Predicate>, joined: set<nat>, used: seq<bool>, seed: nat, r: nat, more: seq<bool>)
    requires |used| == |ps| == |more| && seed in joined && r !in joined
    requires forall i :: 0 <= i < |used| ==> (used[i] <==> Applied(ps[i], joined, seed))
    requires forall i :: 0 <= i < |used| ==>
      (more[i] <==> used[i] || (ps[i].left == r && ps[i].right in joined + {r}) || (ps[i].right == r && ps[i].left in joined + {r}))
    ensures forall i :: 0 <= i < |used| ==> (more[i] <==> Applied(ps[i], joined + {r}, seed))
  {}

  /** Marks the predicates the new relation covers. */
  method Cover(ps: seq<Predicate>, used: seq<bool>, joined: set<nat>, r: nat) returns (more: seq<bool>)
    requires |used| == |ps|
    ensures |more| == |used|
    ensures forall i :: 0 <= i < |used| ==>
      (more[i] <==> used[i] || (ps[i].left == r && ps[i].right in joined) || (ps[i].right == r && ps[i].left in joined))
  {
    more := used;
    for i := 0 to |ps|
      invariant |more| == |used| && forall j :: i <= j < |used| ==> more[j] == used[j]
      invariant forall j :: 0 <= j < i ==>
        (more[j] <==> used[j] || (ps[j].left == r && ps[j].right in joined) || (ps[j].right == r && ps[j].left in joined))
    {
      if !used[i] && ((ps[i].left == r && ps[i].right in joined) || (ps[i].right == r && ps[i].left in joined)) {
        more := more[i := true];
      }
    }
  }

  /** The unused predicates that would attach `r`. */
  method EdgesTo(ps: seq<Predicate>, used: seq<bool>, joined: set<nat>, ghost seed: nat, r: nat) returns (es: seq<Predicate>)
    requires |used| == |ps| && forall i :: 0 <= i < |used| ==> (used[i] <==> Applied(ps[i], joined, seed))
    ensures es == Crossing(ps, joined, r)
  {
    es := [];
    for i := |ps| downto 0
      invariant es == Crossing(ps[i..], joined, r)
    {
      assert ps[i..][0] == ps[i] && ps[i..][1..] == ps[i + 1..];
      var p := ps[i];
      if used[i] || (p.left in joined) == (p.right in joined) { continue; }
      if (if p.left in joined then p.right else p.left) == r {
        es := [p] + es;
      }
    }
    assert ps[0..] == ps;
  }

  /** No predicate leads out of the joined relations. */
  ghost predicate Closed(g: QueryGraph, joined: set<nat>) {
    forall p :: p in g.predicates ==> (p.left in joined <==> p.right in joined)
  }

  /** The keys of these edges fit and land on one node. */
  ghost predicate Attaches(g: QueryGraph, t: FNode, roots: Roots, r: nat, es: seq<Predicate>)
    requires TypesGiven(g) && EdgesIn(g, es)
  {
    AtInsertion(t, RewrittenAll(roots, t, RawKeys(g, r, es))) && Fitting(g, t, roots, r, es)
  }

  /** The keys of these edges fit a word on either side. */
  ghost predicate Fitting(g: QueryGraph, t: FNode, roots: Roots, r: nat, es: seq<Predicate>)
    requires TypesGiven(g) && EdgesIn(g, es)
  {
    && TotalBits(TypesOf(TypesIn(g), RewrittenAll(roots, t, RawKeys(g, r, es)))) <= 64
    && TotalBits(TypesOf(TypesIn(g), NewKeys(g, r, es))) <= 64
  }

  /** The relation could be attached by edges, but their keys do not fit. */
  ghost predicate TooWide(g: QueryGraph, t: FNode, roots: Roots, joined: set<nat>, r: nat)
    requires TypesGiven(g)
  {
    var es := Crossing(g.predicates, joined, r);
    r < RelationCount(g) && r !in joined && es != [] && EdgesIn(g, es) && !Fitting(g, t, roots, r, es)
  }

  /** The relation could be attached by edges, but their keys do not fit or do not land. */
  ghost predicate Refused(g: QueryGraph, t: FNode, roots: Roots, joined: set<nat>, r: nat)
    requires TypesGiven(g)
  {
    var es := Crossing(g.predicates, joined, r);
    EdgesIn(g, es) && !Attaches(g, t, roots, r, es)
  }

  /** The relation can be joined next. */
  ghost predicate Ready(g: QueryGraph, t: FNode, roots: Roots, joined: set<nat>, r: nat)
    requires TypesGiven(g)
  {
    var es := Crossing(g.predicates, joined, r);
    r < RelationCount(g) && r !in joined && es != [] && EdgesIn(g, es) && Attaches(g, t, roots, r, es)
  }

  /** Tries one relation. */
  method Try(g: QueryGraph, t: FNode, classes: EquivalenceClasses, ghost joined: set<nat>, r: nat, es: seq<Predicate>)
    returns (fits: bool, lands: bool)
    requires TypesGiven(g) && ValidGraph(g) && classes.Valid() && |classes.roots| == TotalAttributes(g)
    requires r < RelationCount(g) && r !in joined && es == Crossing(g.predicates, joined, r) && es != []
    modifies classes`parent
    ensures classes.Valid()
    ensures fits && lands <==> Ready(g, t, classes.roots, joined, r)
    ensures (fits && lands) || Refused(g, t, classes.roots, joined, r)
    ensures !fits <==> TooWide(g, t, classes.roots, joined, r)
  {
    CrossingMembers(g.predicates, joined, r);
    var keys := KeysFor(classes, g, t, es, r);
    var newBits := KeyBits(TypesIn(g), NewKeys(g, r, es));
    var joinedBits := KeyBits(TypesIn(g), keys);
    return newBits <= 64 && joinedBits <= 64, AtInsertion(t, keys);
  }

  /** How many edges would attach the relation. */
  function Weight(g: QueryGraph, joined: set<nat>, r: nat): nat {
    |Crossing(g.predicates, joined, r)|
  }

  /** The relation to join next: of those whose keys fit a word and land on one node, one with
      the most edges, the first of them. */
  method BestCandidate(g: QueryGraph, joined: set<nat>, used: seq<bool>, t: FNode, classes: EquivalenceClasses, ghost seed: nat)
    returns (best: Option<nat>, any: bool, tooWide: bool)
    requires TypesGiven(g) && ValidGraph(g) && classes.Valid() && |classes.roots| == TotalAttributes(g)
    requires |used| == |g.predicates| && forall i :: 0 <= i < |used| ==> (used[i] <==> Applied(g.predicates[i], joined, seed))
    modifies classes`parent
    ensures classes.Valid()
    ensures !any ==> Closed(g, joined)
    ensures best.Some? ==> Ready(g, t, classes.roots, joined, best.value)
    ensures forall r :: 0 <= r < RelationCount(g) && r !in joined && Weight(g, joined, r) > Most(g, joined, best) ==>
      Refused(g, t, classes.roots, joined, r)
    ensures best.Some? ==> forall r: nat :: r < best.value && r !in joined && Weight(g, joined, r) == Weight(g, joined, best.value) ==>
      Refused(g, t, classes.roots, joined, r)
    ensures any <==> exists r :: 0 <= r < RelationCount(g) && r !in joined && Crossing(g.predicates, joined, r) != []
    ensures tooWide <==> exists r: nat :: TooWide(g, t, classes.roots, joined, r)
  {
    hide Ready, Refused, Crossing, TooWide;
    best, any, tooWide := None, false, false;
    for r := 0 to RelationCount(g)
      invariant classes.Valid()
      invariant any <==> exists q :: 0 <= q < r && q !in joined && Crossing(g.predicates, joined, q) != []
      invariant tooWide <==> exists q: nat :: q < r && TooWide(g, t, classes.roots, joined, q)
      invariant best.Some? ==> Ready(g, t, classes.roots, joined, best.value)
      invariant forall q :: 0 <= q < r && q !in joined && Weight(g, joined, q) > Most(g, joined, best) ==>
        Refused(g, t, classes.roots, joined, q)
      invariant best.Some? ==> best.value < r && forall q: nat ::
        q < best.value && q !in joined && Weight(g, joined, q) == Weight(g, joined, best.value) ==> Refused(g, t, classes.roots, joined, q)
    {
      if r in joined {
        OnlyCrossing(g, t, classes.roots, joined, r);
        continue;
      }
      var es := EdgesTo(g.predicates, used, joined, seed, r);
      if es == [] {
        OnlyCrossing(g, t, classes.roots, joined, r);
        continue;
      }
      any := true;
      var fits, lands := Try(g, t, classes, joined, r, es);
      if !fits { tooWide := true; }
      if !fits || !lands { continue; }
      if best.None? || |es| > Weight(g, joined, best.value) {
        best := Some(r);
      }
    }
    if !any { NothingCrosses(g, joined); }
    forall q: nat | TooWide(g, t, classes.roots, joined, q) ensures q < RelationCount(g) { OnlyCrossing(g, t, classes.roots, joined, q); }
  }

  lemma OnlyCrossing(g: QueryGraph, t: FNode, roots: Roots, joined: set<nat>, r: nat)
    requires TypesGiven(g)
    ensures TooWide(g, t, roots, joined, r) ==> r < RelationCount(g) && r !in joined && Crossing(g.predicates, joined, r) != []
  {}

  function Most(g: QueryGraph, joined: set<nat>, best: Option<nat>): nat {
    if best.Some? then Weight(g, joined, best.value) else 0
  }

  lemma NothingCrosses(g: QueryGraph, joined: set<nat>)
    requires ValidGraph(g)
    requires forall r :: 0 <= r < RelationCount(g) && r !in joined ==> Crossing(g.predicates, joined, r) == []
    ensures Closed(g, joined)
  {
    forall p | p in g.predicates ensures p.left in joined <==> p.right in joined {
      assert PredicateIn(g, p);
      if p.left !in joined { CrossingMembers(g.predicates, joined, p.left); assert !Connects(p, p.left, joined); }
      if p.right !in joined { CrossingMembers(g.predicates, joined, p.right); assert !Connects(p, p.right, joined); }
    }
  }

  /** The steps can be carried no further: relations are left that edges lead to, and each is
      refused, for the tree and the equalities there are by then. */
  ghost predicate Stuck(g: QueryGraph, steps: seq<PlanStep>)
    requires TypesGiven(g)
  {
    var joined := SetOf(RelationsOf(steps));
    && Planned(g, steps)
    && (exists r :: 0 <= r < RelationCount(g) && r !in joined && Crossing(g.predicates, joined, r) != [])
    && forall r :: 0 <= r < RelationCount(g) && r !in joined && Weight(g, joined, r) > 0 ==>
      Refused(g, TreeAfter(g, steps, LEVELWISE), After(g, EdgesOf(steps)), joined, r)
  }

  /** One of the relations left is refused for the width of its keys. */
  ghost predicate WidthRefuses(g: QueryGraph, steps: seq<PlanStep>)
    requires TypesGiven(g) && Planned(g, steps)
  {
    exists r: nat :: TooWide(g, TreeAfter(g, steps, LEVELWISE), After(g, EdgesOf(steps)), SetOf(RelationsOf(steps)), r)
  }

  /** The step takes all edges to its relation; no relation would have attached by more, nor one
      before it by as many. */
  ghost predicate GreedyAt(g: QueryGraph, steps: seq<PlanStep>, i: nat)
    requires TypesGiven(g) && 0 < i < |steps|
  {
    var s, before := steps[i], steps[..i];
    var joined := SetOf(RelationsOf(before));
    && s.edges == Crossing(g.predicates, joined, s.relation)
    && Planned(g, before)
    && forall r: nat :: Preferred(g, joined, r, s) ==> Refused(g, TreeAfter(g, before, LEVELWISE), After(g, EdgesOf(before)), joined, r)
  }

  /** The relation has more edges than the step, or comes before it with as many. */
  ghost predicate Preferred(g: QueryGraph, joined: set<nat>, r: nat, s: PlanStep) {
    r < RelationCount(g) && r !in joined
    && (Weight(g, joined, r) > |s.edges| || (Weight(g, joined, r) == |s.edges| && r < s.relation))
  }

  ghost predicate Greedy(g: QueryGraph, steps: seq<PlanStep>)
    requires TypesGiven(g)
  {
    forall i :: 0 < i < |steps| ==> GreedyAt(g, steps, i)
  }

  lemma GreedySnoc(g: QueryGraph, steps: seq<PlanStep>, s: PlanStep)
    requires TypesGiven(g) && steps != [] && Greedy(g, steps) && GreedyAt(g, steps + [s], |steps|)
    ensures Greedy(g, steps + [s])
  {
    var more := steps + [s];
    forall i | 0 < i < |more| ensures GreedyAt(g, more, i) {
      if i < |steps| { assert GreedyAt(g, steps, i) && more[..i] == steps[..i]; }
    }
  }

  lemma GreedyNext(g: QueryGraph, steps: seq<PlanStep>, joined: set<nat>, used: seq<bool>, simulated: FNode, roots: Roots, seed: nat,
                   s: PlanStep)
    requires TypesGiven(g) && Building(g, steps, joined, used, simulated, roots, seed) && s.edges == Crossing(g.predicates, joined, s.relation)
    requires forall r: nat :: r < RelationCount(g) && r !in joined && Weight(g, joined, r) > |s.edges| ==> Refused(g, simulated, roots, joined, r)
    requires forall r: nat :: r < s.relation && r < RelationCount(g) && r !in joined && Weight(g, joined, r) == |s.edges| ==>
      Refused(g, simulated, roots, joined, r)
    ensures GreedyAt(g, steps + [s], |steps|)
  {
    hide Planned, Refused, TreeAfter, After, Crossing;
    assert (steps + [s])[..|steps|] == steps;
  }

  /** Some predicate compares two columns of the relation the plan starts with. */
  ghost predicate LoopsAt(g: QueryGraph, seed: nat) {
    exists p :: p in g.predicates && p.left == seed && p.right == seed
  }

  /** The first predicate's left relation is compared with itself. */
  ghost predicate StartLoops(g: QueryGraph) {
    g.predicates != [] && LoopsAt(g, g.predicates[0].left)
  }

  /** Predicates lead from any relations to all others. */
  ghost predicate Connected(g: QueryGraph) {
    forall joined: set<nat> :: (exists r: nat :: r < |g.columnCounts| && r in joined) && Closed(g, joined) ==>
      forall r: nat :: r < |g.columnCounts| ==> r in joined
  }

  /** Orders the joins. A complete plan joins every relation once and applies every predicate
      between two relations in exactly one step, and each step's keys land on one node of the
      tree the executor will have then. A plan starts with the first predicate's left relation, and
      grows greedily; what it reports is decided by where that ends: with all relations joined it
      is complete, unless a predicate compares two columns of the first one; otherwise no edge leads
      on, or the relations edges lead to are refused. */
  method BuildPlan(g: QueryGraph) returns (plan: Plan)
    requires TypesGiven(g) && ValidGraph(g) && RelationCount(g) > 0
    ensures plan.reason == TOO_MANY <==> |g.columnCounts| > 500
    ensures plan.reason != TOO_MANY ==>
      && Planned(g, plan.steps) && Greedy(g, plan.steps)
      && plan.steps[0].relation == if g.predicates == [] then 0 else g.predicates[0].left
    ensures plan.complete <==> plan.reason == NO_REASON
    ensures plan.complete ==> Covers(g, plan.steps)
    ensures plan.complete <==> plan.reason != TOO_MANY && |plan.steps| == |g.columnCounts| && !LoopsAt(g, plan.steps[0].relation)
    ensures plan.reason == RESIDUAL <==> plan.reason != TOO_MANY && |plan.steps| == |g.columnCounts| && LoopsAt(g, plan.steps[0].relation)
    ensures plan.reason == DISCONNECTED <==>
      plan.reason != TOO_MANY && |plan.steps| < |g.columnCounts| && Closed(g, SetOf(RelationsOf(plan.steps)))
    ensures plan.reason in {TOO_WIDE, NO_CONVERGENCE} <==>
      plan.reason != TOO_MANY && |plan.steps| < |g.columnCounts| && Stuck(g, plan.steps)
    ensures plan.reason in {TOO_WIDE, NO_CONVERGENCE} ==> (plan.reason == TOO_WIDE <==> WidthRefuses(g, plan.steps))
    ensures |g.columnCounts| <= 500 && Connected(g) && (forall steps :: !Stuck(g, steps)) && !StartLoops(g) ==> plan.complete
  {
    hide Refused, TooWide, Planned, TreeAfter, After, Crossing, Inside, JoinTree, RewrittenAll, RawKeys, NewKeys, Attaches, NonSelf, LeadTo,
         Closed, EdgesOf, RelationsOf, GreedyAt, Stuck, Connected, LoopsAt;
    if RelationCount(g) > MAX_RELATIONS { return Plan([], false, TOO_MANY); }
    var seed := if g.predicates == [] then 0 else g.predicates[0].left;
    assert g.predicates != [] ==> g.predicates[0] in g.predicates;
    var classes := new EquivalenceClasses.Enforced(g);
    var simulated := Scan(AttributesOf(g, seed));
    var used: seq<bool> := seq(|g.predicates|, i => false);
    var steps := [PlanStep(seed, [])];
    var inside: set<nat> := {seed};
    BuildingStart(g, seed, used);
    NoEdges(steps[0]);
    while |inside| < RelationCount(g)
      invariant classes.Valid() && fresh(classes) && Building(g, steps, inside, used, simulated, classes.roots, seed)
      invariant steps != [] && steps[0].relation == seed && Greedy(g, steps)
      decreases RelationCount(g) - |inside|
    {
      var best, any, tooWide := BestCandidate(g, inside, used, simulated, classes, seed);
      StepsAre(g, steps, inside, used, simulated, classes.roots, seed);
      if !any {
        NowhereToGo(g, steps, inside);
        return Plan(steps, false, DISCONNECTED);
      }
      if best.None? {
        GivenUp(g, steps, inside, used, simulated, classes.roots, seed);
        return Plan(steps, false, if tooWide then TOO_WIDE else NO_CONVERGENCE);
      }
      var r := best.value;
      var es := EdgesTo(g.predicates, used, inside, seed, r);
      var keys := KeysFor(classes, g, simulated, es, r);
      var more := Cover(g.predicates, used, inside + {r}, r);
      GreedyNext(g, steps, inside, used, simulated, classes.roots, seed, PlanStep(r, es));
      GreedySnoc(g, steps, PlanStep(r, es));
      BuildingStep(g, steps, inside, used, simulated, classes.roots, seed, r, more, es, keys);
      simulated := JoinTree(simulated, Scan(AttributesOf(g, r)), keys, NewKeys(g, r, es), LEVELWISE);
      EnforceAll(classes, g, es, EdgesOf(steps));
      steps, inside, used := steps + [PlanStep(r, es)], inside + {r}, more;
    }
    AllJoined(inside, RelationCount(g));
    InsideAll(g.predicates, inside);
    StepsAre(g, steps, inside, used, simulated, classes.roots, seed);
    for i := 0 to |g.predicates|
      invariant forall j :: 0 <= j < i ==> used[j]
    {
      if !used[i] {
        assert g.predicates[i] in g.predicates && PredicateIn(g, g.predicates[i]);
        UnusedLoops(g, inside, used, seed, i);
        return Plan(steps, false, RESIDUAL);
      }
    }
    UsedNoLoop(g, inside, used, seed);
    return Plan(steps, true, NO_REASON);
  }

  lemma StepsAre(g: QueryGraph, steps: seq<PlanStep>, joined: set<nat>, used: seq<bool>, simulated: FNode, roots: Roots, seed: nat)
    requires TypesGiven(g) && Building(g, steps, joined, used, simulated, roots, seed)
    ensures joined == SetOf(RelationsOf(steps)) && |joined| == |steps| && Planned(g, steps) && seed in joined && seed < RelationCount(g)
  {}

  /** A predicate the joins have not used compares two columns of the first relation. */
  lemma UnusedLoops(g: QueryGraph, joined: set<nat>, used: seq<bool>, seed: nat, i: nat)
    requires |used| == |g.predicates| && i < |used| && !used[i] && (used[i] <==> Applied(g.predicates[i], joined, seed))
    requires g.predicates[i].left in joined && g.predicates[i].right in joined
    ensures LoopsAt(g, seed)
  {
    assert g.predicates[i] in g.predicates;
  }

  lemma UsedNoLoop(g: QueryGraph, joined: set<nat>, used: seq<bool>, seed: nat)
    requires |used| == |g.predicates| && forall i :: 0 <= i < |used| ==> used[i] && Applied(g.predicates[i], joined, seed)
    ensures !LoopsAt(g, seed)
  {}

  /** Where no edge leads on, relations are left that nothing connects to those joined. */
  lemma NowhereToGo(g: QueryGraph, steps: seq<PlanStep>, joined: set<nat>)
    requires TypesGiven(g) && Planned(g, steps) && joined == SetOf(RelationsOf(steps)) && |joined| == |steps| < RelationCount(g)
    requires Closed(g, joined) && exists r :: 0 <= r < RelationCount(g) && r in joined
    requires !exists r :: 0 <= r < RelationCount(g) && r !in joined && Crossing(g.predicates, joined, r) != []
    ensures !Stuck(g, steps) && !Connected(g)
  {
    SomeLeft(joined, RelationCount(g));
  }

  /** Where an edge leads on the relations joined are not closed. */
  lemma EdgeLeaves(g: QueryGraph, joined: set<nat>, r: nat)
    requires r !in joined && Crossing(g.predicates, joined, r) != []
    ensures !Closed(g, joined)
  {
    CrossingMembers(g.predicates, joined, r);
    var p := Crossing(g.predicates, joined, r)[0];
    assert p in Crossing(g.predicates, joined, r);
  }

  lemma GivenUp(g: QueryGraph, steps: seq<PlanStep>, inside: set<nat>, used: seq<bool>, simulated: FNode, roots: Roots, seed: nat)
    requires TypesGiven(g) && Building(g, steps, inside, used, simulated, roots, seed)
    requires exists r :: 0 <= r < RelationCount(g) && r !in inside && Crossing(g.predicates, inside, r) != []
    requires forall r :: 0 <= r < RelationCount(g) && r !in inside && Weight(g, inside, r) > 0 ==> Refused(g, simulated, roots, inside, r)
    ensures Stuck(g, steps) && !Closed(g, SetOf(RelationsOf(steps)))
    ensures (exists r: nat :: TooWide(g, simulated, roots, inside, r)) <==> WidthRefuses(g, steps)
  {
    hide Crossing, Closed, Planned;
    var r: nat :| r < RelationCount(g) && r !in inside && Crossing(g.predicates, inside, r) != [];
    EdgeLeaves(g, inside, r);
  }

  lemma NoEdges(s: PlanStep)
    requires s.edges == []
    ensures EdgesOf([s]) == []
  {
    assert [s][..0] == [];
  }

  /** Applies a step's equalities one by one. */
  method EnforceAll(classes: EquivalenceClasses, g: QueryGraph, es: seq<Predicate>, ghost before: seq<Predicate>)
    requires classes.Valid() && EdgesIn(g, es) && classes.roots == After(g, before)
    modifies classes
    ensures classes.Valid() && classes.roots == After(g, before + es)
  {
    assert before + es[..0] == before;
    for i := 0 to |es|
      invariant classes.Valid() && classes.roots == After(g, before + es[..i])
    {
      assert es[i] in es;
      assert before + es[..i + 1] == before + es[..i] + [es[i]];
      classes.Enforce(g, es[i], before + es[..i]);
    }
    assert es[..|es|] == es;
  }

  function UpTo(n: nat): (s: set<nat>)
    ensures |s| == n && forall r :: r in s <==> 0 <= r < n
  {
    if n == 0 then {} else UpTo(n - 1) + {n - 1}
  }

  lemma SomeLeft(joined: set<nat>, n: nat)
    requires |joined| < n
    ensures exists r :: 0 <= r < n && r !in joined
  {
    if forall r :: 0 <= r < n ==> r in joined {
      assert UpTo(n) <= joined;
      SubsetSize(UpTo(n), joined);
    }
  }

  lemma SubsetSize(a: set<nat>, b: set<nat>)
    requires a <= b
    ensures |a| <= |b|
    ensures |a| == |b| ==> a == b
    decreases |b|
  {
    if a != {} {
      var x :| x in a;
      SubsetSize(a - {x}, b - {x});
      assert a == a - {x} + {x} && b == b - {x} + {x};
    }
  }

  lemma AllJoined(joined: set<nat>, n: nat)
    requires |joined| >= n && forall r :: r in joined ==> r < n
    ensures |joined| == n && forall r :: 0 <= r < n ==> r in joined
  {
    assert joined <= UpTo(n);
    SubsetSize(joined, UpTo(n));
  }
}
