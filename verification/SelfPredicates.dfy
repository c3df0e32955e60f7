/** Predicates with both sides on one relation. The planner marks them as covered without
    putting them into a step, so the executor never applies them. */
module SelfPredicates {
  import opened Bags
  import opened Filters
  import opened FTrees
  import opened Ranges
  import opened Restructuring
  import opened KeyPacking
  import opened Graphs
  import opened Equalities
  import opened Plans
  import opened Answering
  import opened OneRows

  /** Leaving the predicates within one relation out never changes a count. */
  ghost predicate Harmless(g: QueryGraph)
    requires TypesGiven(g)
  {
    forall data: Data :: ValidData(g, data) ==> SameCount(g, data)
  }

  ghost predicate SameCount(g: QueryGraph, data: Data)
    requires TypesGiven(g) && ValidData(g, data)
  {
    |FlatJoin(g, data, NonSelf(g.predicates))| == |FlatJoin(g, data, g.predicates)|
  }

  /** The equality already follows from the predicates between different relations. */
  predicate Implied(g: QueryGraph, p: Predicate) {
    p.left < RelationCount(g) && p.right < RelationCount(g)
    && LeftOf(g, p) < TotalAttributes(g) && RightOf(g, p) < TotalAttributes(g)
    && After(g, NonSelf(g.predicates))[LeftOf(g, p)] == After(g, NonSelf(g.predicates))[RightOf(g, p)]
  }

  /** Every column has its label: 0 in the class of `k`, 1 elsewhere. */
  function Label(roots: Roots, k: nat, a: nat): int
    requires k < |roots|
  {
    if a < |roots| && roots[a] == roots[k] then 0 else 1
  }

  function Labels(roots: Roots, k: nat): Attr -> int
    requires k < |roots|
  {
    (a: Attr) => Label(roots, k, a)
  }

  /** An equality that does not follow is violated by data that satisfies all the others. */
  lemma NotImplied(g: QueryGraph, p: Predicate)
    requires TypesGiven(g) && ValidGraph(g) && p in g.predicates && !Implied(g, p)
    requires forall r :: 0 <= r < RelationCount(g) ==> g.columnCounts[r] > 0
    ensures !Harmless(g)
  {
    assert PredicateIn(g, p);
    hide FlatJoin, WordJoin, DataBy;
    var ps := NonSelf(g.predicates);
    var roots := After(g, ps);
    AttributeInjective(g, p.left, p.leftColumn, p.left, p.leftColumn);
    AttributeInjective(g, p.right, p.rightColumn, p.right, p.rightColumn);
    var k := LeftOf(g, p);
    var t := OneCombination(g, Labels(roots, k));
    NonSelfMembers(g.predicates);
    forall q | q in ps ensures Sat(t, g, q) {
      assert q in g.predicates && PredicateIn(g, q);
      PredicatesInClasses(g, ps, q);
    }
    assert !Sat(t, g, p) && !SatAll(t, g, g.predicates);
    assert !SameCount(g, DataBy(g, Labels(roots, k)));
  }

  /** Equalities that follow are satisfied whenever the others are. */
  lemma AllImplied(g: QueryGraph, data: Data)
    requires TypesGiven(g) && ValidGraph(g) && ValidData(g, data)
    requires forall p :: p in g.predicates && p.left == p.right ==> Implied(g, p)
    ensures SameCount(g, data)
  {
    var ps, rs := NonSelf(g.predicates), Relations(g);
    var all := CrossSeq(ScansOf(g, data, rs));
    NonSelfMembers(g.predicates);
    RelationsBelow(g);
    CrossKeys(g, data, rs);
    forall t | t in all ensures SatAll(t, g, ps) <==> SatAll(t, g, g.predicates) {
      if SatAll(t, g, ps) {
        forall p | p in g.predicates ensures Sat(t, g, p) {
          assert PredicateIn(g, p);
          EveryAttribute(g, p.left, p.leftColumn);
          EveryAttribute(g, p.right, p.rightColumn);
          if p.left == p.right && LeftOf(g, p) != RightOf(g, p) { ClassesHold(g, ps, t, LeftOf(g, p), RightOf(g, p)); }
        }
      }
    }
    FilterSame(all, Satisfies(g, ps), Satisfies(g, g.predicates));
  }

  /** Dropping the predicates within one relation is harmless exactly when the predicates between
      relations already imply them, or there is never a row at all. */
  lemma HarmlessIffImplied(g: QueryGraph)
    requires TypesGiven(g) && ValidGraph(g)
    ensures Harmless(g) <==> NoColumns(g) || forall p :: p in g.predicates && p.left == p.right ==> Implied(g, p)
  {
    if NoColumns(g) {
      forall data: Data | ValidData(g, data) ensures SameCount(g, data) {
        NothingJoins(g, data, NonSelf(g.predicates));
        NothingJoins(g, data, g.predicates);
      }
    } else if forall p :: p in g.predicates && p.left == p.right ==> Implied(g, p) {
      forall data: Data | ValidData(g, data) ensures SameCount(g, data) { AllImplied(g, data); }
    } else {
      var p :| p in g.predicates && p.left == p.right && !Implied(g, p);
      NotImplied(g, p);
    }
  }

  /** A graph that has a complete plan, by which the executor answers without its second predicate. */
  lemma DroppedPredicate()
    ensures var g := QueryGraph([2, 1], [[INT32, INT32], [INT32]], [Predicate(1, 0, 0, 0), Predicate(0, 0, 0, 1)]);
            var steps := [PlanStep(1, []), PlanStep(0, [Predicate(1, 0, 0, 0)])];
            TypesGiven(g) && ValidGraph(g) && Planned(g, steps) && Covers(g, steps) && !Harmless(g)
  {
    var g := QueryGraph([2, 1], [[INT32, INT32], [INT32]], [Predicate(1, 0, 0, 0), Predicate(0, 0, 0, 1)]);
    var p, q := g.predicates[0], g.predicates[1];
    assert q in g.predicates && p in g.predicates;
    assert Base([2, 1], 0) == 0 && Base([2, 1], 1) == 2 && Base([2, 1], 2) == 3;
    assert g.predicates[1..] == [q] && [q][1..] == [];
    assert NonSelf([q]) == [];
    assert NonSelf(g.predicates) == [p];
    assert After(g, [p]) == MergedRoots(After(g, []), 2, 0) by { assert [p][..0] == []; }
    assert !Implied(g, q);
    NotImplied(g, q);
    TwoSteps(g, p);
  }

  /** Joining the first relation to the second by one predicate is a plan. */
  lemma TwoSteps(g: QueryGraph, p: Predicate)
    requires TypesGiven(g) && RelationCount(g) == 2 && p in g.predicates && PredicateIn(g, p) && p.left == 1 && p.right == 0
    requires NonSelf(g.predicates) == [p]
    ensures Planned(g, [PlanStep(1, []), PlanStep(0, [p])]) && Covers(g, [PlanStep(1, []), PlanStep(0, [p])])
  {
    var a, b := PlanStep(1, []), PlanStep(0, [p]);
    var steps := [a, b];
    assert steps[..0] == [] && steps[..1] == [a] && steps[..2] == steps && [a][..0] == [];
    assert RelationsOf([a]) == [1] && 1 in SetOf([1]) && 0 !in SetOf([1]);
    assert EdgesOf([]) == [] && EdgesOf([a]) == [] + [] && EdgesOf(steps) == EdgesOf([a]) + [p];
    assert StepConnects(g, steps, 0) && StepConnects(g, steps, 1);
    assert StepsIn(g, steps);
    OneKeyFits(TypesIn(g), AccumulatedKeys(g, steps, LEVELWISE));
    OneKeyFits(TypesIn(g), NewKeys(g, 0, [p]));
    assert StepLands(g, steps, 1);
  }
}
