/** What it means that the planner refuses a relation, and that it gets stuck. */
module Refusals {
  import opened Bags
  import opened FTrees
  import opened Restructuring
  import opened Transforming
  import opened Convergence
  import opened KeyPacking
  import opened Ranges
  import opened Graphs
  import opened Equalities
  import opened Plans
  import opened Answering

  /** The keys the accumulated side would be read by, were the relation joined next. */
  ghost function KeysNext(g: QueryGraph, steps: seq<PlanStep>, r: nat): seq<Attr>
    requires TypesGiven(g) && ValidGraph(g) && Planned(g, steps) && r !in SetOf(RelationsOf(steps))
  {
    var es := Crossing(g.predicates, SetOf(RelationsOf(steps)), r);
    CrossingMembers(g.predicates, SetOf(RelationsOf(steps)), r);
    RewrittenAll(After(g, EdgesOf(steps)), TreeAfter(g, steps, LEVELWISE), RawKeys(g, r, es))
  }

  /** How many bits the columns take. */
  function Width(types: Types, keys: seq<Attr>): nat {
    if keys == [] then 0 else Width(types, keys[..|keys| - 1]) + (if TypeOf(types, keys[|keys| - 1]) == INT32 then 32 else 64)
  }

  lemma {:induction false} BitsAre(types: Types, keys: seq<Attr>)
    ensures TotalBits(TypesOf(types, keys)) == Width(types, keys)
    decreases |keys|
  {
    if keys != [] {
      var n := |keys| - 1;
      BitsAre(types, keys[..n]);
      assert TypesOf(types, keys) == TypesOf(types, keys[..n]) + [TypeOf(types, keys[n])];
      BitsAppend(TypesOf(types, keys[..n]), TypeOf(types, keys[n]));
    }
  }

  lemma {:induction false} BitsAppend(ts: seq<ValueType>, t: ValueType)
    ensures TotalBits(ts + [t]) == TotalBits(ts) + (if t == INT32 then 32 else 64)
  {
    if ts == [] {
      assert [] + [t] == [t] && [t][1..] == [];
    } else {
      assert (ts + [t])[1..] == ts[1..] + [t];
      BitsAppend(ts[1..], t);
    }
  }

  /** A relation that edges lead to is refused exactly if it would be joined by two or more columns
      that the tree by then does not store at one depth, or by columns wider than a word on either side. */
  lemma RefusedIff(g: QueryGraph, steps: seq<PlanStep>, r: nat)
    requires TypesGiven(g) && ValidGraph(g) && Planned(g, steps) && r < RelationCount(g) && r !in SetOf(RelationsOf(steps))
    ensures var joined, t := SetOf(RelationsOf(steps)), TreeAfter(g, steps, LEVELWISE);
      var es, keys := Crossing(g.predicates, joined, r), KeysNext(g, steps, r);
      && EdgesIn(g, es)
      && (Refused(g, t, After(g, EdgesOf(steps)), joined, r)
          <==> (|es| >= 2 && !AtOneDepth(t, keys)) || Width(TypesIn(g), keys) > 64 || Width(TypesIn(g), NewKeys(g, r, es)) > 64)
      && (TooWide(g, t, After(g, EdgesOf(steps)), joined, r)
          <==> es != [] && (Width(TypesIn(g), keys) > 64 || Width(TypesIn(g), NewKeys(g, r, es)) > 64))
  {
    hide TreeAfter, After, AttrBag, PathTree, InsertionPath, Crossing, RawKeys, NewKeys, RewrittenAll, AtOneDepth, StepConnects, StepLands,
         TotalBits, Width, TypesOf;
    var joined, t := SetOf(RelationsOf(steps)), TreeAfter(g, steps, LEVELWISE);
    var es, keys := Crossing(g.predicates, joined, r), KeysNext(g, steps, r);
    CrossingMembers(g.predicates, joined, r);
    assert EdgesIn(g, es);
    BitsAre(TypesIn(g), keys);
    BitsAre(TypesIn(g), NewKeys(g, r, es));
    TreeAfterBag(g, steps, LEVELWISE);
    RewrittenLength(After(g, EdgesOf(steps)), t, g, r, es);
    if |es| >= 2 { PlannerAsksOneDepth(t, keys); }
  }

  lemma RewrittenLength(roots: Roots, t: FNode, g: QueryGraph, r: nat, es: seq<Predicate>)
    requires EdgesIn(g, es)
    ensures |RewrittenAll(roots, t, RawKeys(g, r, es))| == |es|
  {}
}
