/** Which attributes have been made equal so far, and the rewriting of join keys onto the
    shallowest attribute of their class. */
module Equalities {
  import opened Bags
  import opened FTrees
  import opened Convergence
  import opened Graphs

  /** The representative of every attribute. */
  type Roots = seq<nat>

  ghost predicate ValidRoots(roots: Roots) {
    forall i :: 0 <= i < |roots| ==> roots[i] < |roots| && roots[roots[i]] == roots[i]
  }

  function Apart(n: nat): (roots: Roots)
    ensures |roots| == n && forall i :: 0 <= i < n ==> roots[i] == i
  {
    seq(n, i requires 0 <= i < n => i)
  }

  /** The classes of `a` and `b` as one. */
  function MergedRoots(roots: Roots, a: nat, b: nat): (r: Roots)
    requires a < |roots| && b < |roots|
    ensures |r| == |roots|
  {
    seq(|roots|, i requires 0 <= i < |roots| => if roots[i] == roots[a] then roots[b] else roots[i])
  }

  lemma MergedValid(roots: Roots, a: nat, b: nat)
    requires ValidRoots(roots) && a < |roots| && b < |roots|
    ensures ValidRoots(MergedRoots(roots, a, b))
    ensures forall i, j :: 0 <= i < |roots| && 0 <= j < |roots| ==>
      (MergedRoots(roots, a, b)[i] == MergedRoots(roots, a, b)[j] <==>
        || roots[i] == roots[j] || (roots[i] == roots[a] && roots[j] == roots[b])
        || (roots[i] == roots[b] && roots[j] == roots[a]))
  {}

  /** The classes once the equalities `ps` hold. */
  function After(g: QueryGraph, ps: seq<Predicate>): (roots: Roots)
    ensures |roots| == TotalAttributes(g)
  {
    if ps == [] then Apart(TotalAttributes(g))
    else
      var before, p := After(g, ps[..|ps| - 1]), ps[|ps| - 1];
      if p.left < RelationCount(g) && p.right < RelationCount(g)
         && LeftOf(g, p) < TotalAttributes(g) && RightOf(g, p) < TotalAttributes(g)
      then MergedRoots(before, LeftOf(g, p), RightOf(g, p))
      else before
  }

  lemma {:induction false} AfterValid(g: QueryGraph, ps: seq<Predicate>)
    ensures ValidRoots(After(g, ps))
    decreases |ps|
  {
    if ps != [] {
      var before, p := After(g, ps[..|ps| - 1]), ps[|ps| - 1];
      AfterValid(g, ps[..|ps| - 1]);
      if p.left < RelationCount(g) && p.right < RelationCount(g)
         && LeftOf(g, p) < TotalAttributes(g) && RightOf(g, p) < TotalAttributes(g) {
        MergedValid(before, LeftOf(g, p), RightOf(g, p));
      }
    }
  }

  lemma AfterSnoc(g: QueryGraph, ps: seq<Predicate>, p: Predicate)
    requires PredicateIn(g, p)
    ensures LeftOf(g, p) < TotalAttributes(g) && RightOf(g, p) < TotalAttributes(g)
    ensures After(g, ps + [p]) == MergedRoots(After(g, ps), LeftOf(g, p), RightOf(g, p))
  {
    AttributeInjective(g, p.left, p.leftColumn, p.left, p.leftColumn);
    AttributeInjective(g, p.right, p.rightColumn, p.right, p.rightColumn);
    assert (ps + [p])[..|ps|] == ps;
  }

  /** A tuple that satisfies the predicates is constant on their classes. */
  lemma {:induction false} ClassesHold(g: QueryGraph, ps: seq<Predicate>, t: Tuple, i: nat, j: nat)
    requires forall p :: p in ps ==> PredicateIn(g, p)
    requires SatAll(t, g, ps) && i < TotalAttributes(g) && j < TotalAttributes(g)
    requires After(g, ps)[i] == After(g, ps)[j] && i != j
    ensures i in t && j in t && t[i] == t[j]
    decreases |ps|
  {
    if ps != [] {
      var p, rest := ps[|ps| - 1], ps[..|ps| - 1];
      assert ps == rest + [p] && p in ps;
      assert forall q :: q in rest ==> q in ps;
      AfterSnoc(g, rest, p);
      AfterValid(g, rest);
      var before, a, b := After(g, rest), LeftOf(g, p), RightOf(g, p);
      MergedValid(before, a, b);
      assert Sat(t, g, p);
      if before[i] == before[j] {
        ClassesHold(g, rest, t, i, j);
      } else if before[i] == before[a] {
        if i != a { ClassesHold(g, rest, t, i, a); }
        if j != b { ClassesHold(g, rest, t, j, b); }
      } else {
        if i != b { ClassesHold(g, rest, t, i, b); }
        if j != a { ClassesHold(g, rest, t, j, a); }
      }
    }
  }

  /** The classes are the least equivalence containing the predicates: a labelling constant on
      classes satisfies them all. */
  lemma {:induction false} PredicatesInClasses(g: QueryGraph, ps: seq<Predicate>, p: Predicate)
    requires forall q :: q in ps ==> PredicateIn(g, q)
    requires p in ps && PredicateIn(g, p)
    ensures LeftOf(g, p) < TotalAttributes(g) && RightOf(g, p) < TotalAttributes(g)
    ensures After(g, ps)[LeftOf(g, p)] == After(g, ps)[RightOf(g, p)]
    decreases |ps|
  {
    var q, rest := ps[|ps| - 1], ps[..|ps| - 1];
    assert ps == rest + [q];
    AfterSnoc(g, rest, q);
    AfterValid(g, rest);
    MergedValid(After(g, rest), LeftOf(g, q), RightOf(g, q));
    if p in rest { PredicatesInClasses(g, rest, p); }
  }

  //
  // The shallowest member of a class
  //

  /** `x` is in the tree and `y` is not, or `x` is nearer to the root. */
  predicate Shallower(t: FNode, x: Attr, y: Attr) {
    DepthOf(t, x) >= 0 && (DepthOf(t, y) < 0 || DepthOf(t, x) < DepthOf(t, y))
  }

  /** The best of `key` and the members of its class below `n`. */
  function ShallowestBelow(roots: Roots, t: FNode, key: Attr, n: nat): Attr
    requires n <= |roots| && key < |roots|
  {
    if n == 0 then key
    else
      var best, candidate := ShallowestBelow(roots, t, key, n - 1), n - 1;
      if candidate != key && roots[candidate] == roots[key] && Shallower(t, candidate, best) then candidate else best
  }

  function Shallowest(roots: Roots, t: FNode, key: Attr): Attr
    requires key < |roots|
  {
    ShallowestBelow(roots, t, key, |roots|)
  }

  lemma {:induction false} ShallowestBelowIs(roots: Roots, t: FNode, key: Attr, n: nat)
    requires n <= |roots| && key < |roots|
    ensures var s := ShallowestBelow(roots, t, key, n);
            && s < |roots| && roots[s] == roots[key] && (s == key || Shallower(t, s, key))
            && (forall c :: 0 <= c < n && roots[c] == roots[key] ==> !Shallower(t, c, s))
            && (s != key ==> s < n && forall c :: 0 <= c < s && roots[c] == roots[key] ==> Shallower(t, s, c))
  {
    if n > 0 { ShallowestBelowIs(roots, t, key, n - 1); }
  }

  /** `s` is of the key's class and stored at the least depth any of the class is, if any is stored; it
      is the key itself unless another is nearer, and then the least id of the nearest. */
  ghost predicate Nearest(roots: Roots, t: FNode, key: Attr, s: Attr)
    requires key < |roots|
  {
    && s < |roots| && roots[s] == roots[key]
    && (forall c :: 0 <= c < |roots| && roots[c] == roots[key] && DepthOf(t, c) >= 0 ==> 0 <= DepthOf(t, s) <= DepthOf(t, c))
    && (s != key ==> DepthOf(t, s) >= 0 && DepthOf(t, s) != DepthOf(t, key))
    && (s != key ==> forall c :: 0 <= c < s && roots[c] == roots[key] ==> DepthOf(t, c) != DepthOf(t, s))
  }

  /** The rewritten key is of the key's class; nothing of the class is nearer to the root; and
      it is in the tree if the key is. */
  lemma ShallowestIs(roots: Roots, t: FNode, key: Attr)
    requires key < |roots|
    ensures var s := Shallowest(roots, t, key);
            && s < |roots| && roots[s] == roots[key]
            && (forall c :: 0 <= c < |roots| && roots[c] == roots[key] ==> !Shallower(t, c, s))
            && (DepthOf(t, key) >= 0 ==> 0 <= DepthOf(t, s) <= DepthOf(t, key))
            && Nearest(roots, t, key, s)
  {
    hide DepthOf;
    ShallowestBelowIs(roots, t, key, |roots|);
  }

  //
  // Union-find
  //

  /** The pointers lead to the representatives: `ranks` grow along them and stay below `top`, so
      following them ends. */
  ghost predicate LeadTo(parent: seq<nat>, roots: Roots, ranks: seq<nat>, top: nat) {
    && |roots| == |parent| == |ranks| && ValidRoots(roots)
    && forall i :: 0 <= i < |parent| ==> LeadsTo(parent, roots, ranks, top, i)
  }

  ghost predicate LeadsTo(parent: seq<nat>, roots: Roots, ranks: seq<nat>, top: nat, i: nat)
    requires |roots| == |parent| == |ranks| && i < |parent|
  {
    && parent[i] < |parent| && ranks[i] < top && roots[i] == roots[parent[i]]
    && (if parent[i] == i then roots[i] == i else ranks[i] < ranks[parent[i]])
  }

  /** Skipping over one pointer. */
  lemma Halved(parent: seq<nat>, roots: Roots, ranks: seq<nat>, top: nat, x: nat)
    requires LeadTo(parent, roots, ranks, top) && x < |parent| && parent[x] != x
    ensures parent[x] < |parent| && parent[parent[x]] < |parent| && LeadTo(parent[x := parent[parent[x]]], roots, ranks, top)
    ensures roots[parent[parent[x]]] == roots[x] && ranks[x] < ranks[parent[parent[x]]] < top
  {
    var y := parent[x];
    assert LeadsTo(parent, roots, ranks, top, x) && LeadsTo(parent, roots, ranks, top, y);
    assert LeadsTo(parent, roots, ranks, top, parent[y]);
    var halved := parent[x := parent[y]];
    forall i | 0 <= i < |parent| ensures LeadsTo(halved, roots, ranks, top, i) {
      assert LeadsTo(parent, roots, ranks, top, i);
    }
  }

  /** Hanging one representative below another. */
  lemma Linked(parent: seq<nat>, roots: Roots, ranks: seq<nat>, top: nat, a: nat, b: nat)
    requires LeadTo(parent, roots, ranks, top) && a < |parent| && b < |parent|
    requires parent[a] == a && parent[b] == b && a != b
    ensures LeadTo(parent[a := b], MergedRoots(roots, a, b), ranks[b := ranks[a] + ranks[b] + 1], top + ranks[a] + ranks[b] + 1)
  {
    MergedValid(roots, a, b);
    var linked, merged, higher, limit := parent[a := b], MergedRoots(roots, a, b), ranks[b := ranks[a] + ranks[b] + 1],
                                         top + ranks[a] + ranks[b] + 1;
    assert LeadsTo(parent, roots, ranks, top, a) && LeadsTo(parent, roots, ranks, top, b);
    forall i | 0 <= i < |parent| ensures LeadsTo(linked, merged, higher, limit, i) {
      assert LeadsTo(parent, roots, ranks, top, i) && LeadsTo(parent, roots, ranks, top, parent[i]);
    }
  }

  lemma MergedByRoots(roots: Roots, a: nat, b: nat)
    requires ValidRoots(roots) && a < |roots| && b < |roots|
    ensures MergedRoots(roots, a, b) == MergedRoots(roots, roots[a], roots[b])
    ensures roots[a] == roots[b] ==> MergedRoots(roots, a, b) == roots
  {}

  /** Union-find over attributes; `roots` is what the pointers mean. */
  class EquivalenceClasses {
    var parent: seq<nat>
    ghost var roots: Roots
    ghost var ranks: seq<nat>
    ghost var top: nat

    ghost predicate Valid()
      reads this
    {
      LeadTo(parent, roots, ranks, top)
    }

    /** No equalities yet. */
    constructor Enforced(g: QueryGraph)
      ensures Valid() && roots == After(g, [])
    {
      parent, roots := Apart(TotalAttributes(g)), After(g, []);
      ranks, top := seq(TotalAttributes(g), i => 0), 1;
    }

    /** Every predicate's equality at once. */
    constructor Closed(g: QueryGraph)
      requires ValidGraph(g)
      ensures Valid() && roots == After(g, g.predicates)
    {
      parent, roots := Apart(TotalAttributes(g)), After(g, []);
      ranks, top := seq(TotalAttributes(g), i => 0), 1;
      new;
      hide LeadsTo, After;
      for i := 0 to |g.predicates|
        invariant Valid() && roots == After(g, g.predicates[..i])
      {
        assert g.predicates[i] in g.predicates && g.predicates[..i + 1] == g.predicates[..i] + [g.predicates[i]];
        Enforce(g, g.predicates[i], g.predicates[..i]);
      }
      assert g.predicates[..|g.predicates|] == g.predicates;
    }

    /** Follows the pointers to the representative, halving the path on the way. */
    method Find(attribute: nat) returns (root: nat)
      requires Valid() && attribute < |roots|
      modifies this`parent
      ensures Valid() && root == roots[attribute] && root < |parent| && parent[root] == root
      ensures forall i :: 0 <= i < |old(parent)| && old(parent)[i] == i ==> i < |parent| && parent[i] == i
    {
      hide LeadsTo;
      root := attribute;
      while parent[root] != root
        invariant Valid() && root < |parent| == |old(parent)| && roots[root] == roots[attribute]
        invariant forall i :: 0 <= i < |old(parent)| && old(parent)[i] == i ==> parent[i] == i
        decreases top - ranks[root]
      {
        Halved(parent, roots, ranks, top, root);
        parent := parent[root := parent[parent[root]]];
        root := parent[root];
      }
      AtRoot(parent, roots, ranks, top, root);
    }

    method SameClass(a: nat, b: nat) returns (same: bool)
      requires Valid() && a < |roots| && b < |roots|
      modifies this`parent
      ensures Valid() && same == (roots[a] == roots[b])
    {
      hide LeadTo;
      var x := Find(a);
      var y := Find(b);
      return x == y;
    }

    /** Merges the two sides of one predicate, once a join has applied it. */
    method Enforce(g: QueryGraph, p: Predicate, ghost ps: seq<Predicate>)
      requires Valid() && PredicateIn(g, p) && roots == After(g, ps)
      modifies this
      ensures Valid() && roots == After(g, ps + [p])
    {
      hide LeadsTo, After;
      AfterSnoc(g, ps, p);
      MergedByRoots(roots, LeftOf(g, p), RightOf(g, p));
      var a := Find(LeftOf(g, p));
      var b := Find(RightOf(g, p));
      if a != b {
        Linked(parent, roots, ranks, top, a, b);
        roots, top := MergedRoots(roots, a, b), top + ranks[a] + ranks[b] + 1;
        ranks := ranks[b := ranks[a] + ranks[b] + 1];
        parent := parent[a := b];
      }
    }

    /** Tries every attribute in turn. */
    method ShallowestEquivalent(t: FNode, key: Attr) returns (best: Attr)
      requires Valid() && key < |roots|
      modifies this`parent
      ensures Valid() && best == Shallowest(roots, t, key) && Nearest(roots, t, key, best)
    {
      hide LeadsTo, DepthOf;
      best := key;
      var bestDepth := DepthOf(t, key);
      for candidate := 0 to |parent|
        invariant Valid() && best == ShallowestBelow(roots, t, key, candidate) && bestDepth == DepthOf(t, best)
      {
        if candidate == key { continue; }
        var same := SameClass(candidate, key);
        if !same { continue; }
        var depth := DepthOf(t, candidate);
        if depth < 0 { continue; }
        if bestDepth < 0 || depth < bestDepth {
          best, bestDepth := candidate, depth;
        }
      }
      ShallowestIs(roots, t, key);
    }
  }

  lemma AtRoot(parent: seq<nat>, roots: Roots, ranks: seq<nat>, top: nat, x: nat)
    requires LeadTo(parent, roots, ranks, top) && x < |parent| && parent[x] == x
    ensures roots[x] == x
  {
    assert LeadsTo(parent, roots, ranks, top, x);
  }
}
