/** Which keys the root-to-leaf transformation brings onto one node: under the level-wise strategy
    those stored at one depth of the input tree, under the naive strategy all of them. */
module Convergence {
  import opened Bags
  import opened FTrees
  import opened Reordering
  import opened Restructuring
  import opened Transforming
  import opened Joins
  import opened FactorizedJoins

  /** The depth of the node holding the attribute, or -1. */
  function DepthOf(t: FNode, a: Attr): int {
    match LevelOf(t, a) case None => -1 case Some(p) => |p|
  }

  lemma HasLevel(t: FNode, a: Attr)
    ensures a in AttrSet(t) <==> LevelOf(t, a).Some?
    ensures a in AttrSet(t) <==> DepthOf(t, a) >= 0
  {
    LevelOfHolds(t, a);
    if LevelOf(t, a).Some? { NodeAtInSet(t, LevelOf(t, a).value); }
  }

  /** Keys that sit at one node of a tree without repeated attributes converge. */
  lemma LandedConverges(t: FNode, p: Path, keys: seq<Attr>)
    requires AtMostOnce(AttrBag(t)) && KeysAt(t, p, keys)
    ensures Converges(t, keys)
  {
    BagGivesDisjoint(t);
    forall i | 0 <= i < |keys| ensures LevelOf(t, keys[i]) == Some(p) {
      assert keys[i] in keys;
      NodeAtInSet(t, p);
      HasLevel(t, keys[i]);
      LevelOfHolds(t, keys[i]);
      assert LevelOf(t, keys[i]).value == p;
    }
  }

  lemma PathTreeAttrs(t: FNode, keys: seq<Attr>, strategy: PathStrategy)
    requires AtMostOnce(AttrBag(t))
    ensures AtMostOnce(AttrBag(PathTree(t, keys, strategy))) && AttrSet(PathTree(t, keys, strategy)) == AttrSet(t)
  {
    PathTreeValid(t, keys, strategy);
    AttrSetIsBag(t);
    AttrSetIsBag(PathTree(t, keys, strategy));
  }

  /** A single key always converges. */
  lemma FewConverge(t: FNode, keys: seq<Attr>, strategy: PathStrategy)
    requires AtMostOnce(AttrBag(t)) && |keys| < 2 && forall k :: k in keys ==> k in AttrSet(t)
    ensures Converges(PathTree(t, keys, strategy), keys)
  {
    if keys != [] {
      assert keys[0] in keys;
      PathTreeAttrs(t, keys, strategy);
      HasLevel(PathTree(t, keys, strategy), keys[0]);
    }
  }

  lemma {:induction false} AbsorbsKey(ns: seq<FNode>, keys: seq<Attr>, k: Attr)
    requires k in keys && k in AttrSetAll(ns)
    ensures k in AbsorbedAttrs(ns, keys)
    decreases ns
  {
    if k in AttrSet(ns[0]) {
      HeldIsRequired(ns[0], keys, k);
      if k !in ns[0].attrs { AbsorbsKey(ns[0].children, keys, k); }
    } else {
      AbsorbsKey(ns[1..], keys, k);
    }
  }

  /** Under the naive strategy every key ends up in the root. */
  lemma NaiveConverges(t: FNode, keys: seq<Attr>)
    requires AtMostOnce(AttrBag(t)) && forall k :: k in keys ==> k in AttrSet(t)
    ensures Converges(PathTree(t, keys, NAIVE), keys)
  {
    var s, m := Stamp(t, []), PathTree(t, keys, NAIVE);
    PathTreeValid(t, keys, NAIVE);
    AttrSetIsBag(t);
    AttrSetIsBag(s);
    StampBag(t, []);
    forall k | k in keys ensures k in m.attrs {
      HeldIsRequired(s, keys, k);
      if k !in s.attrs { AbsorbsKey(s.children, keys, k); }
    }
    LandedConverges(m, [], keys);
  }

  /** A scan is one node. */
  lemma ScanConverges(attrs: set<Attr>, keys: seq<Attr>, strategy: PathStrategy)
    requires forall k :: k in keys ==> k in attrs
    ensures Converges(PathTree(Scan(attrs), keys, strategy), keys)
  {
    ScanBag(attrs);
    var t := Scan(attrs);
    assert AttrSet(t) == attrs by { assert AttrSetAll([]) == {}; }
    if strategy == NAIVE {
      NaiveConverges(t, keys);
    } else {
      var s, m := Stamp(t, []), PathTree(t, keys, LEVELWISE);
      assert s.children == [] && Chosen(s.children, keys) == [];
      assert m == s;
      PathTreeValid(t, keys, LEVELWISE);
      LandedConverges(m, [], keys);
    }
  }

  lemma ScanBag(attrs: set<Attr>)
    ensures AttrBag(Scan(attrs)) == multiset(attrs)
  {
    assert AttrBagAll([]) == multiset{};
  }

  /** Keys that land where the planner looked converge where the join reads them; under the
      naive strategy all keys do. */
  lemma AccumulatedConverges(t: FNode, keys: seq<Attr>, strategy: PathStrategy)
    requires AtMostOnce(AttrBag(t)) && forall k :: k in keys ==> k in AttrSet(t)
    requires strategy == LEVELWISE && |keys| >= 2 ==>
      KeysAt(PathTree(t, keys, LEVELWISE), InsertionPath(t, keys, LEVELWISE), keys)
    ensures Converges(PathTree(t, keys, strategy), keys)
  {
    if strategy == NAIVE {
      NaiveConverges(t, keys);
    } else if |keys| < 2 {
      FewConverge(t, keys, LEVELWISE);
    } else {
      PathTreeAttrs(t, keys, LEVELWISE);
      LandedConverges(PathTree(t, keys, LEVELWISE), InsertionPath(t, keys, LEVELWISE), keys);
    }
  }

  //
  // The depth of an attribute
  //

  /** The attribute is stored at a node this far from the root. */
  predicate StoredAt(n: FNode, a: Attr, d: nat)
    decreases n
  {
    if d == 0 then a in n.attrs else StoredAtAll(n.children, a, d - 1)
  }

  predicate StoredAtAll(ns: seq<FNode>, a: Attr, d: nat)
    decreases ns
  {
    ns != [] && (StoredAt(ns[0], a, d) || StoredAtAll(ns[1..], a, d))
  }

  lemma {:induction false} StoredAppend(ns: seq<FNode>, ms: seq<FNode>, a: Attr, d: nat)
    ensures StoredAtAll(ns + ms, a, d) <==> StoredAtAll(ns, a, d) || StoredAtAll(ms, a, d)
    decreases |ns|
  {
    if ns == [] {
      assert ns + ms == ms;
    } else {
      assert (ns + ms)[0] == ns[0] && (ns + ms)[1..] == ns[1..] + ms;
      StoredAppend(ns[1..], ms, a, d);
    }
  }

  lemma StoredOne(n: FNode, a: Attr, d: nat)
    ensures StoredAtAll([n], a, d) <==> StoredAt(n, a, d)
  {
    assert [n][1..] == [];
  }

  lemma {:induction false} StoredChild(ns: seq<FNode>, i: nat, a: Attr, d: nat)
    requires i < |ns| && StoredAt(ns[i], a, d)
    ensures StoredAtAll(ns, a, d)
  {
    if i > 0 { StoredChild(ns[1..], i - 1, a, d); }
  }

  lemma {:induction false} StoredSomewhere(ns: seq<FNode>, a: Attr, d: nat) returns (i: nat)
    requires StoredAtAll(ns, a, d)
    ensures i < |ns| && StoredAt(ns[i], a, d)
  {
    if StoredAt(ns[0], a, d) {
      i := 0;
    } else {
      i := StoredSomewhere(ns[1..], a, d);
      i := i + 1;
    }
  }

  /** Replacing one child by a tree that stores everything where it did changes no depth. */
  lemma StoredReplaced(ns: seq<FNode>, i: nat, m: FNode, a: Attr, d: nat)
    requires i < |ns| && (StoredAt(m, a, d) <==> StoredAt(ns[i], a, d))
    ensures StoredAtAll(ns[i := m], a, d) <==> StoredAtAll(ns, a, d)
  {
    var pre, post := ns[..i], ns[i + 1..];
    assert ns == pre + ([ns[i]] + post) && ns[i := m] == pre + ([m] + post);
    StoredAppend(pre, [ns[i]] + post, a, d);
    StoredAppend(pre, [m] + post, a, d);
    assert ([ns[i]] + post)[1..] == post && ([m] + post)[1..] == post;
  }

  lemma {:induction false} StampStored(t: FNode, p: Path, a: Attr, d: nat)
    ensures StoredAt(Stamp(t, p), a, d) <==> StoredAt(t, a, d)
    decreases t
  {
    if d > 0 { StampAllStored(t.children, p, 0, a, d - 1); }
  }

  lemma {:induction false} StampAllStored(ns: seq<FNode>, p: Path, i: nat, a: Attr, d: nat)
    ensures StoredAtAll(StampAll(ns, p, i), a, d) <==> StoredAtAll(ns, a, d)
    decreases ns
  {
    if ns != [] {
      StampStored(ns[0], p + [i], a, d);
      StampAllStored(ns[1..], p, i + 1, a, d);
      assert StampAll(ns, p, i)[1..] == StampAll(ns[1..], p, i + 1);
    }
  }

  lemma {:induction false} PartitionStored(ns: seq<FNode>, keys: seq<Attr>, a: Attr, d: nat)
    ensures StoredAtAll(ns, a, d) <==> StoredAtAll(Kept(ns, keys), a, d) || StoredAtAll(Chosen(ns, keys), a, d)
  {
    if ns != [] {
      PartitionStored(ns[1..], keys, a, d);
      if Required(ns[0], keys) {
        assert Chosen(ns, keys)[1..] == Chosen(ns[1..], keys);
      } else {
        assert Kept(ns, keys)[1..] == Kept(ns[1..], keys);
      }
    }
  }

  /** Siblings are merged level by level. */
  lemma {:induction false} MergedStored(ns: seq<FNode>, a: Attr, d: nat)
    ensures StoredAt(Merged(ns), a, d) <==> StoredAtAll(ns, a, d)
  {
    if ns != [] {
      MergedStored(ns[1..], a, d);
      if d > 0 { StoredAppend(ns[0].children, ChildrenOf(ns[1..]), a, d - 1); }
    }
  }

  lemma {:induction false} MergeKeepsDepth(n: FNode, keys: seq<Attr>, a: Attr, d: nat)
    ensures StoredAt(MergeLevelwise(n, keys), a, d) <==> StoredAt(n, a, d)
    decreases NodeCount(n)
  {
    var chosen, kept := Chosen(n.children, keys), Kept(n.children, keys);
    if chosen != [] && d > 0 {
      MergeShrinks(n, keys);
      MergeKeepsDepth(Merged(chosen), keys, a, d - 1);
      MergedStored(chosen, a, d - 1);
      PartitionStored(n.children, keys, a, d - 1);
      StoredAppend(kept, [MergeLevelwise(Merged(chosen), keys)], a, d - 1);
      StoredOne(MergeLevelwise(Merged(chosen), keys), a, d - 1);
    }
  }

  lemma {:induction false} LevelwiseKeepsDepth(n: FNode, keys: seq<Attr>, a: Attr, d: nat)
    ensures StoredAt(Levelwise(n, keys).0, a, d) <==> StoredAt(n, a, d)
    decreases n
  {
    if |Chosen(n.children, keys)| == 1 {
      var i := FirstRequired(n.children, keys);
      if d > 0 {
        LevelwiseKeepsDepth(n.children[i], keys, a, d - 1);
        StoredReplaced(n.children, i, Levelwise(n.children[i], keys).0, a, d - 1);
      }
    } else {
      MergeKeepsDepth(n, keys, a, d);
    }
  }

  /** The level-wise transformation moves attributes sideways only. */
  lemma PathTreeKeepsDepth(t: FNode, keys: seq<Attr>, a: Attr, d: nat)
    ensures StoredAt(PathTree(t, keys, LEVELWISE), a, d) <==> StoredAt(t, a, d)
  {
    StampStored(t, [], a, d);
    LevelwiseKeepsDepth(Stamp(t, []), keys, a, d);
  }

  lemma {:induction false} NodeStores(t: FNode, p: Path, a: Attr)
    requires NodeAt(t, p).Some? && a in NodeAt(t, p).value.attrs
    ensures StoredAt(t, a, |p|)
    decreases |p|
  {
    if p != [] {
      NodeStores(t.children[p[0]], p[1..], a);
      StoredChild(t.children, p[0], a, |p| - 1);
    }
  }

  lemma {:induction false} StoredNode(t: FNode, a: Attr, d: nat) returns (p: Path)
    requires StoredAt(t, a, d)
    ensures |p| == d && NodeAt(t, p).Some? && a in NodeAt(t, p).value.attrs
    decreases d
  {
    if d == 0 {
      p := [];
    } else {
      var i := StoredSomewhere(t.children, a, d - 1);
      var below := StoredNode(t.children[i], a, d - 1);
      p := [i] + below;
      assert p[1..] == below;
    }
  }

  /** In a tree without repeated attributes each is stored at its depth, and nowhere else. */
  lemma StoredAtDepth(t: FNode, a: Attr, d: nat)
    requires AtMostOnce(AttrBag(t))
    ensures StoredAt(t, a, d) <==> DepthOf(t, a) == d
  {
    LevelOfHolds(t, a);
    if LevelOf(t, a).Some? { NodeStores(t, LevelOf(t, a).value, a); }
    if StoredAt(t, a, d) {
      var p := StoredNode(t, a, d);
      NodeAtInSet(t, p);
      BagGivesDisjoint(t);
      assert LevelOf(t, a).value == p;
    }
  }

  lemma SameDepth(t: FNode, keys: seq<Attr>, a: Attr)
    requires AtMostOnce(AttrBag(t))
    ensures DepthOf(PathTree(t, keys, LEVELWISE), a) == DepthOf(t, a)
  {
    var m := PathTree(t, keys, LEVELWISE);
    PathTreeAttrs(t, keys, LEVELWISE);
    if DepthOf(t, a) >= 0 {
      StoredAtDepth(t, a, DepthOf(t, a));
      PathTreeKeepsDepth(t, keys, a, DepthOf(t, a));
      StoredAtDepth(m, a, DepthOf(t, a));
    }
    if DepthOf(m, a) >= 0 {
      StoredAtDepth(m, a, DepthOf(m, a));
      PathTreeKeepsDepth(t, keys, a, DepthOf(m, a));
      StoredAtDepth(t, a, DepthOf(m, a));
    }
  }

  //
  // Every node that holds a key is on the path
  //

  /** `p` is met on the way to `end`. */
  predicate OnWay(p: Path, end: Path) {
    |p| <= |end| && p == end[..|p|]
  }

  lemma OnWayBelow(i: nat, p: Path, end: Path)
    requires OnWay(p, end)
    ensures OnWay([i] + p, [i] + end)
  {}

  lemma {:induction false} NodeRequired(n: FNode, p: Path, keys: seq<Attr>)
    requires NodeAt(n, p).Some? && HoldsKey(NodeAt(n, p).value, keys)
    ensures Required(n, keys)
    decreases |p|
  {
    if p != [] { NodeRequired(n.children[p[0]], p[1..], keys); }
  }

  lemma {:induction false} KeptNotRequired(ns: seq<FNode>, keys: seq<Attr>)
    ensures forall i :: 0 <= i < |Kept(ns, keys)| ==> !Required(Kept(ns, keys)[i], keys)
  {
    if ns != [] { KeptNotRequired(ns[1..], keys); }
  }

  /** The required child comes after those that are kept. */
  lemma KeptFirst(kept: seq<FNode>, m: FNode, i: nat, keys: seq<Attr>)
    requires (forall j :: 0 <= j < |kept| ==> !Required(kept[j], keys)) && i <= |kept| && Required((kept + [m])[i], keys)
    ensures i == |kept| && (kept + [m])[i] == m
  {}

  lemma {:induction false} MergeOnWay(n: FNode, keys: seq<Attr>, p: Path)
    requires NodeAt(MergeLevelwise(n, keys), p).Some? && HoldsKey(NodeAt(MergeLevelwise(n, keys), p).value, keys)
    ensures OnWay(p, MergeEnd(n, keys))
    decreases NodeCount(n)
  {
    var chosen, kept := Chosen(n.children, keys), Kept(n.children, keys);
    if p != [] {
      NodeRequired(MergeLevelwise(n, keys).children[p[0]], p[1..], keys);
      ChosenRequired(n.children, keys);
      if chosen != [] {
        MergeShrinks(n, keys);
        KeptNotRequired(n.children, keys);
        var m := MergeLevelwise(Merged(chosen), keys);
        assert MergeLevelwise(n, keys).children == kept + [m];
        KeptFirst(kept, m, p[0], keys);
        MergeOnWay(Merged(chosen), keys, p[1..]);
        OnWayBelow(p[0], p[1..], MergeEnd(Merged(chosen), keys));
        assert p == [p[0]] + p[1..];
      }
    }
  }

  /** Of the children only the first required one is, if just one is. */
  lemma {:induction false} OneRequired(ns: seq<FNode>, keys: seq<Attr>, i: nat)
    requires |Chosen(ns, keys)| == 1 && i < |ns| && Required(ns[i], keys)
    ensures i == FirstRequired(ns, keys)
  {
    ChosenRequired(ns[1..], keys);
    if Required(ns[0], keys) {
      assert Chosen(ns[1..], keys) == [];
      if i > 0 { assert Required(ns[1..][i - 1], keys); }
    } else {
      OneRequired(ns[1..], keys, i - 1);
    }
  }

  lemma {:induction false} LevelwiseOnWay(n: FNode, keys: seq<Attr>, p: Path)
    requires NodeAt(Levelwise(n, keys).0, p).Some? && HoldsKey(NodeAt(Levelwise(n, keys).0, p).value, keys)
    ensures OnWay(p, Levelwise(n, keys).1)
    decreases n
  {
    if |Chosen(n.children, keys)| == 1 {
      var i := FirstRequired(n.children, keys);
      var (child, below) := Levelwise(n.children[i], keys);
      if p != [] {
        var c := Levelwise(n, keys).0.children[p[0]];
        NodeRequired(c, p[1..], keys);
        if p[0] != i { OneRequired(n.children, keys, p[0]); }
        LevelwiseOnWay(n.children[i], keys, p[1..]);
        OnWayBelow(i, p[1..], below);
        assert p == [p[0]] + p[1..];
      }
    } else {
      MergeOnWay(n, keys, p);
    }
  }

  /** All keys are in the tree, at one depth. */
  predicate AtOneDepth(t: FNode, keys: seq<Attr>) {
    forall k :: k in keys ==> DepthOf(t, k) >= 0 && DepthOf(t, k) == DepthOf(t, keys[0])
  }

  /** Keys converge under level-wise merging exactly if the tree stores them all at one depth. */
  lemma LevelwiseConvergesIff(t: FNode, keys: seq<Attr>)
    requires AtMostOnce(AttrBag(t))
    ensures Converges(PathTree(t, keys, LEVELWISE), keys) <==> AtOneDepth(t, keys)
  {
    hide PathTree, InsertionPath, LevelOf, AttrBag;
    var m := PathTree(t, keys, LEVELWISE);
    forall k ensures DepthOf(m, k) == DepthOf(t, k) { SameDepth(t, keys, k); }
    if AtOneDepth(t, keys) && keys != [] {
      assert keys[0] in keys;
      forall i | 0 <= i < |keys| ensures LevelOf(m, keys[i]) == LevelOf(m, keys[0]) {
        assert keys[i] in keys;
        KeyOnWay(t, keys, keys[i]);
        KeyOnWay(t, keys, keys[0]);
      }
    }
    if Converges(m, keys) {
      forall k | k in keys ensures DepthOf(m, k) >= 0 && DepthOf(m, k) == DepthOf(m, keys[0]) {
        var i :| 0 <= i < |keys| && keys[i] == k;
      }
    }
  }

  lemma KeyOnWay(t: FNode, keys: seq<Attr>, k: Attr)
    requires AtMostOnce(AttrBag(t)) && k in keys && DepthOf(PathTree(t, keys, LEVELWISE), k) >= 0
    ensures OnWay(LevelOf(PathTree(t, keys, LEVELWISE), k).value, InsertionPath(t, keys, LEVELWISE))
  {
    var s, m := Stamp(t, []), PathTree(t, keys, LEVELWISE);
    var p := LevelOf(m, k).value;
    LevelOfHolds(m, k);
    NodeAtInSet(m, p);
    PathTreeAttrs(t, keys, LEVELWISE);
    StampBag(t, []);
    AttrSetIsBag(t);
    AttrSetIsBag(s);
    HeldIsRequired(s, keys, k);
    LevelwiseOnWay(s, keys, p);
  }

  /** What the planner asks of a composite key, that it lands on the insertion node, is that the tree
      stores it at one depth. */
  lemma PlannerAsksOneDepth(t: FNode, keys: seq<Attr>)
    requires AtMostOnce(AttrBag(t)) && keys != []
    ensures KeysAt(PathTree(t, keys, LEVELWISE), InsertionPath(t, keys, LEVELWISE), keys) <==> AtOneDepth(t, keys)
  {
    hide PathTree, InsertionPath, AttrBag, AtOneDepth, Converges;
    var m, p := PathTree(t, keys, LEVELWISE), InsertionPath(t, keys, LEVELWISE);
    LevelwiseConvergesIff(t, keys);
    if KeysAt(m, p, keys) {
      PathTreeAttrs(t, keys, LEVELWISE);
      LandedConverges(m, p, keys);
    }
    if AtOneDepth(t, keys) { ConvergedAtInsertion(t, keys, LEVELWISE); }
  }

  /** Under naive merging keys converge exactly if the tree stores them all. */
  lemma NaiveConvergesIff(t: FNode, keys: seq<Attr>)
    requires AtMostOnce(AttrBag(t))
    ensures Converges(PathTree(t, keys, NAIVE), keys) <==> forall k :: k in keys ==> k in AttrSet(t)
  {
    var m := PathTree(t, keys, NAIVE);
    if forall k :: k in keys ==> k in AttrSet(t) { NaiveConverges(t, keys); }
    if Converges(m, keys) {
      PathTreeAttrs(t, keys, NAIVE);
      forall k | k in keys ensures k in AttrSet(t) {
        KeyLevelHolds(m, keys);
        NodeAtInSet(m, KeyLevel(m, keys));
      }
    }
  }
}
