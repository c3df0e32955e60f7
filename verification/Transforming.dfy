/** The root-to-leaf transformation keeps what restructuring relies on, for any tree, any
    join keys and either strategy. */
module Transforming {
  import opened Bags
  import opened FReps
  import opened FTrees
  import opened Flattening
  import opened Reordering
  import opened Restructuring

  lemma OrderAllAppend(a: seq<FNode>, b: seq<FNode>)
    ensures OrderAll(a + b) == OrderAll(a) + OrderAll(b)
  {
    if a == [] {
      assert a + b == b;
    } else {
      assert (a + b)[1..] == a[1..] + b;
      OrderAllAppend(a[1..], b);
    }
  }

  lemma PartitionStep(ns: seq<FNode>, keys: seq<Attr>)
    requires ns != []
    ensures OrderAll(Chosen(ns, keys)) == (if Required(ns[0], keys) then Order(ns[0]) else []) + OrderAll(Chosen(ns[1..], keys))
    ensures OrderAll(Kept(ns, keys)) == (if Required(ns[0], keys) then [] else Order(ns[0])) + OrderAll(Kept(ns[1..], keys))
    ensures AttrBagAll(Chosen(ns, keys)) == (if Required(ns[0], keys) then AttrBag(ns[0]) else multiset{}) + AttrBagAll(Chosen(ns[1..], keys))
    ensures AttrBagAll(Kept(ns, keys)) == (if Required(ns[0], keys) then multiset{} else AttrBag(ns[0])) + AttrBagAll(Kept(ns[1..], keys))
  {
    if Required(ns[0], keys) {
      assert Chosen(ns, keys)[1..] == Chosen(ns[1..], keys);
      assert Kept(ns, keys) == Kept(ns[1..], keys);
    } else {
      assert Kept(ns, keys)[1..] == Kept(ns[1..], keys);
      assert Chosen(ns, keys) == Chosen(ns[1..], keys);
    }
  }

  lemma {:induction false} PartitionOrder(ns: seq<FNode>, keys: seq<Attr>)
    ensures Perm(OrderAll(ns), OrderAll(Kept(ns, keys)) + OrderAll(Chosen(ns, keys)))
  {
    if ns != [] {
      PartitionOrder(ns[1..], keys);
      PartitionStep(ns, keys);
    }
  }

  lemma {:induction false} PartitionBag(ns: seq<FNode>, keys: seq<Attr>)
    ensures AttrBagAll(ns) == AttrBagAll(Kept(ns, keys)) + AttrBagAll(Chosen(ns, keys))
  {
    if ns != [] {
      PartitionBag(ns[1..], keys);
      PartitionStep(ns, keys);
    }
  }

  lemma {:induction false} PartitionPlaced(ns: seq<FNode>, keys: seq<Attr>, bound: set<Path>)
    requires WellPlacedAll(ns, bound)
    ensures WellPlacedAll(Chosen(ns, keys), bound) && WellPlacedAll(Kept(ns, keys), bound)
  {
    if ns != [] {
      PartitionPlaced(ns[1..], keys, bound);
      WellPlacedAppend([ns[0]], Chosen(ns[1..], keys), bound);
      WellPlacedAppend([ns[0]], Kept(ns[1..], keys), bound);
    }
  }

  lemma {:induction false} PartitionSourced(t: FNode, ns: seq<FNode>, keys: seq<Attr>)
    requires SourcedAll(t, ns)
    ensures SourcedAll(t, Chosen(ns, keys)) && SourcedAll(t, Kept(ns, keys))
  {
    if ns != [] {
      PartitionSourced(t, ns[1..], keys);
      SourcedAppend(t, [ns[0]], Chosen(ns[1..], keys));
      SourcedAppend(t, [ns[0]], Kept(ns[1..], keys));
    }
  }

  lemma {:induction false} MergedOrder(ns: seq<FNode>)
    ensures Perm(Order(Merged(ns)), OrderAll(ns))
  {
    if ns != [] {
      MergedOrder(ns[1..]);
      OrderAllAppend(ns[0].children, ChildrenOf(ns[1..]));
    }
  }

  lemma MultisetUnion(a: set<Attr>, b: set<Attr>)
    requires a !! b
    ensures multiset(a + b) == multiset(a) + multiset(b)
  {}

  lemma {:induction false} AttrsOfInBag(ns: seq<FNode>)
    ensures forall a :: a in AttrsOf(ns) ==> AttrBagAll(ns)[a] >= 1
  {
    if ns != [] { AttrsOfInBag(ns[1..]); }
  }

  lemma AtMostOnceParts(a: multiset<Attr>, b: multiset<Attr>)
    requires AtMostOnce(a + b)
    ensures AtMostOnce(a) && AtMostOnce(b) && forall x :: a[x] == 0 || b[x] == 0
  {
    forall x ensures a[x] + b[x] <= 1 { assert (a + b)[x] <= 1; }
  }

  lemma {:induction false} MergedBag(ns: seq<FNode>)
    requires AtMostOnce(AttrBagAll(ns))
    ensures AttrBag(Merged(ns)) == AttrBagAll(ns)
  {
    if ns != [] {
      AtMostOnceParts(AttrBag(ns[0]), AttrBagAll(ns[1..]));
      MergedBag(ns[1..]);
      AttrBagAppend(ns[0].children, ChildrenOf(ns[1..]));
      AttrsOfInBag(ns[1..]);
      forall a | a in ns[0].attrs ensures a !in AttrsOf(ns[1..]) {
        assert AttrBag(ns[0])[a] >= 1;
      }
      MultisetUnion(ns[0].attrs, AttrsOf(ns[1..]));
    }
  }

  lemma {:induction false} MergedPlaced(ns: seq<FNode>, bound: set<Path>)
    requires WellPlacedAll(ns, bound)
    ensures WellPlaced(Merged(ns), bound)
  {
    if ns != [] {
      MergedPlaced(ns[1..], bound);
      var s, rest := ns[0].sources, SourcesOf(ns[1..]);
      TopologicalMonotone(rest, bound, bound + SetOf(s));
      TopologicalAppend(s, rest, bound);
      var all := bound + SetOf(s + rest);
      WellPlacedAllMonotone(ns[0].children, bound + SetOf(s), all);
      WellPlacedAllMonotone(ChildrenOf(ns[1..]), bound + SetOf(rest), all);
      WellPlacedAppend(ns[0].children, ChildrenOf(ns[1..]), all);
    }
  }

  lemma {:induction false} MergedSourced(t: FNode, ns: seq<FNode>)
    requires SourcedAll(t, ns)
    ensures Sourced(t, Merged(ns))
  {
    if ns != [] {
      MergedSourced(t, ns[1..]);
      AttrsAtAppend(t, ns[0].sources, SourcesOf(ns[1..]));
      SourcedAppend(t, ns[0].children, ChildrenOf(ns[1..]));
    }
  }

  /** What a step of the transformation below `bound` keeps. */
  ghost predicate Preserved(t: FNode, n: FNode, m: FNode, bound: set<Path>) {
    Perm(Order(m), Order(n)) && WellPlaced(m, bound) && Sourced(t, m) && AttrBag(m) == AttrBag(n)
  }

  lemma {:induction false} LevelwiseMergeKeeps(t: FNode, n: FNode, keys: seq<Attr>, bound: set<Path>)
    requires WellPlaced(n, bound) && Sourced(t, n) && AtMostOnce(AttrBag(n))
    ensures Preserved(t, n, MergeLevelwise(n, keys), bound)
    decreases NodeCount(n)
  {
    var chosen, kept := Chosen(n.children, keys), Kept(n.children, keys);
    if chosen != [] {
      var below := bound + SetOf(n.sources);
      MergeShrinks(n, keys);
      PartitionPlaced(n.children, keys, below);
      PartitionSourced(t, n.children, keys);
      PartitionBag(n.children, keys);
      AtMostOnceParts(multiset(n.attrs), AttrBagAll(n.children));
      AtMostOnceParts(AttrBagAll(kept), AttrBagAll(chosen));
      MergedPlaced(chosen, below);
      MergedSourced(t, chosen);
      MergedBag(chosen);
      LevelwiseMergeKeeps(t, Merged(chosen), keys, below);
      var m := MergeLevelwise(Merged(chosen), keys);
      AttachKept(t, n, kept, m, below);
      PartitionOrder(n.children, keys);
      MergedOrder(chosen);
      OrderAllAppend(kept, [m]);
      assert OrderAll([m]) == Order(m);
    }
  }

  lemma {:induction false} AttachKept(t: FNode, n: FNode, kept: seq<FNode>, m: FNode, below: set<Path>)
    requires WellPlacedAll(kept, below) && SourcedAll(t, kept) && WellPlaced(m, below) && Sourced(t, m)
    ensures WellPlacedAll(kept + [m], below) && SourcedAll(t, kept + [m])
    ensures AttrBagAll(kept + [m]) == AttrBagAll(kept) + AttrBag(m)
  {
    WellPlacedAppend(kept, [m], below);
    SourcedAppend(t, kept, [m]);
    AttrBagAppend(kept, [m]);
    assert AttrBagAll([m]) == AttrBag(m);
  }

  //
  // The naive strategy
  //

  lemma {:induction false} AbsorbedOrder(ns: seq<FNode>, keys: seq<Attr>)
    ensures Perm(AbsorbedSources(ns, keys) + OrderAll(Residue(ns, keys)), OrderAll(ns))
    decreases ns
  {
    if ns != [] {
      AbsorbedOrder(ns[1..], keys);
      if Required(ns[0], keys) {
        AbsorbedOrder(ns[0].children, keys);
        OrderAllAppend(Residue(ns[0].children, keys), Residue(ns[1..], keys));
      } else {
        OrderAllAppend([ns[0]], Residue(ns[1..], keys));
        assert OrderAll([ns[0]]) == Order(ns[0]);
        assert [] + AbsorbedSources(ns[1..], keys) == AbsorbedSources(ns[1..], keys);
      }
    }
  }

  lemma {:induction false} AbsorbedPlaced(ns: seq<FNode>, keys: seq<Attr>, bound: set<Path>)
    requires WellPlacedAll(ns, bound)
    ensures Topological(AbsorbedSources(ns, keys), bound)
    ensures WellPlacedAll(Residue(ns, keys), bound + SetOf(AbsorbedSources(ns, keys)))
    decreases ns
  {
    if ns != [] {
      var rest := AbsorbedSources(ns[1..], keys);
      AbsorbedPlaced(ns[1..], keys, bound);
      if Required(ns[0], keys) {
        var s, under := ns[0].sources, AbsorbedSources(ns[0].children, keys);
        AbsorbedPlaced(ns[0].children, keys, bound + SetOf(s));
        TopologicalAppend(s, under, bound);
        TopologicalMonotone(rest, bound, bound + SetOf(s + under));
        TopologicalAppend(s + under, rest, bound);
        var all := bound + SetOf(s + under + rest);
        WellPlacedAllMonotone(Residue(ns[0].children, keys), bound + SetOf(s) + SetOf(under), all);
        WellPlacedAllMonotone(Residue(ns[1..], keys), bound + SetOf(rest), all);
        WellPlacedAppend(Residue(ns[0].children, keys), Residue(ns[1..], keys), all);
      } else {
        assert [] + rest == rest;
        WellPlacedMonotone(ns[0], bound, bound + SetOf(rest));
        WellPlacedAppend([ns[0]], Residue(ns[1..], keys), bound + SetOf(rest));
      }
    }
  }

  lemma {:induction false} AbsorbedSourced(t: FNode, ns: seq<FNode>, keys: seq<Attr>)
    requires SourcedAll(t, ns)
    ensures AbsorbedAttrs(ns, keys) == AttrsAtAll(t, AbsorbedSources(ns, keys))
    ensures SourcedAll(t, Residue(ns, keys))
    decreases ns
  {
    if ns != [] {
      AbsorbedSourced(t, ns[1..], keys);
      if Required(ns[0], keys) {
        AbsorbedSourced(t, ns[0].children, keys);
        AttrsAtAppend(t, ns[0].sources, AbsorbedSources(ns[0].children, keys));
        AttrsAtAppend(t, ns[0].sources + AbsorbedSources(ns[0].children, keys), AbsorbedSources(ns[1..], keys));
        SourcedAppend(t, Residue(ns[0].children, keys), Residue(ns[1..], keys));
      } else {
        assert [] + AbsorbedSources(ns[1..], keys) == AbsorbedSources(ns[1..], keys);
        SourcedAppend(t, [ns[0]], Residue(ns[1..], keys));
      }
    }
  }

  lemma {:induction false} AbsorbedInBag(ns: seq<FNode>, keys: seq<Attr>)
    ensures forall a :: a in AbsorbedAttrs(ns, keys) ==> AttrBagAll(ns)[a] >= 1
    decreases ns
  {
    if ns != [] {
      AbsorbedInBag(ns[1..], keys);
      if Required(ns[0], keys) { AbsorbedInBag(ns[0].children, keys); }
    }
  }

  /** A node's own attributes and those absorbed below it are different. */
  lemma AbsorbedApart(n: FNode, keys: seq<Attr>)
    requires AtMostOnce(AttrBag(n))
    ensures AtMostOnce(AttrBagAll(n.children)) && n.attrs !! AbsorbedAttrs(n.children, keys)
    ensures forall a :: a in n.attrs + AbsorbedAttrs(n.children, keys) ==> AttrBag(n)[a] >= 1
  {
    AtMostOnceParts(multiset(n.attrs), AttrBagAll(n.children));
    AbsorbedInBag(n.children, keys);
    forall a | a in n.attrs ensures a !in AbsorbedAttrs(n.children, keys) { assert multiset(n.attrs)[a] == 1; }
  }

  lemma Regroup(a: multiset<Attr>, b: multiset<Attr>, c: multiset<Attr>, x: multiset<Attr>, y: multiset<Attr>)
    ensures a + b + c + (x + y) == (a + (b + x)) + (c + y)
  {}

  /** The absorbed attributes and what stays behind hold the same attributes as `ns`. */
  ghost predicate AbsorbsBag(ns: seq<FNode>, keys: seq<Attr>) {
    multiset(AbsorbedAttrs(ns, keys)) + AttrBagAll(Residue(ns, keys)) == AttrBagAll(ns)
  }

  lemma {:induction false} AbsorbedBag(ns: seq<FNode>, keys: seq<Attr>)
    requires AtMostOnce(AttrBagAll(ns))
    ensures AbsorbsBag(ns, keys)
    decreases ns
  {
    if ns != [] {
      AtMostOnceParts(AttrBag(ns[0]), AttrBagAll(ns[1..]));
      AbsorbedBag(ns[1..], keys);
      if Required(ns[0], keys) {
        AbsorbedApart(ns[0], keys);
        AbsorbedBag(ns[0].children, keys);
        AbsorbedBagStep(ns, keys);
      } else {
        AbsorbedBagSkip(ns, keys);
      }
    }
  }

  lemma {:induction false} AbsorbedBagSkip(ns: seq<FNode>, keys: seq<Attr>)
    requires ns != [] && !Required(ns[0], keys) && AbsorbsBag(ns[1..], keys)
    ensures AbsorbsBag(ns, keys)
  {
    AttrBagAppend([ns[0]], Residue(ns[1..], keys));
    assert AttrBagAll([ns[0]]) == AttrBag(ns[0]);
    assert {} + AbsorbedAttrs(ns[1..], keys) == AbsorbedAttrs(ns[1..], keys);
  }

  lemma {:induction false} AbsorbedBagStep(ns: seq<FNode>, keys: seq<Attr>)
    requires ns != [] && Required(ns[0], keys)
    requires AtMostOnce(AttrBag(ns[0])) && forall a :: AttrBag(ns[0])[a] == 0 || AttrBagAll(ns[1..])[a] == 0
    requires AbsorbsBag(ns[0].children, keys) && AbsorbsBag(ns[1..], keys)
    ensures AbsorbsBag(ns, keys)
  {
    var own, under, rest := ns[0].attrs, AbsorbedAttrs(ns[0].children, keys), AbsorbedAttrs(ns[1..], keys);
    assert multiset(own + under + rest) == multiset(own) + multiset(under) + multiset(rest) by {
      AbsorbedApart(ns[0], keys);
      AbsorbedInBag(ns[1..], keys);
      MultisetUnion(own, under);
      MultisetUnion(own + under, rest);
    }
    var x, y := Residue(ns[0].children, keys), Residue(ns[1..], keys);
    AttrBagAppend(x, y);
    Regroup(multiset(own), multiset(under), multiset(rest), AttrBagAll(x), AttrBagAll(y));
  }

  lemma {:induction false} NaiveMergeKeeps(t: FNode, n: FNode, keys: seq<Attr>, bound: set<Path>)
    requires WellPlaced(n, bound) && Sourced(t, n) && AtMostOnce(AttrBag(n))
    ensures Preserved(t, n, MergeNaive(n, keys), bound)
  {
    hide Required, AbsorbedAttrs, AbsorbedSources, Residue, AttrsAt;
    var s, under := n.sources, AbsorbedSources(n.children, keys);
    assert WellPlaced(MergeNaive(n, keys), bound) by {
      AbsorbedPlaced(n.children, keys, bound + SetOf(s));
      TopologicalAppend(s, under, bound);
      assert bound + SetOf(s) + SetOf(under) == bound + SetOf(s + under);
    }
    assert Sourced(t, MergeNaive(n, keys)) by {
      AbsorbedSourced(t, n.children, keys);
      AttrsAtAppend(t, s, under);
    }
    assert Perm(Order(MergeNaive(n, keys)), Order(n)) by {
      AbsorbedOrder(n.children, keys);
    }
    NaiveMergeBag(n, keys);
  }

  lemma NaiveMergeBag(n: FNode, keys: seq<Attr>)
    requires AtMostOnce(AttrBag(n))
    ensures AttrBag(MergeNaive(n, keys)) == AttrBag(n)
  {
    hide Required, AbsorbedAttrs, AbsorbedSources, Residue;
    AbsorbedApart(n, keys);
    AbsorbedBag(n.children, keys);
    MultisetUnion(n.attrs, AbsorbedAttrs(n.children, keys));
  }

  //
  // Walking down to the lowest common ancestor
  //

  lemma {:induction false} ReplaceChild(t: FNode, ns: seq<FNode>, i: nat, m: FNode, bound: set<Path>)
    requires i < |ns| && WellPlacedAll(ns, bound) && SourcedAll(t, ns)
    requires Preserved(t, ns[i], m, bound)
    ensures Perm(OrderAll(ns[i := m]), OrderAll(ns)) && AttrBagAll(ns[i := m]) == AttrBagAll(ns)
    ensures WellPlacedAll(ns[i := m], bound) && SourcedAll(t, ns[i := m])
  {
    var pre, post := ns[..i], ns[i + 1..];
    assert ns == pre + ([ns[i]] + post) && ns[i := m] == pre + ([m] + post);
    OrderAllAppend(pre, [ns[i]] + post);
    OrderAllAppend(pre, [m] + post);
    AttrBagAppend(pre, [ns[i]] + post);
    AttrBagAppend(pre, [m] + post);
    WellPlacedAppend(pre, [ns[i]] + post, bound);
    WellPlacedAppend(pre, [m] + post, bound);
    SourcedAppend(t, pre, [ns[i]] + post);
    SourcedAppend(t, pre, [m] + post);
    assert ([ns[i]] + post)[1..] == post && ([m] + post)[1..] == post;
  }

  lemma {:induction false} PlacedChild(t: FNode, ns: seq<FNode>, i: nat, bound: set<Path>)
    requires i < |ns| && WellPlacedAll(ns, bound) && SourcedAll(t, ns)
    ensures WellPlaced(ns[i], bound) && Sourced(t, ns[i])
    decreases i
  {
    if i > 0 { PlacedChild(t, ns[1..], i - 1, bound); }
  }

  lemma {:induction false} LevelwiseKeeps(t: FNode, n: FNode, keys: seq<Attr>, bound: set<Path>)
    requires WellPlaced(n, bound) && Sourced(t, n) && AtMostOnce(AttrBag(n))
    ensures Preserved(t, n, Levelwise(n, keys).0, bound)
    decreases n
  {
    if |Chosen(n.children, keys)| == 1 {
      var i := FirstRequired(n.children, keys);
      var below := bound + SetOf(n.sources);
      PlacedChild(t, n.children, i, below);
      AtMostOnceParts(multiset(n.attrs), AttrBagAll(n.children));
      BagOfChild(n.children, i);
      forall a ensures AttrBag(n.children[i])[a] <= 1 { assert AttrBagAll(n.children)[a] <= 1; }
      LevelwiseKeeps(t, n.children[i], keys, below);
      ReplaceChild(t, n.children, i, Levelwise(n.children[i], keys).0, below);
    } else {
      LevelwiseMergeKeeps(t, n, keys, bound);
    }
  }

  lemma PathKeeps(t: FNode, n: FNode, keys: seq<Attr>, strategy: PathStrategy)
    requires WellPlaced(n, {}) && Sourced(t, n) && AtMostOnce(AttrBag(n))
    ensures Preserved(t, n, CreateRootToLeafPath(n, keys, strategy).0, {})
  {
    if Required(n, keys) {
      if strategy == NAIVE { NaiveMergeKeeps(t, n, keys, {}); } else { LevelwiseKeeps(t, n, keys, {}); }
    }
  }

  //
  // Restructuring
  //

  lemma {:induction false} StampBag(t: FNode, p: Path)
    ensures AttrBag(Stamp(t, p)) == AttrBag(t)
    decreases t
  {
    StampAllBag(t.children, p, 0);
  }

  lemma {:induction false} StampAllBag(ns: seq<FNode>, p: Path, i: nat)
    ensures AttrBagAll(StampAll(ns, p, i)) == AttrBagAll(ns)
    decreases ns
  {
    if ns != [] {
      StampBag(ns[0], p + [i]);
      StampAllBag(ns[1..], p, i + 1);
      assert StampAll(ns, p, i)[1..] == StampAll(ns[1..], p, i + 1);
    }
  }

  lemma IterTyped(roots: seq<Rec>, ctx: Ctx, t: FNode, srcs: seq<Path>, c: Ctx)
    requires ConformsAll(roots, t) && Typed(ctx, t) && c in Iter(roots, ctx, srcs)
    ensures Typed(c, t)
    decreases |srcs|
  {
    if srcs != [] {
      var v, rest := srcs[0], srcs[1..];
      assert srcs == [v] + rest;
      IterUnfold(roots, ctx, v, rest);
      FlatMapMember(Cands(roots, ctx, v), IterStep(roots, ctx, v, rest), c);
      var r :| r in Cands(roots, ctx, v) && c in IterStep(roots, ctx, v, rest)(r);
      CandsTyped(roots, ctx, t, v);
      IterTyped(roots, ctx[v := r], t, rest, c);
    }
  }

  lemma ValsKeys(t: FNode, c: Ctx, srcs: seq<Path>)
    requires Typed(c, t) && SetOf(srcs) <= c.Keys
    ensures ValsOf(c, srcs).Keys == AttrsAtAll(t, srcs)
  {
    if srcs != [] {
      assert srcs[0] in SetOf(srcs) && forall x :: x in srcs[1..] ==> x in srcs;
      ValsKeys(t, c, srcs[1..]);
    }
  }

  /** Materialized records have the shape of the tree they were materialized under. */
  lemma {:induction false} MatConforms(roots: seq<Rec>, ctx: Ctx, t: FNode, n: FNode)
    requires ConformsAll(roots, t) && Typed(ctx, t) && Sourced(t, n)
    ensures ConformsAll(MatAll(roots, ctx, n), n)
    decreases n, 1
  {
    var body := c => [MatNode(roots, c, n)];
    forall r | r in MatAll(roots, ctx, n) ensures Conforms(r, n) {
      FlatMapMember(Iter(roots, ctx, n.sources), body, r);
      var c :| c in Iter(roots, ctx, n.sources) && r in body(c);
      IterTyped(roots, ctx, t, n.sources, c);
      IterBinds(roots, ctx, n.sources, c);
      MatNodeConforms(roots, c, t, n);
    }
  }

  lemma {:induction false} MatNodeConforms(roots: seq<Rec>, c: Ctx, t: FNode, n: FNode)
    requires ConformsAll(roots, t) && Typed(c, t) && Sourced(t, n) && SetOf(n.sources) <= c.Keys
    ensures Conforms(MatNode(roots, c, n), n)
    decreases n, 0
  {
    ValsKeys(t, c, n.sources);
    MatChildrenConform(roots, c, t, n.children);
  }

  ghost predicate SlotsConform(slots: seq<Slot>, ns: seq<FNode>) {
    |slots| == |ns| && forall i :: 0 <= i < |ns| ==> ConformsAll(slots[i].recs, ns[i])
  }

  lemma {:induction false} MatChildrenConform(roots: seq<Rec>, c: Ctx, t: FNode, ns: seq<FNode>)
    requires ConformsAll(roots, t) && Typed(c, t) && SourcedAll(t, ns)
    ensures SlotsConform(MatChildren(roots, c, ns), ns)
    decreases ns
  {
    if ns != [] {
      MatConforms(roots, c, t, ns[0]);
      MatChildrenConform(roots, c, t, ns[1..]);
    }
  }

  lemma NoDupPerm(a: seq<Path>, b: seq<Path>)
    requires Perm(a, b) && NoDup(a)
    ensures NoDup(b)
    decreases |a|
  {
    if exists i, j :: 0 <= i < j < |b| && b[i] == b[j] {
      var i, j :| 0 <= i < j < |b| && b[i] == b[j];
      var x := b[i];
      assert b == b[..j] + [b[j]] + b[j + 1..];
      assert b[..j][i] == x;
      assert multiset(b[..j])[x] >= 1 && multiset(b)[x] >= 2;
      CountOnce(a, x);
    }
  }

  lemma CountOnce(a: seq<Path>, x: Path)
    requires NoDup(a)
    ensures multiset(a)[x] <= 1
  {
    if a != [] {
      assert a == [a[0]] + a[1..];
      CountOnce(a[1..], x);
      if a[0] == x { assert x !in a[1..]; }
    }
  }

  /** An f-representation under a tree of its shape. */
  datatype FRelation = FRelation(tree: FNode, roots: seq<Rec>)

  ghost predicate ValidRelation(r: FRelation) {
    ConformsAll(r.roots, r.tree) && AtMostOnce(AttrBag(r.tree))
  }

  /** The tree a relation is restructured to, stamped with where its nodes come from. */
  function PathTree(t: FNode, keys: seq<Attr>, strategy: PathStrategy): FNode {
    CreateRootToLeafPath(Stamp(t, []), keys, strategy).0
  }

  function InsertionPath(t: FNode, keys: seq<Attr>, strategy: PathStrategy): Path {
    CreateRootToLeafPath(Stamp(t, []), keys, strategy).1
  }

  /** The transformed tree is fit for materializing: what it draws on is placed, labelled
      and complete. */
  lemma PathTreeValid(t: FNode, keys: seq<Attr>, strategy: PathStrategy)
    requires AtMostOnce(AttrBag(t))
    ensures var m := PathTree(t, keys, strategy);
            && Preserved(t, Stamp(t, []), m, {}) && AttrBag(m) == AttrBag(t)
            && Separated(m) && Schedule(Order(m), {}) && Schedule(Order(Stamp(t, [])), {})
  {
    var s := Stamp(t, []);
    StampPlaced(t, [], {});
    StampSourced(t, t, []);
    StampBag(t, []);
    StampNoDup(t, []);
    WellPlacedTopological(s, {});
    PathKeeps(t, s, keys, strategy);
    var m := PathTree(t, keys, strategy);
    NoDupPerm(Order(s), Order(m));
    WellPlacedTopological(m, {});
    PlacedIsSeparated(m, {});
  }

  /** Restructuring for any join keys, under either strategy, keeps the bag of tuples. */
  lemma Restructure(r: FRelation, keys: seq<Attr>, strategy: PathStrategy)
    requires ValidRelation(r)
    ensures var m := PathTree(r.tree, keys, strategy);
            && Perm(FlatAll(MatAll(r.roots, map[], m)), FlatAll(r.roots))
            && ValidRelation(FRelation(m, MatAll(r.roots, map[], m)))
  {
    var s, m := Stamp(r.tree, []), PathTree(r.tree, keys, strategy);
    PathTreeValid(r.tree, keys, strategy);
    MatMeaning(r.roots, map[], m);
    BagGivesDisjoint(r.tree);
    var none: Ctx := map[];
    assert none.Keys == {};
    Reorder(r.roots, none, r.tree, Order(m), Order(s));
    assert Cands(r.roots, none, []) == r.roots;
    StampMeaning(r.roots, none, r.tree, []);
    MatConforms(r.roots, none, r.tree, m);
  }
}
