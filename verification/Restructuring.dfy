/** Restructuring an f-representation keeps its bag of tuples.

    Every input node is stamped with its own path. The root-to-leaf transformation moves
    and merges nodes together with their stamps; `WellPlaced` is what it keeps: at every
    node, the parents of the input nodes drawn on are fixed at that node or above it.
 */
module Restructuring {
  import opened Bags
  import opened FReps
  import opened FTrees
  import opened Flattening
  import opened Reordering

  //
  // Stamping
  //

  /** Marks every node with its own path. */
  function Stamp(t: FNode, p: Path): FNode
    decreases t
  {
    FNode(t.attrs, [p], StampAll(t.children, p, 0))
  }

  function StampAll(ns: seq<FNode>, p: Path, i: nat): (s: seq<FNode>)
    ensures |s| == |ns|
    decreases ns
  {
    if ns == [] then [] else [Stamp(ns[0], p + [i])] + StampAll(ns[1..], p, i + 1)
  }

  ghost predicate Below(v: Path, p: Path) {
    |p| <= |v| && v[..|p|] == p
  }

  lemma {:induction false} StampPaths(t: FNode, p: Path, v: Path)
    requires v in Order(Stamp(t, p))
    ensures Below(v, p)
    decreases t
  {
    if v != p { StampAllPaths(t.children, p, 0, v); }
  }

  lemma {:induction false} StampAllPaths(ns: seq<FNode>, p: Path, i: nat, v: Path)
    requires v in OrderAll(StampAll(ns, p, i))
    ensures Below(v, p) && |p| < |v| && i <= v[|p|]
    decreases ns
  {
    if v in Order(Stamp(ns[0], p + [i])) {
      StampPaths(ns[0], p + [i], v);
      assert v[..|p|] == v[..|p| + 1][..|p|];
      assert v[|p|] == v[..|p| + 1][|p|];
    } else {
      StampAllPaths(ns[1..], p, i + 1, v);
    }
  }

  /** Subtrees of different children have nothing to do with each other. */
  lemma StampIndependent(n: FNode, ns: seq<FNode>, p: Path, i: nat)
    ensures Independent(Order(Stamp(n, p + [i])), OrderAll(StampAll(ns, p, i + 1)))
    ensures forall v :: v in Order(Stamp(n, p + [i])) ==> v !in OrderAll(StampAll(ns, p, i + 1))
  {
    forall v | v in Order(Stamp(n, p + [i]))
      ensures |p| < |v| && v[|p|] == i
    {
      StampPaths(n, p + [i], v);
      assert v[|p|] == v[..|p| + 1][|p|];
    }
    forall w | w in OrderAll(StampAll(ns, p, i + 1))
      ensures |p| < |w| && i < w[|p|]
    {
      StampAllPaths(ns, p, i + 1, w);
    }
  }

  /** The loops over a stamped tree produce the bag of the f-representation itself. */
  lemma {:induction false} StampMeaning(roots: seq<Rec>, ctx: Ctx, t: FNode, p: Path)
    requires ConformsAll(Cands(roots, ctx, p), t)
    ensures Den(roots, ctx, Order(Stamp(t, p))) == FlatAll(Cands(roots, ctx, p))
    decreases t, |t.children| + 2
  {
    var cands, rest := Cands(roots, ctx, p), OrderAll(StampAll(t.children, p, 0));
    forall r | r in cands ensures DenStep(roots, ctx, p, rest)(r) == Flat(r) {
      StampRecord(roots, ctx[p := r], t, p, r);
    }
    DenUnfold(roots, ctx, p, rest);
    FlatMapSame(cands, DenStep(roots, ctx, p, rest), Flat);
    FlatAllIsLoop(cands);
  }

  lemma {:induction false} StampRecord(roots: seq<Rec>, ctx: Ctx, t: FNode, p: Path, r: Rec)
    requires p in ctx && ctx[p] == r && Conforms(r, t)
    ensures FlatSlots(r.slots) == Den(roots, ctx, OrderAll(StampAll(t.children, p, 0)))
    decreases t, |t.children| + 1
  {
    StampSlots(roots, ctx, t, p, r, 0);
    assert r.slots[0..] == r.slots && t.children[0..] == t.children;
  }

  lemma {:induction false} StampSlots(roots: seq<Rec>, ctx: Ctx, t: FNode, p: Path, r: Rec, i: nat)
    requires p in ctx && ctx[p] == r && Conforms(r, t) && i <= |t.children|
    ensures FlatSlots(r.slots[i..]) == Den(roots, ctx, OrderAll(StampAll(t.children[i..], p, i)))
    decreases t, |t.children| - i
  {
    if i < |t.children| {
      var rest := t.children[i + 1..];
      assert t.children[i..][1..] == rest && r.slots[i..][1..] == r.slots[i + 1..];
      assert Parent(p + [i]) == p && Last(p + [i]) == i;
      StampMeaning(roots, ctx, t.children[i], p + [i]);
      StampSlots(roots, ctx, t, p, r, i + 1);
      StampIndependent(t.children[i], rest, p, i);
      DenProduct(roots, ctx, Order(Stamp(t.children[i], p + [i])), OrderAll(StampAll(rest, p, i + 1)));
    }
  }

  lemma NoDupAppend<T>(a: seq<T>, b: seq<T>)
    requires NoDup(a) && NoDup(b) && forall x :: x in a ==> x !in b
    ensures NoDup(a + b)
  {
    forall i, j | 0 <= i < j < |a + b| ensures (a + b)[i] != (a + b)[j] {
      if i < |a| <= j { assert a[i] in a && b[j - |a|] in b; }
    }
  }

  lemma {:induction false} StampNoDup(t: FNode, p: Path)
    ensures NoDup(Order(Stamp(t, p)))
    decreases t
  {
    StampAllNoDup(t.children, p, 0);
    forall v | v in OrderAll(StampAll(t.children, p, 0)) ensures v != p {
      StampAllPaths(t.children, p, 0, v);
    }
    NoDupAppend([p], OrderAll(StampAll(t.children, p, 0)));
  }

  lemma {:induction false} StampAllNoDup(ns: seq<FNode>, p: Path, i: nat)
    ensures NoDup(OrderAll(StampAll(ns, p, i)))
    decreases ns
  {
    if ns != [] {
      StampNoDup(ns[0], p + [i]);
      StampAllNoDup(ns[1..], p, i + 1);
      StampIndependent(ns[0], ns[1..], p, i);
      NoDupAppend(Order(Stamp(ns[0], p + [i])), OrderAll(StampAll(ns[1..], p, i + 1)));
    }
  }

  //
  // Placement
  //

  function SetOf<T>(s: seq<T>): set<T> {
    set x | x in s
  }

  /** Whatever a node draws on hangs below something drawn on earlier or further up. */
  ghost predicate WellPlaced(n: FNode, bound: set<Path>)
    decreases n
  {
    Topological(n.sources, bound) && WellPlacedAll(n.children, bound + SetOf(n.sources))
  }

  ghost predicate WellPlacedAll(ns: seq<FNode>, bound: set<Path>)
    decreases ns
  {
    ns != [] ==> WellPlaced(ns[0], bound) && WellPlacedAll(ns[1..], bound)
  }

  lemma {:induction false} WellPlacedMonotone(n: FNode, small: set<Path>, large: set<Path>)
    requires small <= large && WellPlaced(n, small)
    ensures WellPlaced(n, large)
    decreases n
  {
    TopologicalMonotone(n.sources, small, large);
    WellPlacedAllMonotone(n.children, small + SetOf(n.sources), large + SetOf(n.sources));
  }

  lemma {:induction false} WellPlacedAllMonotone(ns: seq<FNode>, small: set<Path>, large: set<Path>)
    requires small <= large && WellPlacedAll(ns, small)
    ensures WellPlacedAll(ns, large)
    decreases ns
  {
    if ns != [] {
      WellPlacedMonotone(ns[0], small, large);
      WellPlacedAllMonotone(ns[1..], small, large);
    }
  }

  lemma WellPlacedAppend(a: seq<FNode>, b: seq<FNode>, bound: set<Path>)
    ensures WellPlacedAll(a + b, bound) <==> WellPlacedAll(a, bound) && WellPlacedAll(b, bound)
  {
    if a == [] {
      assert a + b == b;
    } else {
      assert (a + b)[1..] == a[1..] + b;
      WellPlacedAppend(a[1..], b, bound);
    }
  }

  lemma {:induction false} WellPlacedTopological(n: FNode, bound: set<Path>)
    requires WellPlaced(n, bound)
    ensures Topological(Order(n), bound)
    decreases n
  {
    WellPlacedAllTopological(n.children, bound + SetOf(n.sources));
    TopologicalAppend(n.sources, OrderAll(n.children), bound);
  }

  lemma {:induction false} WellPlacedAllTopological(ns: seq<FNode>, bound: set<Path>)
    requires WellPlacedAll(ns, bound)
    ensures Topological(OrderAll(ns), bound)
    decreases ns
  {
    if ns != [] {
      WellPlacedTopological(ns[0], bound);
      WellPlacedAllTopological(ns[1..], bound);
      TopologicalMonotone(OrderAll(ns[1..]), bound, bound + SetOf(Order(ns[0])));
      TopologicalAppend(Order(ns[0]), OrderAll(ns[1..]), bound);
    }
  }

  /** No element of the sequence occurs twice, and none is in `bound`. */
  ghost predicate Fresh(order: seq<Path>, bound: set<Path>) {
    NoDup(order) && forall v :: v in order ==> v !in bound
  }

  lemma FreshSplit(a: seq<Path>, b: seq<Path>, bound: set<Path>)
    requires Fresh(a + b, bound)
    ensures Fresh(a, bound) && Fresh(b, bound) && Fresh(b, bound + SetOf(a))
    ensures forall v :: v in a ==> v !in b
  {
    forall i, j | 0 <= i < |a| && 0 <= j < |b| ensures a[i] != b[j] {
      assert (a + b)[i] == a[i] && (a + b)[|a| + j] == b[j];
    }
    forall i, j | 0 <= i < j < |b| ensures b[i] != b[j] {
      assert (a + b)[|a| + i] == b[i] && (a + b)[|a| + j] == b[j];
    }
    forall i, j | 0 <= i < j < |a| ensures a[i] != a[j] {
      assert (a + b)[i] == a[i] && (a + b)[j] == a[j];
    }
    assert forall v :: v in a ==> v in a + b;
    assert forall v :: v in b ==> v in a + b;
  }

  lemma {:induction false} PlacedIsSeparated(n: FNode, bound: set<Path>)
    requires WellPlaced(n, bound) && Fresh(Order(n), bound)
    ensures Separated(n)
    decreases n
  {
    FreshSplit(n.sources, OrderAll(n.children), bound);
    PlacedAllIsSeparated(n.children, bound + SetOf(n.sources));
  }

  lemma {:induction false} PlacedAllIsSeparated(ns: seq<FNode>, bound: set<Path>)
    requires WellPlacedAll(ns, bound) && Fresh(OrderAll(ns), bound)
    ensures SeparatedAll(ns)
    decreases ns
  {
    if ns != [] {
      FreshSplit(Order(ns[0]), OrderAll(ns[1..]), bound);
      PlacedIsSeparated(ns[0], bound);
      PlacedAllIsSeparated(ns[1..], bound);
      WellPlacedAllTopological(ns[1..], bound);
      forall v, w | v in Order(ns[0]) && w in OrderAll(ns[1..]) && w != [] ensures Parent(w) != v {
        TopologicalParents(OrderAll(ns[1..]), bound, w);
      }
    }
  }

  lemma {:induction false} StampPlaced(t: FNode, p: Path, bound: set<Path>)
    requires p == [] || Parent(p) in bound
    ensures WellPlaced(Stamp(t, p), bound)
    decreases t
  {
    assert [p][1..] == [];
    StampAllPlaced(t.children, p, 0, bound + SetOf([p]));
  }

  lemma {:induction false} StampAllPlaced(ns: seq<FNode>, p: Path, i: nat, bound: set<Path>)
    requires p in bound
    ensures WellPlacedAll(StampAll(ns, p, i), bound)
    decreases ns
  {
    if ns != [] {
      assert Parent(p + [i]) == p;
      StampPlaced(ns[0], p + [i], bound);
      StampAllPlaced(ns[1..], p, i + 1, bound);
      assert StampAll(ns, p, i)[1..] == StampAll(ns[1..], p, i + 1);
    }
  }

  //
  // Where attributes come from
  //

  function AttrsAt(t: FNode, p: Path): set<Attr> {
    match NodeAt(t, p) case None => {} case Some(n) => n.attrs
  }

  function AttrsAtAll(t: FNode, ps: seq<Path>): set<Attr> {
    if ps == [] then {} else AttrsAt(t, ps[0]) + AttrsAtAll(t, ps[1..])
  }

  lemma AttrsAtAppend(t: FNode, a: seq<Path>, b: seq<Path>)
    ensures AttrsAtAll(t, a + b) == AttrsAtAll(t, a) + AttrsAtAll(t, b)
  {
    if a == [] {
      assert a + b == b;
    } else {
      assert (a + b)[1..] == a[1..] + b;
      AttrsAtAppend(t, a[1..], b);
    }
  }

  /** Every node holds exactly the attributes of the input nodes it draws on. */
  ghost predicate Sourced(t: FNode, n: FNode)
    decreases n
  {
    n.attrs == AttrsAtAll(t, n.sources) && SourcedAll(t, n.children)
  }

  ghost predicate SourcedAll(t: FNode, ns: seq<FNode>)
    decreases ns
  {
    ns != [] ==> Sourced(t, ns[0]) && SourcedAll(t, ns[1..])
  }

  lemma SourcedAppend(t: FNode, a: seq<FNode>, b: seq<FNode>)
    ensures SourcedAll(t, a + b) <==> SourcedAll(t, a) && SourcedAll(t, b)
  {
    if a == [] {
      assert a + b == b;
    } else {
      assert (a + b)[1..] == a[1..] + b;
      SourcedAppend(t, a[1..], b);
    }
  }

  lemma {:induction false} StampSourced(t: FNode, n: FNode, p: Path)
    requires NodeAt(t, p) == Some(n)
    ensures Sourced(t, Stamp(n, p))
    decreases n
  {
    assert [p][1..] == [];
    assert n.children[0..] == n.children;
    StampAllSourced(t, n, p, 0);
  }

  lemma {:induction false} StampAllSourced(t: FNode, n: FNode, p: Path, i: nat)
    requires NodeAt(t, p) == Some(n) && i <= |n.children|
    ensures SourcedAll(t, StampAll(n.children[i..], p, i))
    decreases n, |n.children| - i
  {
    if i < |n.children| {
      NodeAtStep(t, p + [i]);
      assert Parent(p + [i]) == p;
      StampSourced(t, n.children[i], p + [i]);
      StampAllSourced(t, n, p, i + 1);
      assert n.children[i..][1..] == n.children[i + 1..];
      assert StampAll(n.children[i..], p, i)[1..] == StampAll(n.children[i + 1..], p, i + 1);
    }
  }

  /** All attributes of a tree, with repetitions. */
  function AttrBag(n: FNode): multiset<Attr>
    decreases n
  {
    multiset(n.attrs) + AttrBagAll(n.children)
  }

  function AttrBagAll(ns: seq<FNode>): multiset<Attr>
    decreases ns
  {
    if ns == [] then multiset{} else AttrBag(ns[0]) + AttrBagAll(ns[1..])
  }

  ghost predicate AtMostOnce(m: multiset<Attr>) {
    forall x :: m[x] <= 1
  }

  lemma AttrBagAppend(a: seq<FNode>, b: seq<FNode>)
    ensures AttrBagAll(a + b) == AttrBagAll(a) + AttrBagAll(b)
  {
    if a == [] {
      assert a + b == b;
    } else {
      assert (a + b)[1..] == a[1..] + b;
      AttrBagAppend(a[1..], b);
    }
  }

  lemma {:induction false} NodeAttrsInBag(t: FNode, p: Path)
    ensures forall a :: a in AttrsAt(t, p) ==> AttrBag(t)[a] >= 1
    decreases |p|
  {
    if p != [] && p[0] < |t.children| {
      NodeAttrsInBag(t.children[p[0]], p[1..]);
      BagOfChild(t.children, p[0]);
    }
  }

  lemma {:induction false} BagOfChild(ns: seq<FNode>, i: nat)
    requires i < |ns|
    ensures forall a :: AttrBag(ns[i])[a] <= AttrBagAll(ns)[a]
  {
    if i > 0 { BagOfChild(ns[1..], i - 1); }
  }

  lemma {:induction false} BagOfTwo(ns: seq<FNode>, i: nat, j: nat)
    requires i < j < |ns|
    ensures forall a :: AttrBag(ns[i])[a] + AttrBag(ns[j])[a] <= AttrBagAll(ns)[a]
  {
    if i > 0 {
      BagOfTwo(ns[1..], i - 1, j - 1);
    } else {
      BagOfChild(ns[1..], j - 1);
    }
  }

  lemma RootDisjoint(t: FNode, q: Path)
    requires AtMostOnce(AttrBag(t)) && q != []
    ensures t.attrs !! AttrsAt(t, q)
  {
    if q[0] < |t.children| {
      NodeAttrsInBag(t.children[q[0]], q[1..]);
      BagOfChild(t.children, q[0]);
      forall a | a in t.attrs ensures a !in AttrsAt(t, q) {
        assert AttrBag(t)[a] <= 1 && multiset(t.attrs)[a] == 1;
      }
    }
  }

  lemma {:induction false} AttrsDisjointAt(t: FNode, p: Path, q: Path)
    requires AtMostOnce(AttrBag(t)) && p != q
    ensures AttrsAt(t, p) !! AttrsAt(t, q)
    decreases |p|
  {
    if p == [] {
      RootDisjoint(t, q);
    } else if q == [] {
      RootDisjoint(t, p);
    } else if p[0] < |t.children| && q[0] < |t.children| {
      if p[0] == q[0] {
        BagOfChild(t.children, p[0]);
        assert AtMostOnce(AttrBag(t.children[p[0]])) by {
          forall a ensures AttrBag(t.children[p[0]])[a] <= 1 { assert AttrBag(t)[a] <= 1; }
        }
        assert p == [p[0]] + p[1..] && q == [q[0]] + q[1..];
        AttrsDisjointAt(t.children[p[0]], p[1..], q[1..]);
      } else {
        NodeAttrsInBag(t.children[p[0]], p[1..]);
        NodeAttrsInBag(t.children[q[0]], q[1..]);
        if p[0] < q[0] { BagOfTwo(t.children, p[0], q[0]); } else { BagOfTwo(t.children, q[0], p[0]); }
        forall a | a in AttrsAt(t, p) ensures a !in AttrsAt(t, q) { assert AttrBag(t)[a] <= 1; }
      }
    }
  }

  lemma BagGivesDisjoint(t: FNode)
    requires AtMostOnce(AttrBag(t))
    ensures AttrsDisjoint(t)
  {
    forall p, q | p != q && NodeAt(t, p).Some? && NodeAt(t, q).Some?
      ensures NodeAt(t, p).value.attrs !! NodeAt(t, q).value.attrs
    {
      AttrsDisjointAt(t, p, q);
    }
  }
}
