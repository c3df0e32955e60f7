/** Which keys the counting walk reaches. When no record reached is empty, they are exactly
    the keys of the upper side's tuples; the marks an outer, semi or anti join leaves on the
    lower side rest on that. */
module Reaching {
  import opened Bags
  import opened FReps
  import opened FTrees
  import opened Flattening
  import opened Reordering
  import opened Restructuring
  import opened Transforming
  import opened FlatJoins
  import opened Joins
  import opened Instances
  import opened FactorizedJoins
  import opened CountJoins

  ghost predicate CtxPruned(c: Ctx) {
    forall p :: p in c ==> Pruned(c[p])
  }

  /** Every node drawn on exists in the input tree. */
  ghost predicate Grounded(t: FNode, order: seq<Path>) {
    forall v :: v in order ==> NodeAt(t, v).Some?
  }

  lemma {:induction false} StampGrounded(t: FNode, n: FNode, p: Path)
    requires NodeAt(t, p) == Some(n)
    ensures Grounded(t, Order(Stamp(n, p)))
    decreases n
  {
    assert n.children[0..] == n.children;
    StampAllGrounded(t, n, p, 0);
  }

  lemma {:induction false} StampAllGrounded(t: FNode, n: FNode, p: Path, i: nat)
    requires NodeAt(t, p) == Some(n) && i <= |n.children|
    ensures Grounded(t, OrderAll(StampAll(n.children[i..], p, i)))
    decreases n, |n.children| - i
  {
    if i < |n.children| {
      NodeAtStep(t, p + [i]);
      assert Parent(p + [i]) == p;
      StampGrounded(t, n.children[i], p + [i]);
      StampAllGrounded(t, n, p, i + 1);
      assert n.children[i..][1..] == n.children[i + 1..];
    }
  }

  lemma PositiveSlot(slots: seq<Slot>, i: nat)
    requires i < |slots| && SizeSlots(slots) > 0
    ensures slots[i].recs != []
  {
    if i > 0 { PositiveSlot(slots[1..], i - 1); }
  }

  /** Below a record that denotes something, every node has a record to offer. */
  lemma CandsPruned(roots: seq<Rec>, ctx: Ctx, t: FNode, v: Path)
    requires ConformsAll(roots, t) && Typed(ctx, t) && CtxPruned(ctx) && PrunedAll(roots) && roots != []
    requires NodeAt(t, v).Some? && (v == [] || Parent(v) in ctx)
    ensures Cands(roots, ctx, v) != [] && PrunedAll(Cands(roots, ctx, v))
  {
    if v != [] {
      NodeAtStep(t, v);
      var r := ctx[Parent(v)];
      PositiveSlot(r.slots, Last(v));
    }
  }

  lemma {:induction false} IterPruned(roots: seq<Rec>, ctx: Ctx, t: FNode, srcs: seq<Path>, bound: set<Path>)
    requires ConformsAll(roots, t) && Typed(ctx, t) && CtxPruned(ctx) && PrunedAll(roots) && roots != []
    requires Topological(srcs, bound) && bound <= ctx.Keys && Grounded(t, srcs)
    ensures Iter(roots, ctx, srcs) != []
    ensures forall c :: c in Iter(roots, ctx, srcs) ==> CtxPruned(c)
    decreases |srcs|
  {
    if srcs != [] {
      var v, rest := srcs[0], srcs[1..];
      assert srcs == [v] + rest && v in srcs && forall x :: x in rest ==> x in srcs;
      var cands, step := Cands(roots, ctx, v), IterStep(roots, ctx, v, rest);
      CandsPruned(roots, ctx, t, v);
      CandsTyped(roots, ctx, t, v);
      IterUnfold(roots, ctx, v, rest);
      forall r | r in cands ensures step(r) != [] && forall c :: c in step(r) ==> CtxPruned(c) {
        IterPruned(roots, ctx[v := r], t, rest, bound + {v});
      }
      assert cands[0] in cands;
      assert FlatMap(cands, step) == step(cands[0]) + FlatMap(cands[1..], step);
      forall c | c in Iter(roots, ctx, srcs) ensures CtxPruned(c) {
        FlatMapMember(cands, step, c);
      }
    }
  }

  lemma WeightPositive(c: Ctx, srcs: seq<Path>)
    requires CtxPruned(c)
    ensures WeightOf(c, srcs) > 0
  {
    if srcs != [] { WeightPositive(c, srcs[1..]); }
  }

  /** The situation of a walk over pruned input. */
  ghost predicate Live(roots: seq<Rec>, ctx: Ctx, t: FNode, n: FNode, bound: set<Path>) {
    && ConformsAll(roots, t) && Typed(ctx, t) && CtxPruned(ctx) && PrunedAll(roots) && roots != []
    && WellPlaced(n, bound) && bound <= ctx.Keys && Grounded(t, Order(n)) && Sourced(t, n) && AtMostOnce(AttrBag(n))
  }

  ghost predicate LiveAll(roots: seq<Rec>, ctx: Ctx, t: FNode, ns: seq<FNode>, bound: set<Path>) {
    && ConformsAll(roots, t) && Typed(ctx, t) && CtxPruned(ctx) && PrunedAll(roots) && roots != []
    && WellPlacedAll(ns, bound) && bound <= ctx.Keys && Grounded(t, OrderAll(ns)) && SourcedAll(t, ns)
    && AtMostOnce(AttrBagAll(ns))
  }

  lemma LiveIter(roots: seq<Rec>, ctx: Ctx, t: FNode, n: FNode, bound: set<Path>)
    requires Live(roots, ctx, t, n, bound)
    ensures Iter(roots, ctx, n.sources) != []
    ensures forall c :: c in Iter(roots, ctx, n.sources) ==>
      LiveAll(roots, c, t, n.children, bound + SetOf(n.sources)) && SetOf(n.sources) <= c.Keys
  {
    IterPruned(roots, ctx, t, n.sources, bound);
    AtMostOnceParts(multiset(n.attrs), AttrBagAll(n.children));
    forall c | c in Iter(roots, ctx, n.sources)
      ensures LiveAll(roots, c, t, n.children, bound + SetOf(n.sources)) && SetOf(n.sources) <= c.Keys
    {
      IterTyped(roots, ctx, t, n.sources, c);
      IterBinds(roots, ctx, n.sources, c);
    }
  }

  lemma LiveHead(roots: seq<Rec>, ctx: Ctx, t: FNode, ns: seq<FNode>, bound: set<Path>)
    requires LiveAll(roots, ctx, t, ns, bound) && ns != []
    ensures Live(roots, ctx, t, ns[0], bound) && LiveAll(roots, ctx, t, ns[1..], bound)
  {
    AtMostOnceParts(AttrBag(ns[0]), AttrBagAll(ns[1..]));
  }

  lemma {:induction false} LiveSome(roots: seq<Rec>, ctx: Ctx, t: FNode, n: FNode, bound: set<Path>)
    requires Live(roots, ctx, t, n, bound)
    ensures FlatAll(MatAll(roots, ctx, n)) != []
    decreases n
  {
    LiveIter(roots, ctx, t, n, bound);
    var cs, make := Iter(roots, ctx, n.sources), c => MatNode(roots, c, n);
    assert cs[0] in cs;
    LiveNode(roots, cs[0], t, n, bound);
    MatAllIsRest(roots, ctx, n);
    FlatMapSame(cs, One(make), One(c => MatNode(roots, c, n)));
    FlatAllBuilt(cs, make);
    assert FlatMap(cs, FlatOf(make)) == Flat(make(cs[0])) + FlatMap(cs[1..], FlatOf(make));
  }

  lemma {:induction false} LiveNode(roots: seq<Rec>, c: Ctx, t: FNode, n: FNode, bound: set<Path>)
    requires LiveAll(roots, c, t, n.children, bound + SetOf(n.sources))
    ensures |Flat(MatNode(roots, c, n))| > 0
    decreases n, 0
  {
    var m := MatNode(roots, c, n);
    LiveSlots(roots, c, t, n.children, bound + SetOf(n.sources));
    WeightPositive(c, n.sources);
    CrossSize(Own(m), FlatSlots(m.slots));
  }

  lemma {:induction false} LiveSlots(roots: seq<Rec>, c: Ctx, t: FNode, ns: seq<FNode>, bound: set<Path>)
    requires LiveAll(roots, c, t, ns, bound)
    ensures |FlatSlots(MatChildren(roots, c, ns))| > 0
    decreases ns
  {
    if ns != [] {
      LiveHead(roots, c, t, ns, bound);
      LiveSome(roots, c, t, ns[0], bound);
      LiveSlots(roots, c, t, ns[1..], bound);
      MatChildrenStep(roots, c, ns);
      CrossSize(FlatAll(MatAll(roots, c, ns[0])), FlatSlots(MatChildren(roots, c, ns[1..])));
    }
  }

  //
  // Off the path nothing is looked up
  //

  lemma {:induction false} NoKeysAll(roots: seq<Rec>, ctx: Ctx, n: FNode, ka: seq<Attr>, factor: seq<int> -> nat)
    ensures WalkAll(roots, ctx, n, None, ka, factor).keys == []
    decreases n, 2
  {
    NoKeysList(roots, Iter(roots, ctx, n.sources), n, ka, factor);
  }

  lemma {:induction false} NoKeysList(roots: seq<Rec>, cs: seq<Ctx>, n: FNode, ka: seq<Attr>, factor: seq<int> -> nat)
    ensures WalkList(roots, cs, n, None, ka, factor).keys == []
    decreases n, 1, |cs|
  {
    if cs != [] {
      NoKeysChildren(roots, cs[0], n.children, 0, None, ka, factor, Visit(WeightOf(cs[0], n.sources), []));
      NoKeysList(roots, cs[1..], n, ka, factor);
    }
  }

  lemma {:induction false} NoKeysChildren(roots: seq<Rec>, c: Ctx, ns: seq<FNode>, i: nat, ins: Option<Path>, ka: seq<Attr>,
                                          factor: seq<int> -> nat, acc: Visit)
    requires ins.Some? && ins.value != [] ==> ins.value[0] < i
    ensures WalkChildren(roots, c, ns, i, ins, ka, factor, acc).keys == acc.keys
    decreases ns
  {
    if ns != [] {
      NoKeysAll(roots, c, ns[0], ka, factor);
      NoKeysChildren(roots, c, ns[1..], i + 1, ins, ka, factor, Next(roots, c, ns[0], i, ins, ka, factor, acc));
    }
  }

  //
  // On the path
  //

  ghost predicate HasKey(a: seq<Tuple>, ka: seq<Attr>, k: seq<int>) {
    exists u :: u in a && KeyOf(u, ka) == k
  }

  lemma KeysStep(roots: seq<Rec>, c: Ctx, ns: seq<FNode>, i: nat, ins: Option<Path>, ka: seq<Attr>,
                 factor: seq<int> -> nat, acc: Visit)
    requires ns != []
    ensures var next := Next(roots, c, ns[0], i, ins, ka, factor, acc);
            && WalkChildren(roots, c, ns, i, ins, ka, factor, acc)
               == (if next.size == 0 then next else WalkChildren(roots, c, ns[1..], i + 1, ins, ka, factor, next))
            && next.keys == acc.keys + WalkAll(roots, c, ns[0], Towards(ins, i), ka, factor).keys
  {}

  /** A slot off the path adds no key and, holding something, does not stop the walk. */
  lemma {:induction false} SkipSlot(roots: seq<Rec>, c: Ctx, t: FNode, n: FNode, ka: seq<Attr>, factor: seq<int> -> nat,
                                    bound: set<Path>)
    requires Live(roots, c, t, n, bound)
    ensures WalkAll(roots, c, n, None, ka, factor).size > 0 && WalkAll(roots, c, n, None, ka, factor).keys == []
  {
    NoKeysAll(roots, c, n, ka, factor);
    WalkAllSize(roots, c, t, n, None, ka, factor);
    LiveSome(roots, c, t, n, bound);
  }

  lemma PathSkip(roots: seq<Rec>, c: Ctx, n: FNode, i: nat, ins: Option<Path>, ka: seq<Attr>, factor: seq<int> -> nat,
                 acc: Visit)
    requires WalkAll(roots, c, n, None, ka, factor).size > 0 && WalkAll(roots, c, n, None, ka, factor).keys == []
    requires acc.size > 0 && Towards(ins, i) == None
    ensures Next(roots, c, n, i, ins, ka, factor, acc).size > 0
    ensures Next(roots, c, n, i, ins, ka, factor, acc).keys == acc.keys
  {
    var w := WalkAll(roots, c, n, None, ka, factor);
    assert acc.size * w.size > 0;
  }

  lemma {:induction false} PathHere(roots: seq<Rec>, c: Ctx, ns: seq<FNode>, i: nat, ins: Option<Path>, ka: seq<Attr>,
                                    factor: seq<int> -> nat, acc: Visit)
    requires ns != [] && ins.Some? && ins.value != [] && ins.value[0] == i
    ensures WalkChildren(roots, c, ns, i, ins, ka, factor, acc).keys
         == acc.keys + WalkAll(roots, c, ns[0], Some(ins.value[1..]), ka, factor).keys
  {
    KeysStep(roots, c, ns, i, ins, ka, factor, acc);
    NoKeysChildren(roots, c, ns[1..], i + 1, ins, ka, factor, Next(roots, c, ns[0], i, ins, ka, factor, acc));
  }

  /** The walk reaches exactly the insertion records under the child on the path, whatever
      the factors there make of the size. */
  lemma {:induction false} PathKeys(roots: seq<Rec>, c: Ctx, t: FNode, ns: seq<FNode>, i: nat, ins: Option<Path>, ka: seq<Attr>,
                                    factor: seq<int> -> nat, acc: Visit, bound: set<Path>)
    requires LiveAll(roots, c, t, ns, bound) && acc.size > 0
    requires ins.Some? && ins.value != [] && i <= ins.value[0] < i + |ns|
    ensures WalkChildren(roots, c, ns, i, ins, ka, factor, acc).keys
         == acc.keys + WalkAll(roots, c, ns[ins.value[0] - i], Some(ins.value[1..]), ka, factor).keys
    decreases ns
  {
    hide WalkAll, LiveAll;
    if ins.value[0] == i {
      PathHere(roots, c, ns, i, ins, ka, factor, acc);
    } else {
      LiveHead(roots, c, t, ns, bound);
      SkipSlot(roots, c, t, ns[0], ka, factor, bound);
      PathSkip(roots, c, ns[0], i, ins, ka, factor, acc);
      KeysStep(roots, c, ns, i, ins, ka, factor, acc);
      PathKeys(roots, c, t, ns[1..], i + 1, ins, ka, factor, Next(roots, c, ns[0], i, ins, ka, factor, acc), bound);
    }
  }

  /** The keys of a product are those of the factor that carries them. */
  lemma KeysOfProduct(own: seq<Tuple>, left: seq<Tuple>, x: seq<Tuple>, right: seq<Tuple>, ka: seq<Attr>, k: seq<int>)
    requires own != [] && left != [] && right != [] && HasKeys(x, ka) && LacksKeys(right, ka)
    ensures HasKey(Cross(own, Cross(left, Cross(x, right))), ka, k) <==> HasKey(x, ka, k)
  {
    hide Cross;
    var all := Cross(own, Cross(left, Cross(x, right)));
    if HasKey(all, ka, k) {
      var u :| u in all && KeyOf(u, ka) == k;
      var y, z := MiddleOf(own, left, x, right, u);
      assert KeyOf(y, ka) == k;
    }
    if HasKey(x, ka, k) {
      var y :| y in x && KeyOf(y, ka) == k;
      var z := right[0];
      InProduct(x, right, y, z);
      InProduct(left, Cross(x, right), left[0], y + z);
      InProduct(own, Cross(left, Cross(x, right)), own[0], left[0] + (y + z));
      assert KeyOf(own[0] + (left[0] + (y + z)), ka) == KeyOf(y, ka);
    }
  }

  lemma InProduct(a: seq<Tuple>, b: seq<Tuple>, x: Tuple, y: Tuple)
    requires x in a && y in b
    ensures x + y in Cross(a, b)
  {
    CrossMembers(a, b, x + y);
  }

  lemma {:induction false} NonEmptyParts(slots: seq<Slot>, i: nat)
    requires i < |slots| && |FlatSlots(slots)| > 0
    ensures FlatSlots(slots[..i]) != [] && FlatSlots(slots[i + 1..]) != []
  {
    FlatSlotsAt(slots, i, slots[i]);
    assert slots[i := slots[i]] == slots;
    var left, x, right := FlatSlots(slots[..i]), FlatAll(slots[i].recs), FlatSlots(slots[i + 1..]);
    CrossSize(left, Cross(x, right));
    CrossSize(x, right);
  }

  lemma {:induction false} KeysOfNode(roots: seq<Rec>, c: Ctx, t: FNode, n: FNode, bound: set<Path>, i: nat, ka: seq<Attr>, k: seq<int>)
    requires LiveAll(roots, c, t, n.children, bound + SetOf(n.sources)) && Sourced(t, n) && SetOf(n.sources) <= c.Keys
    requires AtMostOnce(AttrBag(n)) && i < |n.children| && forall a :: a in ka ==> a in AttrSet(n.children[i])
    ensures HasKey(Flat(MatNode(roots, c, n)), ka, k) <==> HasKey(FlatAll(MatAll(roots, c, n.children[i])), ka, k)
  {
    var m, x := MatNode(roots, c, n), MatAll(roots, c, n.children[i]);
    LiveSlots(roots, c, t, n.children, bound + SetOf(n.sources));
    NonEmptyParts(m.slots, i);
    WeightPositive(c, n.sources);
    MatNodeConforms(roots, c, t, n);
    MatChildrenAt(roots, c, n.children, i);
    SiblingsApart(n.children, i);
    forall u, a | u in FlatAll(x) && a in ka ensures a in u { FlatAllKeys(x, n.children[i], u); }
    forall u, a | u in FlatSlots(m.slots[i + 1..]) && a in ka ensures a !in u {
      FlatSlotsKeys(m.slots[i + 1..], n.children[i + 1..], u);
    }
    FlatSlotsAt(m.slots, i, m.slots[i]);
    assert m.slots[i := m.slots[i]] == m.slots;
    KeysOfProduct(Own(m), FlatSlots(m.slots[..i]), FlatAll(x), FlatSlots(m.slots[i + 1..]), ka, k);
  }

  lemma {:induction false} ReachAll(roots: seq<Rec>, ctx: Ctx, t: FNode, n: FNode, ins: Path, ka: seq<Attr>,
                                    factor: seq<int> -> nat, bound: set<Path>, k: seq<int>)
    requires Live(roots, ctx, t, n, bound) && KeysAt(n, ins, ka)
    ensures k in WalkAll(roots, ctx, n, Some(ins), ka, factor).keys <==> HasKey(FlatAll(MatAll(roots, ctx, n)), ka, k)
    decreases n, 2
  {
    LiveIter(roots, ctx, t, n, bound);
    ReachList(roots, Iter(roots, ctx, n.sources), t, n, ins, ka, factor, bound, k);
    MatAllIsRest(roots, ctx, n);
  }

  lemma {:induction false} ReachList(roots: seq<Rec>, cs: seq<Ctx>, t: FNode, n: FNode, ins: Path, ka: seq<Attr>,
                                     factor: seq<int> -> nat, bound: set<Path>, k: seq<int>)
    requires Sourced(t, n) && AtMostOnce(AttrBag(n)) && KeysAt(n, ins, ka)
    requires forall c :: c in cs ==> LiveAll(roots, c, t, n.children, bound + SetOf(n.sources)) && SetOf(n.sources) <= c.Keys
    ensures k in WalkList(roots, cs, n, Some(ins), ka, factor).keys
       <==> HasKey(FlatAll(FlatMap(cs, One(c => MatNode(roots, c, n)))), ka, k)
    decreases n, 1, |cs|
  {
    if cs != [] {
      var make: Ctx -> Rec := c => MatNode(roots, c, n);
      assert cs[0] in cs && forall c :: c in cs[1..] ==> c in cs;
      ReachNode(roots, cs[0], t, n, ins, ka, factor, bound, k);
      ReachList(roots, cs[1..], t, n, ins, ka, factor, bound, k);
      FlatAllAppend([make(cs[0])], FlatMap(cs[1..], One(make)));
      assert FlatAll([make(cs[0])]) == Flat(make(cs[0]));
      HasKeyAppend(Flat(make(cs[0])), FlatAll(FlatMap(cs[1..], One(make))), ka, k);
    }
  }

  lemma HasKeyAppend(a: seq<Tuple>, b: seq<Tuple>, ka: seq<Attr>, k: seq<int>)
    ensures HasKey(a + b, ka, k) <==> HasKey(a, ka, k) || HasKey(b, ka, k)
  {
    if HasKey(a, ka, k) { var u :| u in a && KeyOf(u, ka) == k; assert u in a + b; }
    if HasKey(b, ka, k) { var u :| u in b && KeyOf(u, ka) == k; assert u in a + b; }
  }

  lemma HasKeyPerm(a: seq<Tuple>, b: seq<Tuple>, ka: seq<Attr>, k: seq<int>)
    requires Perm(a, b)
    ensures HasKey(a, ka, k) <==> HasKey(b, ka, k)
  {
    PermMembers(a, b);
  }

  lemma {:induction false} ReachNode(roots: seq<Rec>, c: Ctx, t: FNode, n: FNode, ins: Path, ka: seq<Attr>,
                                     factor: seq<int> -> nat, bound: set<Path>, k: seq<int>)
    requires LiveAll(roots, c, t, n.children, bound + SetOf(n.sources)) && SetOf(n.sources) <= c.Keys
    requires Sourced(t, n) && AtMostOnce(AttrBag(n)) && KeysAt(n, ins, ka)
    ensures k in WalkNode(roots, c, n, Some(ins), ka, factor).keys <==> HasKey(Flat(MatNode(roots, c, n)), ka, k)
    decreases n, 0
  {
    var m := MatNode(roots, c, n);
    var start := Visit(m.weight, []);
    var under := bound + SetOf(n.sources);
    WeightPositive(c, n.sources);
    LiveNode(roots, c, t, n, bound);
    if ins == [] {
      MatNodeConforms(roots, c, t, n);
      KeyOfRecord(m, n, ka);
      assert Flat(m)[0] in Flat(m);
      NoKeysChildren(roots, c, n.children, 0, Some(ins), ka, factor, start);
      WalkChildrenPlain(roots, c, t, n.children, 0, Some(ins), ka, factor, start);
      CrossSize(Own(m), FlatSlots(m.slots));
    } else {
      var i := ins[0];
      PathKeys(roots, c, t, n.children, 0, Some(ins), ka, factor, start, under);
      NodeAtInSet(n.children[i], ins[1..]);
      KeysOfNode(roots, c, t, n, bound, i, ka, k);
      LiveChild(roots, c, t, n.children, i, under);
      ReachAll(roots, c, t, n.children[i], ins[1..], ka, factor, under, k);
    }
  }

  lemma {:induction false} LiveChild(roots: seq<Rec>, c: Ctx, t: FNode, ns: seq<FNode>, i: nat, bound: set<Path>)
    requires LiveAll(roots, c, t, ns, bound) && i < |ns|
    ensures Live(roots, c, t, ns[i], bound)
    decreases ns
  {
    LiveHead(roots, c, t, ns, bound);
    if i > 0 { LiveChild(roots, c, t, ns[1..], i - 1, bound); }
  }

  //
  // The walk of a whole join
  //

  /** The transformation leaves the root's own sources in front. */
  lemma RootSources(n: FNode, keys: seq<Attr>, strategy: PathStrategy)
    ensures n.sources <= CreateRootToLeafPath(n, keys, strategy).0.sources
  {}

  function UpperWalk(upper: FRelation, uk: seq<Attr>, strategy: PathStrategy, factor: seq<int> -> nat): Visit {
    WalkAll(upper.roots, map[], PathTree(upper.tree, uk, strategy), Some(InsertionPath(upper.tree, uk, strategy)), uk, factor)
  }

  /** The walk adds up the upper side's tuples, each weighed by its key's factor. */
  lemma UpperWalkSize(upper: FRelation, uk: seq<Attr>, strategy: PathStrategy, factor: seq<int> -> nat)
    requires ValidRelation(upper) && Converges(PathTree(upper.tree, uk, strategy), uk)
    ensures UpperWalk(upper, uk, strategy, factor).size == Weighted(FlatAll(upper.roots), uk, factor)
  {
    var n, none: Ctx := PathTree(upper.tree, uk, strategy), map[];
    PathTreeValid(upper.tree, uk, strategy);
    ConvergedAtInsertion(upper.tree, uk, strategy);
    WalkAllSize(upper.roots, none, upper.tree, n, Some(InsertionPath(upper.tree, uk, strategy)), uk, factor);
    Restructure(upper, uk, strategy);
    WeightedPerm(FlatAll(MatAll(upper.roots, none, n)), FlatAll(upper.roots), uk, factor);
  }

  lemma EmptyWalk(upper: FRelation, uk: seq<Attr>, strategy: PathStrategy, factor: seq<int> -> nat)
    requires upper.roots == []
    ensures UpperWalk(upper, uk, strategy, factor) == Visit(0, [])
  {
    var s, n, none: Ctx := Stamp(upper.tree, []), PathTree(upper.tree, uk, strategy), map[];
    RootSources(s, uk, strategy);
    assert s.sources == [[]] && s.sources <= n.sources;
    assert n.sources[0] == [];
    assert Iter(upper.roots, none, n.sources) == [];
    var ins := Some(InsertionPath(upper.tree, uk, strategy));
    assert WalkAll(upper.roots, none, n, ins, uk, factor) == WalkList(upper.roots, [], n, ins, uk, factor);
  }

  /** Over pruned input the walk looks up exactly the keys of the upper side's tuples. */
  lemma UpperWalkKeys(upper: FRelation, uk: seq<Attr>, strategy: PathStrategy, factor: seq<int> -> nat, k: seq<int>)
    requires ValidRelation(upper) && Converges(PathTree(upper.tree, uk, strategy), uk) && PrunedAll(upper.roots)
    ensures k in UpperWalk(upper, uk, strategy, factor).keys <==> HasKey(FlatAll(upper.roots), uk, k)
  {
    if upper.roots == [] {
      EmptyWalk(upper, uk, strategy, factor);
    } else {
      hide Perm, HasKey, FlatAll, MatAll, Converges, Order, Stamp, WalkAll, PathTree, InsertionPath, AttrBag;
      var s, n, none: Ctx := Stamp(upper.tree, []), PathTree(upper.tree, uk, strategy), map[];
      PathTreeValid(upper.tree, uk, strategy);
      ConvergedAtInsertion(upper.tree, uk, strategy);
      Restructure(upper, uk, strategy);
      HasKeyPerm(FlatAll(MatAll(upper.roots, none, n)), FlatAll(upper.roots), uk, k);
      assert Grounded(upper.tree, Order(n)) by {
        StampGrounded(upper.tree, upper.tree, []);
        PermMembers(Order(n), Order(s));
      }
      ReachAll(upper.roots, none, upper.tree, n, InsertionPath(upper.tree, uk, strategy), uk, factor, {}, k);
    }
  }
}
