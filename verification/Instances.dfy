/** The lower side of a join: one instance per combination of records on the way down to
    the join key, each with everything else below it still factorized. */
module Instances {
  import opened Bags
  import opened FReps
  import opened FTrees
  import opened Flattening
  import opened Reordering
  import opened Restructuring
  import opened Transforming
  import opened FlatJoins
  import opened Joins

  /** The contexts met on the way from `n` down to the node at `kp`. */
  function PathIter(roots: seq<Rec>, ctx: Ctx, n: FNode, kp: Path): seq<Ctx>
    decreases n
  {
    FlatMap(Iter(roots, ctx, n.sources), PathIterBelow(roots, n, kp))
  }

  function PathIterBelow(roots: seq<Rec>, n: FNode, kp: Path): Ctx -> seq<Ctx>
    decreases n, 0
  {
    if kp == [] || kp[0] >= |n.children| then c => [c]
    else c => PathIter(roots, c, n.children[kp[0]], kp[1..])
  }

  /** One instance: fixed along the key path, materialized everywhere else. */
  function LowerNode(roots: seq<Rec>, c: Ctx, n: FNode, kp: Path): Rec
    decreases n
  {
    var m := MatNode(roots, c, n);
    if kp == [] || kp[0] >= |n.children| then m
    else m.(slots := m.slots[kp[0] := Slot([LowerNode(roots, c, n.children[kp[0]], kp[1..])])])
  }

  function LowerAt(roots: seq<Rec>, n: FNode, kp: Path): Ctx -> Rec {
    c => LowerNode(roots, c, n, kp)
  }

  //
  // Materialization reads the context only where the tree says it is bound
  //

  function MatRest(roots: seq<Rec>, ctx: Ctx, n: FNode, s: seq<Path>): seq<Rec> {
    FlatMap(Iter(roots, ctx, s), One(c => MatNode(roots, c, n)))
  }

  ghost predicate AgreeOn(a: Ctx, b: Ctx, bound: set<Path>) {
    forall p :: p in bound ==> AgreeAt(a, b, p)
  }

  /** Whatever else the contexts hold, left over from earlier iterations or not. */
  lemma {:induction false} MatFrame(roots: seq<Rec>, a: Ctx, b: Ctx, n: FNode, bound: set<Path>)
    requires WellPlaced(n, bound) && AgreeOn(a, b, bound)
    ensures MatAll(roots, a, n) == MatAll(roots, b, n)
    decreases n, 2, 0
  {
    MatRestFrame(roots, a, b, n, n.sources, [], bound);
    MatAllIsRest(roots, a, n);
    MatAllIsRest(roots, b, n);
  }

  lemma MatAllIsRest(roots: seq<Rec>, a: Ctx, n: FNode)
    ensures MatAll(roots, a, n) == MatRest(roots, a, n, n.sources)
  {
    FlatMapSame(Iter(roots, a, n.sources), c => [MatNode(roots, c, n)], One(c => MatNode(roots, c, n)));
  }

  lemma {:induction false} MatRestFrame(roots: seq<Rec>, a: Ctx, b: Ctx, n: FNode, s: seq<Path>, done: seq<Path>,
                                        bound: set<Path>)
    requires n.sources == done + s && SetOf(done) <= bound
    requires Topological(s, bound) && WellPlacedAll(n.children, bound + SetOf(s))
    requires AgreeOn(a, b, bound)
    ensures MatRest(roots, a, n, s) == MatRest(roots, b, n, s)
    decreases n, 1, |s|
  {
    if s == [] {
      assert done == n.sources;
      assert bound + SetOf(s) == bound;
      MatNodeFrame(roots, a, b, n, bound);
      FlatMapSingle(a, One(c => MatNode(roots, c, n)));
      FlatMapSingle(b, One(c => MatNode(roots, c, n)));
    } else {
      var v, rest := s[0], s[1..];
      assert s == [v] + rest && done + s == (done + [v]) + rest;
      var cands := Cands(roots, a, v);
      assert cands == Cands(roots, b, v);
      forall r | r in cands
        ensures MatRest(roots, a[v := r], n, rest) == MatRest(roots, b[v := r], n, rest)
      {
        assert bound + {v} + SetOf(rest) == bound + SetOf(s);
        MatRestFrame(roots, a[v := r], b[v := r], n, rest, done + [v], bound + {v});
      }
      FlatMapSame(cands, MatStep(roots, a, n, v, rest), MatStep(roots, b, n, v, rest));
      MatRestUnfold(roots, a, n, v, rest);
      MatRestUnfold(roots, b, n, v, rest);
    }
  }

  lemma {:induction false} MatNodeFrame(roots: seq<Rec>, a: Ctx, b: Ctx, n: FNode, bound: set<Path>)
    requires SetOf(n.sources) <= bound && WellPlacedAll(n.children, bound) && AgreeOn(a, b, bound)
    ensures MatNode(roots, a, n) == MatNode(roots, b, n)
    decreases n, 0, 0
  {
    ValsFrame(a, b, n.sources);
    MatChildrenFrame(roots, a, b, n.children, bound);
  }

  function MatStep(roots: seq<Rec>, a: Ctx, n: FNode, v: Path, rest: seq<Path>): Rec -> seq<Rec> {
    r => MatRest(roots, a[v := r], n, rest)
  }

  lemma MatRestUnfold(roots: seq<Rec>, a: Ctx, n: FNode, v: Path, rest: seq<Path>)
    ensures MatRest(roots, a, n, [v] + rest) == FlatMap(Cands(roots, a, v), MatStep(roots, a, n, v, rest))
  {
    var make: Ctx -> Rec := c => MatNode(roots, c, n);
    IterUnfold(roots, a, v, rest);
    FlatMapNest(Cands(roots, a, v), IterStep(roots, a, v, rest), One(make));
    FlatMapSame(Cands(roots, a, v), Then(IterStep(roots, a, v, rest), One(make)), MatStep(roots, a, n, v, rest));
  }

  lemma ValsFrame(a: Ctx, b: Ctx, srcs: seq<Path>)
    requires AgreeOn(a, b, SetOf(srcs))
    ensures ValsOf(a, srcs) == ValsOf(b, srcs) && WeightOf(a, srcs) == WeightOf(b, srcs)
  {
    if srcs != [] {
      assert srcs[0] in srcs && forall v :: v in srcs[1..] ==> v in srcs;
      assert AgreeAt(a, b, srcs[0]);
      ValsFrame(a, b, srcs[1..]);
    }
  }

  lemma {:induction false} MatChildrenFrame(roots: seq<Rec>, a: Ctx, b: Ctx, ns: seq<FNode>, bound: set<Path>)
    requires WellPlacedAll(ns, bound) && AgreeOn(a, b, bound)
    ensures MatChildren(roots, a, ns) == MatChildren(roots, b, ns)
    decreases ns
  {
    if ns != [] {
      MatFrame(roots, a, b, ns[0], bound);
      MatChildrenFrame(roots, a, b, ns[1..], bound);
    }
  }

  //
  // The instances together denote the lower relation
  //

  lemma {:induction false} PathIterBinds(roots: seq<Rec>, c: Ctx, n: FNode, kp: Path, d: Ctx)
    requires d in PathIter(roots, c, n, kp)
    ensures forall p :: p !in Order(n) ==> AgreeAt(c, d, p)
    decreases n
  {
    FlatMapMember(Iter(roots, c, n.sources), PathIterBelow(roots, n, kp), d);
    var e :| e in Iter(roots, c, n.sources) && d in PathIterBelow(roots, n, kp)(e);
    IterBinds(roots, c, n.sources, e);
    if !(kp == [] || kp[0] >= |n.children|) {
      PathIterBinds(roots, e, n.children[kp[0]], kp[1..], d);
      OrderOfChild(n.children, kp[0]);
    }
    forall p | p !in Order(n) ensures AgreeAt(c, d, p) {
      assert p !in n.sources && p !in OrderAll(n.children);
      assert AgreeAt(c, e, p) && AgreeAt(e, d, p);
    }
  }

  lemma {:induction false} OrderOfChild(ns: seq<FNode>, i: nat)
    requires i < |ns|
    ensures forall p :: p in Order(ns[i]) ==> p in OrderAll(ns)
  {
    if i > 0 { OrderOfChild(ns[1..], i - 1); }
  }

  lemma {:induction false} PlacedAt(ns: seq<FNode>, i: nat, bound: set<Path>)
    requires i < |ns| && WellPlacedAll(ns, bound) && Fresh(OrderAll(ns), bound)
    ensures WellPlaced(ns[i], bound) && Fresh(Order(ns[i]), bound)
  {
    FreshSplit(Order(ns[0]), OrderAll(ns[1..]), bound);
    if i > 0 { PlacedAt(ns[1..], i - 1, bound); }
  }

  /** A tree whose nodes can all be bound, none of them twice. */
  ghost predicate Bindable(n: FNode, bound: set<Path>) {
    WellPlaced(n, bound) && Fresh(Order(n), bound)
  }

  lemma BindableChild(n: FNode, i: nat, bound: set<Path>)
    requires Bindable(n, bound) && i < |n.children|
    ensures Bindable(n.children[i], bound + SetOf(n.sources))
  {
    FreshSplit(n.sources, OrderAll(n.children), bound);
    PlacedAt(n.children, i, bound + SetOf(n.sources));
  }

  /** Fixing records below one child changes nothing else about the record. */
  lemma {:induction false} LowerSplit(roots: seq<Rec>, c: Ctx, n: FNode, i: nat, below: Path, d: Ctx, bound: set<Path>)
    requires Bindable(n, bound) && i < |n.children|
    requires forall p :: p !in Order(n.children[i]) ==> AgreeAt(c, d, p)
    ensures LowerNode(roots, d, n, [i] + below)
         == MatNode(roots, c, n).(slots := MatNode(roots, c, n).slots[i := Slot([LowerNode(roots, d, n.children[i], below)])])
  {
    var mc, md := MatNode(roots, c, n), MatNode(roots, d, n);
    var under := bound + SetOf(n.sources);
    BindableChild(n, i, bound);
    assert AgreeOn(c, d, under);
    ValsFrame(c, d, n.sources);
    MatChildrenFrame(roots, c, d, n.children, under);
    assert ([i] + below)[1..] == below;
  }

  /** A loop around the middle factor of a product. */
  lemma LoopInside<T>(s: seq<T>, own: seq<Tuple>, left: seq<Tuple>, f: T -> seq<Tuple>, right: seq<Tuple>)
    ensures Perm(FlatMap(s, CrossBefore(own, CrossBefore(left, CrossAfter(f, right)))),
                 Cross(own, Cross(left, Cross(FlatMap(s, f), right))))
  {
    CrossFlatMapLeft(s, f, right);
    CrossFlatMapRight(left, s, CrossAfter(f, right));
    CrossFlatMapRight(own, s, CrossBefore(left, CrossAfter(f, right)));
    CrossCongRight(own, Cross(left, Cross(FlatMap(s, f), right)), FlatMap(s, CrossBefore(left, CrossAfter(f, right))));
  }

  lemma {:induction false} LowerMeaning(roots: seq<Rec>, ctx: Ctx, n: FNode, kp: Path, bound: set<Path>)
    requires Bindable(n, bound)
    ensures Perm(FlatMap(PathIter(roots, ctx, n, kp), FlatOf(LowerAt(roots, n, kp))), FlatAll(MatAll(roots, ctx, n)))
    decreases n
  {
    var iter, plain := Iter(roots, ctx, n.sources), c => MatNode(roots, c, n);
    var inner := Then(PathIterBelow(roots, n, kp), FlatOf(LowerAt(roots, n, kp)));
    forall c | c in iter ensures Perm(inner(c), FlatOf(plain)(c)) {
      if kp == [] || kp[0] >= |n.children| {
        FlatMapSingle(c, FlatOf(LowerAt(roots, n, kp)));
      } else {
        LowerStep(roots, c, n, kp, bound);
      }
    }
    FlatMapCong(iter, inner, FlatOf(plain));
    FlatMapNest(iter, PathIterBelow(roots, n, kp), FlatOf(LowerAt(roots, n, kp)));
    FlatAllBuilt(iter, plain);
    FlatMapSame(iter, c => [MatNode(roots, c, n)], One(plain));
  }

  lemma {:induction false} LowerStep(roots: seq<Rec>, c: Ctx, n: FNode, kp: Path, bound: set<Path>)
    requires Bindable(n, bound) && kp != [] && kp[0] < |n.children|
    ensures Perm(FlatMap(PathIter(roots, c, n.children[kp[0]], kp[1..]), FlatOf(LowerAt(roots, n, kp))),
                 Flat(MatNode(roots, c, n)))
    decreases n, 0
  {
    var i, below, m := kp[0], kp[1..], MatNode(roots, c, n);
    var child := n.children[i];
    var paths := PathIter(roots, c, child, below);
    var own, left, right := Own(m), FlatSlots(m.slots[..i]), FlatSlots(m.slots[i + 1..]);
    var g := FlatOf(LowerAt(roots, child, below));
    assert kp == [i] + below;
    forall d | d in paths
      ensures FlatOf(LowerAt(roots, n, kp))(d) == CrossBefore(own, CrossBefore(left, CrossAfter(g, right)))(d)
    {
      PathIterBinds(roots, c, child, below, d);
      LowerSplit(roots, c, n, i, below, d, bound);
      var low := LowerNode(roots, d, child, below);
      FlatSlotsAt(m.slots, i, Slot([low]));
      assert FlatAll([low]) == Flat(low);
      assert Own(m.(slots := m.slots[i := Slot([low])])) == own;
    }
    FlatMapSame(paths, FlatOf(LowerAt(roots, n, kp)), CrossBefore(own, CrossBefore(left, CrossAfter(g, right))));
    LoopInside(paths, own, left, g, right);
    BindableChild(n, i, bound);
    LowerMeaning(roots, c, child, below, bound + SetOf(n.sources));
    MatChildrenAt(roots, c, n.children, i);
    FlatSlotsAt(m.slots, i, m.slots[i]);
    assert m.slots[i := m.slots[i]] == m.slots;
    var all := FlatAll(m.slots[i].recs);
    CrossCongLeft(FlatMap(paths, g), all, right);
    CrossCongRight(left, Cross(FlatMap(paths, g), right), Cross(all, right));
    CrossCongRight(own, Cross(left, Cross(FlatMap(paths, g), right)), Cross(left, Cross(all, right)));
  }

  //
  // Keys of instances
  //

  lemma {:induction false} PathIterTyped(roots: seq<Rec>, c: Ctx, t: FNode, n: FNode, kp: Path, d: Ctx)
    requires ConformsAll(roots, t) && Typed(c, t) && d in PathIter(roots, c, n, kp)
    ensures Typed(d, t)
    decreases n
  {
    FlatMapMember(Iter(roots, c, n.sources), PathIterBelow(roots, n, kp), d);
    var e :| e in Iter(roots, c, n.sources) && d in PathIterBelow(roots, n, kp)(e);
    IterTyped(roots, c, t, n.sources, e);
    if !(kp == [] || kp[0] >= |n.children|) {
      PathIterTyped(roots, e, t, n.children[kp[0]], kp[1..], d);
    }
  }

  /** The sources along the key path are all bound. */
  ghost predicate PathBound(c: Ctx, n: FNode, kp: Path)
    decreases n
  {
    && SetOf(n.sources) <= c.Keys
    && (kp == [] || kp[0] >= |n.children| || PathBound(c, n.children[kp[0]], kp[1..]))
  }

  lemma {:induction false} PathIterBound(roots: seq<Rec>, c: Ctx, n: FNode, kp: Path, d: Ctx)
    requires d in PathIter(roots, c, n, kp)
    ensures c.Keys <= d.Keys && PathBound(d, n, kp)
    decreases n
  {
    FlatMapMember(Iter(roots, c, n.sources), PathIterBelow(roots, n, kp), d);
    var e :| e in Iter(roots, c, n.sources) && d in PathIterBelow(roots, n, kp)(e);
    IterBinds(roots, c, n.sources, e);
    if !(kp == [] || kp[0] >= |n.children|) {
      PathIterBound(roots, e, n.children[kp[0]], kp[1..], d);
    }
  }

  lemma {:induction false} LowerConforms(roots: seq<Rec>, c: Ctx, t: FNode, n: FNode, kp: Path)
    requires ConformsAll(roots, t) && Typed(c, t) && Sourced(t, n) && PathBound(c, n, kp)
    ensures Conforms(LowerNode(roots, c, n, kp), n)
    decreases n
  {
    MatNodeConforms(roots, c, t, n);
    if !(kp == [] || kp[0] >= |n.children|) {
      SourcedChild(t, n.children, kp[0]);
      LowerConforms(roots, c, t, n.children[kp[0]], kp[1..]);
    }
  }

  /** The key of an instance, read from the records fixed at the key level. */
  function InstanceKey(c: Ctx, n: FNode, kp: Path, kb: seq<Attr>): seq<int> {
    match NodeAt(n, kp) case None => [] case Some(k) => KeyOf(ValsOf(c, k.sources), kb)
  }

  /** Every tuple of an instance has the key read from its context. */
  lemma {:induction false} InstanceHasKey(roots: seq<Rec>, c: Ctx, t: FNode, n: FNode, kp: Path, kb: seq<Attr>, u: Tuple)
    requires ConformsAll(roots, t) && Typed(c, t) && Sourced(t, n) && PathBound(c, n, kp)
    requires AtMostOnce(AttrBag(n)) && KeysAt(n, kp, kb) && u in Flat(LowerNode(roots, c, n, kp))
    ensures KeyOf(u, kb) == InstanceKey(c, n, kp, kb)
    decreases n
  {
    LowerConforms(roots, c, t, n, kp);
    var m := LowerNode(roots, c, n, kp);
    if kp == [] {
      KeyOfRecord(m, n, kb);
    } else {
      var i, below := kp[0], kp[1..];
      var child := n.children[i];
      AtMostOnceParts(multiset(n.attrs), AttrBagAll(n.children));
      SiblingsApart(n.children, i);
      SourcedChild(t, n.children, i);
      NodeAtInSet(child, below);
      LowerConforms(roots, c, t, child, below);
      var y := SlotHasKey(m, n, i, LowerNode(roots, c, child, below), kb, u);
      InstanceHasKey(roots, c, t, child, below, kb, y);
    }
  }

  /** A tuple has the key of the record in the slot that stores the key's columns. */
  lemma SlotHasKey(m: Rec, n: FNode, i: nat, low: Rec, kb: seq<Attr>, u: Tuple) returns (y: Tuple)
    requires Conforms(m, n) && i < |n.children| == |m.slots| && m.slots[i].recs == [low] && Conforms(low, n.children[i]) && u in Flat(m)
    requires AttrSetAll(n.children[i + 1..]) !! AttrSet(n.children[i]) && forall k :: k in kb ==> k in AttrSet(n.children[i])
    ensures y in Flat(low) && KeyOf(u, kb) == KeyOf(y, kb)
  {
    hide KeyOf, AttrSet, AttrSetAll;
    var left, right := FlatSlots(m.slots[..i]), FlatSlots(m.slots[i + 1..]);
    FlatSlotsAt(m.slots, i, m.slots[i]);
    assert m.slots[i := m.slots[i]] == m.slots && FlatAll([low]) == Flat(low);
    var z;
    y, z := MiddleOf(Own(m), left, Flat(low), right, u);
    FlatKeys(low, n.children[i], y);
    FlatSlotsKeys(m.slots[i + 1..], n.children[i + 1..], z);
    KeyKept(u, y, z, AttrSet(n.children[i]), kb);
  }

  lemma KeyKept(u: Tuple, y: Tuple, z: Tuple, attrs: set<Attr>, keys: seq<Attr>)
    requires y.Keys == attrs && z.Keys !! attrs && forall k :: k in keys ==> k in attrs
    requires forall a :: a in y && a !in z ==> a in u && u[a] == y[a]
    ensures KeyOf(u, keys) == KeyOf(y, keys)
  {}

  /** A tuple of a four-fold product, seen from its third factor. */
  lemma MiddleOf(own: seq<Tuple>, left: seq<Tuple>, x: seq<Tuple>, right: seq<Tuple>, u: Tuple)
      returns (y: Tuple, z: Tuple)
    requires u in Cross(own, Cross(left, Cross(x, right)))
    ensures y in x && z in right
    ensures forall a :: a in y && a !in z ==> a in u && u[a] == y[a]
  {
    CrossMembers(own, Cross(left, Cross(x, right)), u);
    var o, u1 :| o in own && u1 in Cross(left, Cross(x, right)) && u == o + u1;
    CrossMembers(left, Cross(x, right), u1);
    var l, u2 :| l in left && u2 in Cross(x, right) && u1 == l + u2;
    CrossMembers(x, right, u2);
    y, z :| y in x && z in right && u2 == y + z;
  }

  //
  // The instances as a table
  //

  datatype Entry = Entry(key: seq<int>, rec: Rec)

  /** All instances of the lower side, with their keys, in the order they are met. */
  function Entries(roots: seq<Rec>, n: FNode, kp: Path, kb: seq<Attr>): seq<Entry> {
    EntriesOf(roots, PathIter(roots, map[], n, kp), n, kp, kb)
  }

  function EntriesOf(roots: seq<Rec>, cs: seq<Ctx>, n: FNode, kp: Path, kb: seq<Attr>): seq<Entry> {
    if cs == [] then []
    else [Entry(InstanceKey(cs[0], n, kp, kb), LowerNode(roots, cs[0], n, kp))] + EntriesOf(roots, cs[1..], n, kp, kb)
  }

  /** The records filed under a key that meets `k`. */
  function Filed(es: seq<Entry>, k: seq<int>, how: Comparing): seq<Rec> {
    if es == [] then []
    else if Meets(how, k, es[0].key) then [es[0].rec] + Filed(es[1..], k, how)
    else Filed(es[1..], k, how)
  }

  lemma {:induction false} FiledMeaning(roots: seq<Rec>, cs: seq<Ctx>, t: FNode, n: FNode, kp: Path, kb: seq<Attr>, k: seq<int>, how: Comparing)
    requires ConformsAll(roots, t) && Sourced(t, n) && AtMostOnce(AttrBag(n)) && KeysAt(n, kp, kb)
    requires forall c :: c in cs ==> Typed(c, t) && PathBound(c, n, kp)
    ensures FlatAll(Filed(EntriesOf(roots, cs, n, kp, kb), k, how))
         == Meeting(FlatMap(cs, FlatOf(LowerAt(roots, n, kp))), kb, k, how)
    decreases |cs|
  {
    if cs != [] {
      var c, low := cs[0], LowerNode(roots, cs[0], n, kp);
      assert c in cs && forall d :: d in cs[1..] ==> d in cs;
      FiledMeaning(roots, cs[1..], t, n, kp, kb, k, how);
      MeetingAppend(Flat(low), FlatMap(cs[1..], FlatOf(LowerAt(roots, n, kp))), kb, k, how);
      var own := InstanceKey(c, n, kp, kb);
      forall u | u in Flat(low) ensures KeyOf(u, kb) == own { InstanceHasKey(roots, c, t, n, kp, kb, u); }
      MeetingAllOrNone(Flat(low), kb, own, k, how);
      FiledStep(EntriesOf(roots, cs, n, kp, kb), k, how);
    }
  }

  lemma FiledStep(es: seq<Entry>, k: seq<int>, how: Comparing)
    requires es != []
    ensures FlatAll(Filed(es, k, how)) == (if Meets(how, k, es[0].key) then Flat(es[0].rec) else []) + FlatAll(Filed(es[1..], k, how))
  {
    if Meets(how, k, es[0].key) {
      assert Filed(es, k, how)[1..] == Filed(es[1..], k, how);
    } else {
      assert Filed(es, k, how) == Filed(es[1..], k, how);
    }
  }

  function FiledUnder(es: seq<Entry>, how: Comparing): seq<int> -> seq<Rec> {
    k => Filed(es, k, how)
  }

  /** Looking a key up among the instances of the restructured lower side answers with
      exactly its tuples whose key meets it. */
  lemma {:induction false} EntriesAnswer(r: FRelation, keys: seq<Attr>, strategy: PathStrategy, kp: Path, how: Comparing)
    requires ValidRelation(r) && KeysAt(PathTree(r.tree, keys, strategy), kp, keys)
    ensures Answers(FiledUnder(Entries(r.roots, PathTree(r.tree, keys, strategy), kp, keys), how), FlatAll(r.roots), keys, how)
  {
    var n := PathTree(r.tree, keys, strategy);
    PathTreeValid(r.tree, keys, strategy);
    Restructure(r, keys, strategy);
    var cs := PathIter(r.roots, map[], n, kp);
    LowerMeaning(r.roots, map[], n, kp, {});
    forall c | c in cs ensures Typed(c, r.tree) && PathBound(c, n, kp) {
      PathIterTyped(r.roots, map[], r.tree, n, kp, c);
      PathIterBound(r.roots, map[], n, kp, c);
    }
    var es, all := Entries(r.roots, n, kp, keys), FlatMap(cs, FlatOf(LowerAt(r.roots, n, kp)));
    forall k ensures Perm(FlatAll(FiledUnder(es, how)(k)), Meeting(FlatAll(r.roots), keys, k, how)) {
      FiledMeaning(r.roots, cs, r.tree, n, kp, keys, k, how);
      MeetingPerm(all, FlatAll(r.roots), keys, k, how);
    }
  }
}
