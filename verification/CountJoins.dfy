/** Counting a join without building it: the walk over the upper side, what it adds up to,
    and which keys of the lower side it reaches. Inner, outer, semi and anti joins. */
module CountJoins {
  import opened Bags
  import opened FReps
  import opened FTrees
  import opened Flattening
  import opened Reordering
  import opened Restructuring
  import opened Transforming
  import opened FlatJoins
  import opened Joins
  import opened Instances

  //
  // Weighted counts of flat bags
  //

  /** The tuples of `a`, each counted as often as `f` says for its key. */
  function Weighted(a: seq<Tuple>, ka: seq<Attr>, f: seq<int> -> nat): nat {
    if a == [] then 0 else f(KeyOf(a[0], ka)) + Weighted(a[1..], ka, f)
  }

  lemma WeightedAppend(a: seq<Tuple>, b: seq<Tuple>, ka: seq<Attr>, f: seq<int> -> nat)
    ensures Weighted(a + b, ka, f) == Weighted(a, ka, f) + Weighted(b, ka, f)
  {
    if a == [] {
      assert a + b == b;
    } else {
      assert (a + b)[1..] == a[1..] + b;
      WeightedAppend(a[1..], b, ka, f);
    }
  }

  lemma WeightedWithout(b: seq<Tuple>, i: nat, ka: seq<Attr>, f: seq<int> -> nat)
    requires i < |b|
    ensures Weighted(b, ka, f) == f(KeyOf(b[i], ka)) + Weighted(b[..i] + b[i + 1..], ka, f)
  {
    var pre, post := b[..i], b[i + 1..];
    assert b == pre + ([b[i]] + post);
    WeightedAppend(pre, post, ka, f);
    WeightedAppend(pre, [b[i]] + post, ka, f);
    assert ([b[i]] + post)[1..] == post;
  }

  lemma WeightedPerm(a: seq<Tuple>, b: seq<Tuple>, ka: seq<Attr>, f: seq<int> -> nat)
    requires Perm(a, b)
    ensures Weighted(a, ka, f) == Weighted(b, ka, f)
    decreases |a|
  {
    PermLength(a, b);
    if a != [] {
      var i := PermSplit(a, b);
      WeightedPerm(a[1..], b[..i] + b[i + 1..], ka, f);
      WeightedWithout(b, i, ka, f);
    }
  }

  lemma WeightedOneKey(a: seq<Tuple>, ka: seq<Attr>, f: seq<int> -> nat, k: seq<int>)
    requires forall t :: t in a ==> KeyOf(t, ka) == k
    ensures Weighted(a, ka, f) == |a| * f(k)
  {
    if a != [] {
      assert a[0] in a && forall t :: t in a[1..] ==> t in a;
      WeightedOneKey(a[1..], ka, f, k);
      assert |a| * f(k) == f(k) + (|a| - 1) * f(k);
    }
  }

  lemma WeightedPrefix(t: Tuple, x: seq<Tuple>, ka: seq<Attr>, f: seq<int> -> nat)
    requires HasKeys(x, ka)
    ensures Weighted(Prefix(t, x), ka, f) == Weighted(x, ka, f)
  {
    if x != [] {
      assert x[0] in x && forall u :: u in x[1..] ==> u in x;
      assert Prefix(t, x)[1..] == Prefix(t, x[1..]);
      assert KeyOf(t + x[0], ka) == KeyOf(x[0], ka);
      WeightedPrefix(t, x[1..], ka, f);
    }
  }

  /** The key is in the inner factor. */
  lemma WeightedCrossLeft(a: seq<Tuple>, x: seq<Tuple>, ka: seq<Attr>, f: seq<int> -> nat)
    requires HasKeys(x, ka)
    ensures Weighted(Cross(a, x), ka, f) == |a| * Weighted(x, ka, f)
  {
    if a != [] {
      WeightedAppend(Prefix(a[0], x), Cross(a[1..], x), ka, f);
      WeightedPrefix(a[0], x, ka, f);
      WeightedCrossLeft(a[1..], x, ka, f);
      assert |a| * Weighted(x, ka, f) == Weighted(x, ka, f) + (|a| - 1) * Weighted(x, ka, f);
    }
  }

  /** The key is in the outer factor. */
  lemma WeightedCrossRight(x: seq<Tuple>, r: seq<Tuple>, ka: seq<Attr>, f: seq<int> -> nat)
    requires LacksKeys(r, ka)
    ensures Weighted(Cross(x, r), ka, f) == Weighted(x, ka, f) * |r|
  {
    if x != [] {
      WeightedAppend(Prefix(x[0], r), Cross(x[1..], r), ka, f);
      KeyOfPrefix(x[0], r, ka);
      WeightedOneKey(Prefix(x[0], r), ka, f, KeyOf(x[0], ka));
      WeightedCrossRight(x[1..], r, ka, f);
      assert (f(KeyOf(x[0], ka)) + Weighted(x[1..], ka, f)) * |r|
          == f(KeyOf(x[0], ka)) * |r| + Weighted(x[1..], ka, f) * |r|;
    }
  }

  //
  // The walk
  //

  /** What a walk found: the size it computed and the keys it looked up, in order. */
  datatype Visit = Visit(size: nat, keys: seq<seq<int>>)

  /** One record of the output: its weight times its slots, slot by slot, giving up at the
      first empty one; at the insertion node, times `factor` for the key. */
  function WalkNode(roots: seq<Rec>, c: Ctx, n: FNode, ins: Option<Path>, ka: seq<Attr>, factor: seq<int> -> nat): Visit
    decreases n, 0
  {
    var v := WalkChildren(roots, c, n.children, 0, ins, ka, factor, Visit(WeightOf(c, n.sources), []));
    if n.children != [] && v.size == 0 then v
    else if ins == Some([]) then
      var k := KeyOf(ValsOf(c, n.sources), ka);
      Visit(v.size * factor(k), v.keys + [k])
    else v
  }

  /** The child the insertion node lies below, if this is it. */
  function Towards(ins: Option<Path>, i: nat): Option<Path> {
    if ins.Some? && ins.value != [] && ins.value[0] == i then Some(ins.value[1..]) else None
  }

  function WalkChildren(roots: seq<Rec>, c: Ctx, ns: seq<FNode>, i: nat, ins: Option<Path>, ka: seq<Attr>,
                        factor: seq<int> -> nat, acc: Visit): Visit
    decreases ns, 0
  {
    if ns == [] then acc
    else
      var w := WalkAll(roots, c, ns[0], Towards(ins, i), ka, factor);
      var next := Visit(acc.size * w.size, acc.keys + w.keys);
      if next.size == 0 then next else WalkChildren(roots, c, ns[1..], i + 1, ins, ka, factor, next)
  }

  function WalkAll(roots: seq<Rec>, ctx: Ctx, n: FNode, ins: Option<Path>, ka: seq<Attr>, factor: seq<int> -> nat): Visit
    decreases n, 2
  {
    WalkList(roots, Iter(roots, ctx, n.sources), n, ins, ka, factor)
  }

  function WalkList(roots: seq<Rec>, cs: seq<Ctx>, n: FNode, ins: Option<Path>, ka: seq<Attr>, factor: seq<int> -> nat): Visit
    decreases n, 1, |cs|
  {
    if cs == [] then Visit(0, [])
    else
      var v := WalkNode(roots, cs[0], n, ins, ka, factor);
      var w := WalkList(roots, cs[1..], n, ins, ka, factor);
      Visit(v.size + w.size, v.keys + w.keys)
  }

  /** What a walk below `ins` should find. */
  function Found(a: seq<Tuple>, ins: Option<Path>, ka: seq<Attr>, factor: seq<int> -> nat): nat {
    if ins.Some? then Weighted(a, ka, factor) else |a|
  }

  lemma FoundAppend(a: seq<Tuple>, b: seq<Tuple>, ins: Option<Path>, ka: seq<Attr>, factor: seq<int> -> nat)
    ensures Found(a + b, ins, ka, factor) == Found(a, ins, ka, factor) + Found(b, ins, ka, factor)
  {
    WeightedAppend(a, b, ka, factor);
  }

  ghost predicate KeysBelow(n: FNode, ins: Option<Path>, ka: seq<Attr>) {
    ins.Some? ==> KeysAt(n, ins.value, ka)
  }

  lemma {:induction false} WalkAllSize(roots: seq<Rec>, ctx: Ctx, t: FNode, n: FNode, ins: Option<Path>, ka: seq<Attr>,
                                       factor: seq<int> -> nat)
    requires ConformsAll(roots, t) && Typed(ctx, t) && Sourced(t, n) && AtMostOnce(AttrBag(n))
    requires KeysBelow(n, ins, ka)
    ensures WalkAll(roots, ctx, n, ins, ka, factor).size == Found(FlatAll(MatAll(roots, ctx, n)), ins, ka, factor)
    decreases n, 2
  {
    var iter := Iter(roots, ctx, n.sources);
    forall c | c in iter ensures Typed(c, t) && SetOf(n.sources) <= c.Keys {
      IterTyped(roots, ctx, t, n.sources, c);
      IterBinds(roots, ctx, n.sources, c);
    }
    WalkListSize(roots, iter, t, n, ins, ka, factor);
    MatAllIsRest(roots, ctx, n);
  }

  lemma {:induction false} WalkListSize(roots: seq<Rec>, cs: seq<Ctx>, t: FNode, n: FNode, ins: Option<Path>,
                                        ka: seq<Attr>, factor: seq<int> -> nat)
    requires ConformsAll(roots, t) && Sourced(t, n) && AtMostOnce(AttrBag(n)) && KeysBelow(n, ins, ka)
    requires forall c :: c in cs ==> Typed(c, t) && SetOf(n.sources) <= c.Keys
    ensures WalkList(roots, cs, n, ins, ka, factor).size
         == Found(FlatAll(FlatMap(cs, One(c => MatNode(roots, c, n)))), ins, ka, factor)
    decreases n, 1, |cs|
  {
    if cs != [] {
      var make: Ctx -> Rec := c => MatNode(roots, c, n);
      assert cs[0] in cs && forall c :: c in cs[1..] ==> c in cs;
      WalkNodeSize(roots, cs[0], t, n, ins, ka, factor);
      WalkListSize(roots, cs[1..], t, n, ins, ka, factor);
      FlatAllAppend([make(cs[0])], FlatMap(cs[1..], One(make)));
      assert FlatAll([make(cs[0])]) == Flat(make(cs[0]));
      FoundAppend(Flat(make(cs[0])), FlatAll(FlatMap(cs[1..], One(make))), ins, ka, factor);
    }
  }

  lemma {:induction false} WalkNodeSize(roots: seq<Rec>, c: Ctx, t: FNode, n: FNode, ins: Option<Path>, ka: seq<Attr>,
                                        factor: seq<int> -> nat)
    requires ConformsAll(roots, t) && Typed(c, t) && Sourced(t, n) && SetOf(n.sources) <= c.Keys
    requires AtMostOnce(AttrBag(n)) && KeysBelow(n, ins, ka)
    ensures WalkNode(roots, c, n, ins, ka, factor).size == Found(Flat(MatNode(roots, c, n)), ins, ka, factor)
    decreases n, 0
  {
    var m := MatNode(roots, c, n);
    MatNodeConforms(roots, c, t, n);
    AtMostOnceParts(multiset(n.attrs), AttrBagAll(n.children));
    CrossSize(Own(m), FlatSlots(m.slots));
    var start := Visit(m.weight, []);
    if ins.Some? && ins.value != [] {
      WalkChildrenSize(roots, c, t, n.children, 0, ins, ka, factor, start);
      NodeAtInSet(n.children[ins.value[0]], ins.value[1..]);
      FlatSlotsHaveKeys(m.slots, n.children, ins.value[0], ka);
      WeightedCrossLeft(Own(m), FlatSlots(m.slots), ka, factor);
    } else {
      WalkChildrenPlain(roots, c, t, n.children, 0, ins, ka, factor, start);
      if ins.Some? {
        KeyOfRecord(m, n, ka);
        WeightedOneKey(Flat(m), ka, factor, KeyOf(m.vals, ka));
      }
    }
  }

  lemma {:induction false} FlatSlotsHaveKeys(slots: seq<Slot>, ns: seq<FNode>, i: nat, ka: seq<Attr>)
    requires SlotsConform(slots, ns) && i < |ns| && forall k :: k in ka ==> k in AttrSet(ns[i])
    ensures HasKeys(FlatSlots(slots), ka)
  {
    InAttrSetAll(ns, i);
    forall u, k | u in FlatSlots(slots) && k in ka ensures k in u { FlatSlotsKeys(slots, ns, u); }
  }

  lemma InAttrSetAll(ns: seq<FNode>, i: nat)
    requires i < |ns|
    ensures AttrSet(ns[i]) <= AttrSetAll(ns)
  {
    if i > 0 { InAttrSetAll(ns[1..], i - 1); }
  }

  lemma MatChildrenStep(roots: seq<Rec>, c: Ctx, ns: seq<FNode>)
    requires ns != []
    ensures FlatSlots(MatChildren(roots, c, ns))
         == Cross(FlatAll(MatAll(roots, c, ns[0])), FlatSlots(MatChildren(roots, c, ns[1..])))
  {
    assert MatChildren(roots, c, ns)[1..] == MatChildren(roots, c, ns[1..]);
  }

  /** One step of the product: a slot of total `w`, then the rest, which counts `rest`. */
  lemma Associate(a: nat, w: nat, rest: nat, total: nat, got: nat)
    requires total == w * rest
    requires got == if a * w == 0 then 0 else a * w * rest
    ensures got == a * total
  {}

  function Next(roots: seq<Rec>, c: Ctx, n: FNode, i: nat, ins: Option<Path>, ka: seq<Attr>, factor: seq<int> -> nat,
                acc: Visit): Visit {
    var w := WalkAll(roots, c, n, Towards(ins, i), ka, factor);
    Visit(acc.size * w.size, acc.keys + w.keys)
  }

  /** Off the path every slot contributes its size. */
  lemma {:induction false} WalkChildrenPlain(roots: seq<Rec>, c: Ctx, t: FNode, ns: seq<FNode>, i: nat, ins: Option<Path>,
                                             ka: seq<Attr>, factor: seq<int> -> nat, acc: Visit)
    requires ConformsAll(roots, t) && Typed(c, t) && SourcedAll(t, ns) && AtMostOnce(AttrBagAll(ns))
    requires ins.Some? && ins.value != [] ==> ins.value[0] < i
    ensures WalkChildren(roots, c, ns, i, ins, ka, factor, acc).size == acc.size * |FlatSlots(MatChildren(roots, c, ns))|
    decreases ns, 0
  {
    if ns != [] {
      AtMostOnceParts(AttrBag(ns[0]), AttrBagAll(ns[1..]));
      WalkAllSize(roots, c, t, ns[0], None, ka, factor);
      WalkChildrenPlain(roots, c, t, ns[1..], i + 1, ins, ka, factor, Next(roots, c, ns[0], i, ins, ka, factor, acc));
      MatChildrenStep(roots, c, ns);
      var head, tail := FlatAll(MatAll(roots, c, ns[0])), FlatSlots(MatChildren(roots, c, ns[1..]));
      CrossSize(head, tail);
      Associate(acc.size, |head|, |tail|, |Cross(head, tail)|,
                WalkChildren(roots, c, ns, i, ins, ka, factor, acc).size);
    }
  }

  /** The slots right of the path lack the key. */
  lemma {:induction false} TailLacksKeys(roots: seq<Rec>, c: Ctx, t: FNode, ns: seq<FNode>, ka: seq<Attr>)
    requires ConformsAll(roots, t) && Typed(c, t) && ns != [] && SourcedAll(t, ns[1..]) && AtMostOnce(AttrBagAll(ns))
    requires forall k :: k in ka ==> k in AttrSet(ns[0])
    ensures LacksKeys(FlatSlots(MatChildren(roots, c, ns[1..])), ka)
  {
    AtMostOnceParts(AttrBag(ns[0]), AttrBagAll(ns[1..]));
    AttrSetIsBag(ns[0]);
    AttrSetAllIsBag(ns[1..]);
    MatChildrenConform(roots, c, t, ns[1..]);
    forall u, k | u in FlatSlots(MatChildren(roots, c, ns[1..])) && k in ka ensures k !in u {
      FlatSlotsKeys(MatChildren(roots, c, ns[1..]), ns[1..], u);
    }
  }

  /** On the path one slot contributes its weighted count, the others their sizes. */
  lemma {:induction false} WalkChildrenSize(roots: seq<Rec>, c: Ctx, t: FNode, ns: seq<FNode>, i: nat, ins: Option<Path>,
                                            ka: seq<Attr>, factor: seq<int> -> nat, acc: Visit)
    requires ConformsAll(roots, t) && Typed(c, t) && SourcedAll(t, ns) && AtMostOnce(AttrBagAll(ns))
    requires ins.Some? && ins.value != [] && i <= ins.value[0] < i + |ns|
    requires KeysAt(ns[ins.value[0] - i], ins.value[1..], ka)
    ensures WalkChildren(roots, c, ns, i, ins, ka, factor, acc).size
         == acc.size * Weighted(FlatSlots(MatChildren(roots, c, ns)), ka, factor)
    decreases ns, 0
  {
    hide Weighted, Cross, FlatAll, FlatSlots, MatAll, MatChildren, AttrSet;
    var head, tail := FlatAll(MatAll(roots, c, ns[0])), FlatSlots(MatChildren(roots, c, ns[1..]));
    var got := WalkChildren(roots, c, ns, i, ins, ka, factor, acc).size;
    var total := Weighted(Cross(head, tail), ka, factor);
    AtMostOnceParts(AttrBag(ns[0]), AttrBagAll(ns[1..]));
    WalkAllSize(roots, c, t, ns[0], Towards(ins, i), ka, factor);
    NodeAtInSet(ns[ins.value[0] - i], ins.value[1..]);
    MatChildrenStep(roots, c, ns);
    if ins.value[0] == i {
      WalkChildrenPlain(roots, c, t, ns[1..], i + 1, ins, ka, factor, Next(roots, c, ns[0], i, ins, ka, factor, acc));
      TailLacksKeys(roots, c, t, ns, ka);
      WeightedCrossRight(head, tail, ka, factor);
      Associate(acc.size, Weighted(head, ka, factor), |tail|, total, got);
    } else {
      WalkChildrenSize(roots, c, t, ns[1..], i + 1, ins, ka, factor, Next(roots, c, ns[0], i, ins, ka, factor, acc));
      MatChildrenConform(roots, c, t, ns[1..]);
      FlatSlotsHaveKeys(MatChildren(roots, c, ns[1..]), ns[1..], ins.value[0] - i - 1, ka);
      WeightedCrossLeft(head, tail, ka, factor);
      Associate(acc.size, |head|, Weighted(tail, ka, factor), total, got);
    }
  }
}
