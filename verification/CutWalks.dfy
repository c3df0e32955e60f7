/** Exactly which keys the counting walk looks up: those of the tuples of the side on top with the
    subtrees right of the way to the insertion node cut off, since the walk meets those only later. */
module CutWalks {
  import opened Bags
  import opened FReps
  import opened FTrees
  import opened Flattening
  import opened Reordering
  import opened Restructuring
  import opened Transforming
  import opened FlatJoins
  import opened KeyPacking
  import opened FactorizedJoins
  import opened CountJoins
  import opened Reaching
  import opened Lookups
  import opened SqlJoins
  import opened Unpruned

  /** The tree without what lies right of the way to a node. */
  function Cut(n: FNode, ins: Path): FNode
    decreases |ins|
  {
    if ins == [] || ins[0] >= |n.children| then n
    else n.(children := n.children[..ins[0]] + [Cut(n.children[ins[0]], ins[1..])])
  }

  //
  // Weights
  //

  /** Every record stands for a row at least. */
  ghost predicate Weighty(r: Rec)
    decreases r
  {
    r.weight > 0 && forall i, c :: 0 <= i < |r.slots| && c in r.slots[i].recs ==> Weighty(c)
  }

  ghost predicate WeightyAll(rs: seq<Rec>) {
    forall r :: r in rs ==> Weighty(r)
  }

  ghost predicate CtxWeighty(c: Ctx) {
    forall p :: p in c ==> Weighty(c[p])
  }

  lemma {:induction false} IterWeighty(roots: seq<Rec>, ctx: Ctx, srcs: seq<Path>, c: Ctx)
    requires WeightyAll(roots) && CtxWeighty(ctx) && c in Iter(roots, ctx, srcs)
    ensures CtxWeighty(c)
    decreases |srcs|
  {
    if srcs != [] {
      var v, rest := srcs[0], srcs[1..];
      assert srcs == [v] + rest;
      IterUnfold(roots, ctx, v, rest);
      FlatMapMember(Cands(roots, ctx, v), IterStep(roots, ctx, v, rest), c);
      var r :| r in Cands(roots, ctx, v) && c in IterStep(roots, ctx, v, rest)(r);
      assert WeightyAll(Cands(roots, ctx, v));
      IterWeighty(roots, ctx[v := r], rest, c);
    }
  }

  lemma {:induction false} WeightHeld(c: Ctx, srcs: seq<Path>)
    requires CtxWeighty(c)
    ensures WeightOf(c, srcs) > 0
  {
    if srcs != [] { WeightHeld(c, srcs[1..]); }
  }

  //
  // The cut tree is as well formed as the whole
  //

  lemma {:induction false} CutAt(n: FNode, ins: Path)
    requires NodeAt(n, ins).Some?
    ensures NodeAt(Cut(n, ins), ins) == NodeAt(n, ins)
    decreases |ins|
  {
    if ins != [] { CutAt(n.children[ins[0]], ins[1..]); }
  }

  lemma {:induction false} CutSourced(t: FNode, n: FNode, ins: Path)
    requires Sourced(t, n)
    ensures Sourced(t, Cut(n, ins))
    decreases |ins|
  {
    if ins != [] && ins[0] < |n.children| {
      var i := ins[0];
      assert n.children == n.children[..i] + ([n.children[i]] + n.children[i + 1..]);
      SourcedAppend(t, n.children[..i], [n.children[i]] + n.children[i + 1..]);
      CutSourced(t, n.children[i], ins[1..]);
      SourcedAppend(t, n.children[..i], [Cut(n.children[i], ins[1..])]);
    }
  }

  lemma {:induction false} CutBag(n: FNode, ins: Path)
    ensures AttrBag(Cut(n, ins)) <= AttrBag(n)
    decreases |ins|
  {
    if ins != [] && ins[0] < |n.children| {
      var i := ins[0];
      var pre, post := n.children[..i], n.children[i + 1..];
      assert n.children == pre + ([n.children[i]] + post);
      AttrBagAppend(pre, [n.children[i]] + post);
      CutBag(n.children[i], ins[1..]);
      AttrBagAppend(pre, [Cut(n.children[i], ins[1..])]);
    }
  }

  //
  // The walk over the whole tree and over the cut one
  //

  function For(k: seq<int>): seq<int> -> nat {
    x => if x == k then 1 else 0
  }

  /** A key is looked up exactly if it counts in the cut tree. */
  lemma {:induction false} CutAll(roots: seq<Rec>, ctx: Ctx, n: FNode, ins: Path, ka: seq<Attr>, f: seq<int> -> nat, k: seq<int>)
    requires WeightyAll(roots) && CtxWeighty(ctx) && NodeAt(n, ins).Some?
    ensures k in WalkAll(roots, ctx, n, Some(ins), ka, f).keys <==> WalkAll(roots, ctx, Cut(n, ins), Some(ins), ka, For(k)).size > 0
    decreases n, 2
  {
    var cs := Iter(roots, ctx, n.sources);
    forall c | c in cs ensures CtxWeighty(c) { IterWeighty(roots, ctx, n.sources, c); }
    CutList(roots, cs, n, ins, ka, f, k);
    assert Cut(n, ins).sources == n.sources;
  }

  lemma {:induction false} CutList(roots: seq<Rec>, cs: seq<Ctx>, n: FNode, ins: Path, ka: seq<Attr>, f: seq<int> -> nat, k: seq<int>)
    requires WeightyAll(roots) && (forall c :: c in cs ==> CtxWeighty(c)) && NodeAt(n, ins).Some?
    ensures k in WalkList(roots, cs, n, Some(ins), ka, f).keys <==> WalkList(roots, cs, Cut(n, ins), Some(ins), ka, For(k)).size > 0
    decreases n, 1, |cs|
  {
    if cs != [] {
      assert cs[0] in cs && forall c :: c in cs[1..] ==> c in cs;
      CutNode(roots, cs[0], n, ins, ka, f, k);
      CutList(roots, cs[1..], n, ins, ka, f, k);
    }
  }

  lemma {:induction false} CutNode(roots: seq<Rec>, c: Ctx, n: FNode, ins: Path, ka: seq<Attr>, f: seq<int> -> nat, k: seq<int>)
    requires WeightyAll(roots) && CtxWeighty(c) && NodeAt(n, ins).Some?
    ensures k in WalkNode(roots, c, n, Some(ins), ka, f).keys <==> WalkNode(roots, c, Cut(n, ins), Some(ins), ka, For(k)).size > 0
    decreases n, 0
  {
    var start := Visit(WeightOf(c, n.sources), []);
    WeightHeld(c, n.sources);
    if ins == [] {
      PlainChildren(roots, c, n.children, 0, Some(ins), ka, f, For(k), start);
      NoKeysChildren(roots, c, n.children, 0, Some(ins), ka, f, start);
      var v, own := WalkChildren(roots, c, n.children, 0, Some(ins), ka, f, start), KeyOf(ValsOf(c, n.sources), ka);
      assert v.keys + [own] == [own];
      if v.size > 0 { assert v.size * For(k)(own) > 0 <==> own == k; }
    } else {
      CutChildren(roots, c, n.children, 0, ins, ka, f, k, start, start);
      assert n.children[0..] == n.children;
    }
  }

  lemma {:induction false} CutChildren(roots: seq<Rec>, c: Ctx, ns: seq<FNode>, i: nat, ins: Path, ka: seq<Attr>,
                                       f: seq<int> -> nat, k: seq<int>, acc: Visit, cut: Visit)
    requires WeightyAll(roots) && CtxWeighty(c) && ins != [] && i <= ins[0] < i + |ns| && NodeAt(ns[ins[0] - i], ins[1..]).Some?
    requires acc.size > 0 && acc.keys == [] && cut.size > 0
    ensures var at := ins[0] - i;
      k in WalkChildren(roots, c, ns, i, Some(ins), ka, f, acc).keys
      <==> WalkChildren(roots, c, ns[..at] + [Cut(ns[at], ins[1..])], i, Some(ins), ka, For(k), cut).size > 0
    decreases ns
  {
    hide WalkChildren, WalkAll, Cut, Weighty, CtxWeighty;
    var at := ins[0] - i;
    var left := ns[..at] + [Cut(ns[at], ins[1..])];
    if at == 0 {
      PathHere(roots, c, ns, i, Some(ins), ka, f, acc);
      CutAll(roots, c, ns[0], ins[1..], ka, f, k);
      assert left == [Cut(ns[0], ins[1..])] && left[1..] == [];
      LastChild(roots, c, left, i, ins, ka, For(k), cut);
    } else {
      NoKeysAll(roots, c, ns[0], ka, f);
      PlainAll(roots, c, ns[0], ka, f, For(k));
      KeysStep(roots, c, ns, i, Some(ins), ka, f, acc);
      KeysStep(roots, c, left, i, Some(ins), ka, For(k), cut);
      var next, more := Next(roots, c, ns[0], i, Some(ins), ka, f, acc), Next(roots, c, left[0], i, Some(ins), ka, For(k), cut);
      assert left[0] == ns[0] && left[1..] == ns[1..][..at - 1] + [Cut(ns[at], ins[1..])];
      var w := WalkAll(roots, c, ns[0], None, ka, f).size;
      Positive(acc.size, w);
      Positive(cut.size, w);
      if w > 0 {
        assert next.keys == [];
        CutChildren(roots, c, ns[1..], i + 1, ins, ka, f, k, next, more);
      }
    }
  }

  lemma Positive(a: nat, w: nat)
    requires a > 0
    ensures a * w > 0 <==> w > 0
  {}

  lemma LastChild(roots: seq<Rec>, c: Ctx, ns: seq<FNode>, i: nat, ins: Path, ka: seq<Attr>, f: seq<int> -> nat, acc: Visit)
    requires |ns| == 1 && ins != [] && ins[0] == i && acc.size > 0
    ensures WalkChildren(roots, c, ns, i, Some(ins), ka, f, acc).size > 0
      <==> WalkAll(roots, c, ns[0], Some(ins[1..]), ka, f).size > 0
  {
    KeysStep(roots, c, ns, i, Some(ins), ka, f, acc);
    var w := WalkAll(roots, c, ns[0], Some(ins[1..]), ka, f).size;
    assert Next(roots, c, ns[0], i, Some(ins), ka, f, acc).size == acc.size * w;
    if w > 0 { assert acc.size * w > 0; }
    assert ns[1..] == [];
  }

  //
  // Whole walks
  //

  lemma {:induction false} WeightedFor(a: seq<Tuple>, ka: seq<Attr>, k: seq<int>)
    ensures Weighted(a, ka, For(k)) > 0 <==> HasKey(a, ka, k)
  {
    if a != [] {
      WeightedFor(a[1..], ka, k);
      assert a[0] in a && forall u :: u in a[1..] ==> u in a;
      if HasKey(a, ka, k) {
        var u :| u in a && KeyOf(u, ka) == k;
        if u != a[0] { assert u in a[1..]; }
      }
    }
  }

  /** The tuples of the side on top, with the subtrees right of the way to the insertion node cut off. */
  function CutTuples(upper: FRelation, uk: seq<Attr>, strategy: PathStrategy): seq<Tuple> {
    var none: Ctx := map[];
    FlatAll(MatAll(upper.roots, none, Cut(PathTree(upper.tree, uk, strategy), InsertionPath(upper.tree, uk, strategy))))
  }

  /** The keys looked up are exactly those of the cut tuples. */
  lemma LookedUpIff(upper: FRelation, uk: seq<Attr>, strategy: PathStrategy, k: seq<int>)
    requires ValidRelation(upper) && WeightyAll(upper.roots) && Converges(PathTree(upper.tree, uk, strategy), uk)
    ensures k in LookedUp(upper, uk, strategy) <==> HasKey(CutTuples(upper, uk, strategy), uk, k)
  {
    hide Converges, PathTree, InsertionPath;
    var n, ins, none: Ctx := PathTree(upper.tree, uk, strategy), InsertionPath(upper.tree, uk, strategy), map[];
    PathTreeValid(upper.tree, uk, strategy);
    ConvergedAtInsertion(upper.tree, uk, strategy);
    CutAll(upper.roots, none, n, ins, uk, x => 1, k);
    KeysAll(upper.roots, none, n, ins, uk, x => 1, k => 1);
    CutAt(n, ins);
    CutSourced(upper.tree, n, ins);
    CutBag(n, ins);
    WalkAllSize(upper.roots, none, upper.tree, Cut(n, ins), Some(ins), uk, For(k));
    WeightedFor(CutTuples(upper, uk, strategy), uk, k);
  }

  /** Some tuple has this word for its key. */
  ghost predicate WordHeld(b: seq<Tuple>, ka: seq<Attr>, types: seq<ValueType>, word: nat) {
    exists v :: v in b && Word(types, KeyOf(v, ka)) == word
  }

  /** A join that marks the side beneath is counted right over every such side exactly if cutting off
      what lies right of the way adds no key to the tuples on top. */
  lemma ExactIffCutAddsNoKey(kind: JoinKind, preserve: Preserve, mode: JoinMode, upper: FRelation, uk: seq<Attr>, strategy: PathStrategy,
                             types: seq<ValueType>)
    requires Legal(kind, preserve) && MarksLower(preserve, mode)
    requires ValidRelation(upper) && WeightyAll(upper.roots) && Converges(PathTree(upper.tree, uk, strategy), uk)
    ensures ExactOnEveryLower(kind, preserve, mode, upper, uk, strategy, types)
      <==> forall u :: u in CutTuples(upper, uk, strategy) ==> WordHeld(FlatAll(upper.roots), uk, types, Word(types, KeyOf(u, uk)))
  {
    hide ExactOnEveryLower, CutTuples, LookedUp, ValidRelation, Converges, PathTree, Word;
    ExactOnEveryLowerIff(kind, preserve, mode, upper, uk, strategy, types);
    var b := FlatAll(upper.roots);
    forall k ensures HasPartner(b, uk, k, ByWord(types, types)) <==> WordHeld(b, uk, types, Word(types, k)) {}
    if NoStrayKeys(upper, uk, strategy, types) {
      forall u | u in CutTuples(upper, uk, strategy) ensures WordHeld(b, uk, types, Word(types, KeyOf(u, uk))) {
        LookedUpIff(upper, uk, strategy, KeyOf(u, uk));
      }
    }
    if forall u :: u in CutTuples(upper, uk, strategy) ==> WordHeld(b, uk, types, Word(types, KeyOf(u, uk))) {
      forall k | k in LookedUp(upper, uk, strategy) ensures HasPartner(b, uk, k, ByWord(types, types)) {
        LookedUpIff(upper, uk, strategy, k);
        var u :| u in CutTuples(upper, uk, strategy) && KeyOf(u, uk) == k;
      }
    }
  }
}
