/** Which keys the counting walk looks up, empty records or not: always the keys of the upper
    side's tuples, perhaps others, and never different ones for different factors. */
module Lookups {
  import opened Bags
  import opened FReps
  import opened FTrees
  import opened Flattening
  import opened Reordering
  import opened Transforming
  import opened FlatJoins
  import opened FactorizedJoins
  import opened CountJoins
  import opened Reaching

  //
  // Off the path the factors play no part
  //

  lemma {:induction false} PlainAll(roots: seq<Rec>, ctx: Ctx, n: FNode, ka: seq<Attr>, f: seq<int> -> nat, g: seq<int> -> nat)
    ensures WalkAll(roots, ctx, n, None, ka, f) == WalkAll(roots, ctx, n, None, ka, g)
    decreases n, 2
  {
    PlainList(roots, Iter(roots, ctx, n.sources), n, ka, f, g);
  }

  lemma {:induction false} PlainList(roots: seq<Rec>, cs: seq<Ctx>, n: FNode, ka: seq<Attr>, f: seq<int> -> nat, g: seq<int> -> nat)
    ensures WalkList(roots, cs, n, None, ka, f) == WalkList(roots, cs, n, None, ka, g)
    decreases n, 1, |cs|
  {
    if cs != [] {
      PlainChildren(roots, cs[0], n.children, 0, None, ka, f, g, Visit(WeightOf(cs[0], n.sources), []));
      PlainList(roots, cs[1..], n, ka, f, g);
    }
  }

  lemma {:induction false} PlainChildren(roots: seq<Rec>, c: Ctx, ns: seq<FNode>, i: nat, ins: Option<Path>, ka: seq<Attr>,
                                         f: seq<int> -> nat, g: seq<int> -> nat, acc: Visit)
    requires ins.Some? && ins.value != [] ==> ins.value[0] < i
    ensures WalkChildren(roots, c, ns, i, ins, ka, f, acc) == WalkChildren(roots, c, ns, i, ins, ka, g, acc)
    decreases ns
  {
    if ns != [] {
      PlainAll(roots, c, ns[0], ka, f, g);
      PlainChildren(roots, c, ns[1..], i + 1, ins, ka, f, g, Next(roots, c, ns[0], i, ins, ka, f, acc));
    }
  }

  //
  // On the path they change sizes, not keys
  //

  lemma {:induction false} KeysAll(roots: seq<Rec>, ctx: Ctx, n: FNode, ins: Path, ka: seq<Attr>, f: seq<int> -> nat, g: seq<int> -> nat)
    ensures WalkAll(roots, ctx, n, Some(ins), ka, f).keys == WalkAll(roots, ctx, n, Some(ins), ka, g).keys
    decreases n, 2
  {
    KeysList(roots, Iter(roots, ctx, n.sources), n, ins, ka, f, g);
  }

  lemma {:induction false} KeysList(roots: seq<Rec>, cs: seq<Ctx>, n: FNode, ins: Path, ka: seq<Attr>, f: seq<int> -> nat, g: seq<int> -> nat)
    ensures WalkList(roots, cs, n, Some(ins), ka, f).keys == WalkList(roots, cs, n, Some(ins), ka, g).keys
    decreases n, 1, |cs|
  {
    if cs != [] {
      var start := Visit(WeightOf(cs[0], n.sources), []);
      if ins == [] {
        PlainChildren(roots, cs[0], n.children, 0, Some(ins), ka, f, g, start);
      } else {
        KeysChildren(roots, cs[0], n.children, 0, Some(ins), ka, f, g, start);
      }
      KeysList(roots, cs[1..], n, ins, ka, f, g);
    }
  }

  lemma {:induction false} KeysChildren(roots: seq<Rec>, c: Ctx, ns: seq<FNode>, i: nat, ins: Option<Path>, ka: seq<Attr>,
                                        f: seq<int> -> nat, g: seq<int> -> nat, acc: Visit)
    requires ins.Some? && ins.value != []
    ensures WalkChildren(roots, c, ns, i, ins, ka, f, acc).keys == WalkChildren(roots, c, ns, i, ins, ka, g, acc).keys
    decreases ns
  {
    if ns != [] {
      if ins.value[0] < i {
        PlainChildren(roots, c, ns, i, ins, ka, f, g, acc);
      } else if ins.value[0] == i {
        PathHere(roots, c, ns, i, ins, ka, f, acc);
        PathHere(roots, c, ns, i, ins, ka, g, acc);
        KeysAll(roots, c, ns[0], ins.value[1..], ka, f, g);
      } else {
        PlainAll(roots, c, ns[0], ka, f, g);
        KeysChildren(roots, c, ns[1..], i + 1, ins, ka, f, g, Next(roots, c, ns[0], i, ins, ka, f, acc));
      }
    }
  }

  //
  // A size comes from a key looked up
  //

  /** Only the key `k` counts. */
  ghost predicate OnlyFor(f: seq<int> -> nat, k: seq<int>) {
    forall x :: x != k ==> f(x) == 0
  }

  lemma {:induction false} UnseenAll(roots: seq<Rec>, ctx: Ctx, n: FNode, ins: Path, ka: seq<Attr>, f: seq<int> -> nat, k: seq<int>)
    requires NodeAt(n, ins).Some? && OnlyFor(f, k) && k !in WalkAll(roots, ctx, n, Some(ins), ka, f).keys
    ensures WalkAll(roots, ctx, n, Some(ins), ka, f).size == 0
    decreases n, 2
  {
    UnseenList(roots, Iter(roots, ctx, n.sources), n, ins, ka, f, k);
  }

  lemma {:induction false} UnseenList(roots: seq<Rec>, cs: seq<Ctx>, n: FNode, ins: Path, ka: seq<Attr>, f: seq<int> -> nat, k: seq<int>)
    requires NodeAt(n, ins).Some? && OnlyFor(f, k) && k !in WalkList(roots, cs, n, Some(ins), ka, f).keys
    ensures WalkList(roots, cs, n, Some(ins), ka, f).size == 0
    decreases n, 1, |cs|
  {
    if cs != [] {
      UnseenNode(roots, cs[0], n, ins, ka, f, k);
      UnseenList(roots, cs[1..], n, ins, ka, f, k);
    }
  }

  lemma {:induction false} UnseenNode(roots: seq<Rec>, c: Ctx, n: FNode, ins: Path, ka: seq<Attr>, f: seq<int> -> nat, k: seq<int>)
    requires NodeAt(n, ins).Some? && OnlyFor(f, k) && k !in WalkNode(roots, c, n, Some(ins), ka, f).keys
    ensures WalkNode(roots, c, n, Some(ins), ka, f).size == 0
    decreases n, 0
  {
    var start := Visit(WeightOf(c, n.sources), []);
    if ins == [] {
      var v, own := WalkChildren(roots, c, n.children, 0, Some(ins), ka, f, start), KeyOf(ValsOf(c, n.sources), ka);
      if !(n.children != [] && v.size == 0) {
        assert (v.keys + [own])[|v.keys|] == own;
        assert v.size * f(own) == 0;
      }
    } else {
      UnseenChildren(roots, c, n.children, 0, Some(ins), ka, f, k, start);
    }
  }

  lemma {:induction false} UnseenChildren(roots: seq<Rec>, c: Ctx, ns: seq<FNode>, i: nat, ins: Option<Path>, ka: seq<Attr>,
                                          f: seq<int> -> nat, k: seq<int>, acc: Visit)
    requires ins.Some? && ins.value != [] && i <= ins.value[0] < i + |ns|
    requires NodeAt(ns[ins.value[0] - i], ins.value[1..]).Some?
    requires OnlyFor(f, k) && k !in WalkChildren(roots, c, ns, i, ins, ka, f, acc).keys
    ensures WalkChildren(roots, c, ns, i, ins, ka, f, acc).size == 0
    decreases ns
  {
    KeysStep(roots, c, ns, i, ins, ka, f, acc);
    var next := Next(roots, c, ns[0], i, ins, ka, f, acc);
    if ins.value[0] == i {
      PathHere(roots, c, ns, i, ins, ka, f, acc);
      UnseenAll(roots, c, ns[0], ins.value[1..], ka, f, k);
      assert next.size == acc.size * 0;
    } else if next.size > 0 {
      UnseenChildren(roots, c, ns[1..], i + 1, ins, ka, f, k, next);
    }
  }

  //
  // Whole walks
  //

  /** The keys the walk looks up, whatever is filed under them. */
  function LookedUp(upper: FRelation, uk: seq<Attr>, strategy: PathStrategy): seq<seq<int>> {
    UpperWalk(upper, uk, strategy, k => 1).keys
  }

  lemma LookedUpAlways(upper: FRelation, uk: seq<Attr>, strategy: PathStrategy, factor: seq<int> -> nat)
    ensures UpperWalk(upper, uk, strategy, factor).keys == LookedUp(upper, uk, strategy)
  {
    KeysAll(upper.roots, map[], PathTree(upper.tree, uk, strategy), InsertionPath(upper.tree, uk, strategy), uk, factor, k => 1);
  }

  lemma {:induction false} SomeWeight(a: seq<Tuple>, ka: seq<Attr>, f: seq<int> -> nat, k: seq<int>)
    requires HasKey(a, ka, k) && f(k) > 0
    ensures Weighted(a, ka, f) > 0
  {
    var u :| u in a && KeyOf(u, ka) == k;
    if u != a[0] { assert u in a[1..] && HasKey(a[1..], ka, k); SomeWeight(a[1..], ka, f, k); }
  }

  /** No key of a tuple is missed. */
  lemma TupleKeysLookedUp(upper: FRelation, uk: seq<Attr>, strategy: PathStrategy, k: seq<int>)
    requires ValidRelation(upper) && Converges(PathTree(upper.tree, uk, strategy), uk) && HasKey(FlatAll(upper.roots), uk, k)
    ensures k in LookedUp(upper, uk, strategy)
  {
    var f: seq<int> -> nat := x => if x == k then 1 else 0;
    UpperWalkSize(upper, uk, strategy, f);
    SomeWeight(FlatAll(upper.roots), uk, f, k);
    LookedUpAlways(upper, uk, strategy, f);
    ConvergedAtInsertion(upper.tree, uk, strategy);
    if k !in LookedUp(upper, uk, strategy) {
      UnseenAll(upper.roots, map[], PathTree(upper.tree, uk, strategy), InsertionPath(upper.tree, uk, strategy), uk, f, k);
    }
  }
}
