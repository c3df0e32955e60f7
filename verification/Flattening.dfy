/** Partial flattening: the records of an input f-representation, enumerated in the order
    of another tree's nodes.

    A context binds input nodes to records. One order of the input nodes stands for one
    nest of loops; `Den` is the bag that nest produces, and `Reorder` says that every
    order in which parents precede children produces the same bag.
 */
module Flattening {
  import opened Bags
  import opened FReps
  import opened FTrees

  type Ctx = map<Path, Rec>

  /** The records node `v` ranges over once its parent is fixed. */
  function Cands(roots: seq<Rec>, ctx: Ctx, v: Path): seq<Rec> {
    if v == [] then roots
    else if Parent(v) in ctx && Last(v) < |ctx[Parent(v)].slots| then ctx[Parent(v)].slots[Last(v)].recs
    else []
  }

  /** The bag produced by one loop per node of `order`, outermost first. */
  function Den(roots: seq<Rec>, ctx: Ctx, order: seq<Path>): seq<Tuple>
    decreases |order|
  {
    if order == [] then [map[]]
    else FlatMap(Cands(roots, ctx, order[0]), r => Cross(Own(r), Den(roots, ctx[order[0] := r], order[1..])))
  }

  /** `Den` after its first loop variable is fixed. */
  function DenStep(roots: seq<Rec>, ctx: Ctx, v: Path, rest: seq<Path>): Rec -> seq<Tuple> {
    r => Cross(Own(r), Den(roots, ctx[v := r], rest))
  }

  lemma {:induction false} DenUnfold(roots: seq<Rec>, ctx: Ctx, v: Path, rest: seq<Path>)
    ensures Den(roots, ctx, [v] + rest) == FlatMap(Cands(roots, ctx, v), DenStep(roots, ctx, v, rest))
  {
    assert ([v] + rest)[1..] == rest;
    FlatMapSame(Cands(roots, ctx, v), r => Cross(Own(r), Den(roots, ctx[v := r], rest)),
                DenStep(roots, ctx, v, rest));
  }

  ghost predicate NoDup<T>(s: seq<T>) {
    forall i, j :: 0 <= i < j < |s| ==> s[i] != s[j]
  }

  /** The contexts agree on node `p`. */
  ghost predicate AgreeAt(a: Ctx, b: Ctx, p: Path) {
    (p in a <==> p in b) && (p in a ==> a[p] == b[p])
  }

  /** A nest of loops reads the context only at the parents of its nodes. */
  lemma {:induction false} DenFrame(roots: seq<Rec>, a: Ctx, b: Ctx, order: seq<Path>)
    requires forall v :: v in order && v != [] ==> AgreeAt(a, b, Parent(v))
    ensures Den(roots, a, order) == Den(roots, b, order)
    decreases |order|
  {
    if order != [] {
      var v, rest := order[0], order[1..];
      assert order == [v] + rest;
      assert v in order;
      DenUnfold(roots, a, v, rest);
      DenUnfold(roots, b, v, rest);
      assert Cands(roots, a, v) == Cands(roots, b, v);
      forall r | r in Cands(roots, a, v)
        ensures DenStep(roots, a, v, rest)(r) == DenStep(roots, b, v, rest)(r)
      {
        forall w | w in rest && w != [] ensures AgreeAt(a[v := r], b[v := r], Parent(w)) {
          assert w in order;
        }
        DenFrame(roots, a[v := r], b[v := r], rest);
      }
      FlatMapSame(Cands(roots, a, v), DenStep(roots, a, v, rest), DenStep(roots, b, v, rest));
    }
  }

  /** Nothing in `b` is a child of a node of `a`. */
  ghost predicate Independent(a: seq<Path>, b: seq<Path>) {
    forall v, w :: v in a && w in b && w != [] ==> Parent(w) != v
  }

  /** The part of `b` does not see the loop variable `v`. */
  lemma DenIgnores(roots: seq<Rec>, ctx: Ctx, v: Path, r: Rec, b: seq<Path>)
    requires forall w :: w in b && w != [] ==> Parent(w) != v
    ensures Den(roots, ctx[v := r], b) == Den(roots, ctx, b)
  {
    forall w | w in b && w != [] ensures AgreeAt(ctx, ctx[v := r], Parent(w)) {}
    DenFrame(roots, ctx, ctx[v := r], b);
  }

  lemma DenProductStep(roots: seq<Rec>, ctx: Ctx, v: Path, r: Rec, rest: seq<Path>, b: seq<Path>)
    requires Independent([v], b)
    requires Den(roots, ctx[v := r], rest + b) == Cross(Den(roots, ctx[v := r], rest), Den(roots, ctx[v := r], b))
    ensures DenStep(roots, ctx, v, rest + b)(r) == CrossAfter(DenStep(roots, ctx, v, rest), Den(roots, ctx, b))(r)
  {
    assert v in [v];
    DenIgnores(roots, ctx, v, r, b);
    CrossAssoc(Own(r), Den(roots, ctx[v := r], rest), Den(roots, ctx, b));
  }

  lemma DenProductCons(roots: seq<Rec>, ctx: Ctx, v: Path, rest: seq<Path>, b: seq<Path>)
    requires forall r :: r in Cands(roots, ctx, v) ==>
      DenStep(roots, ctx, v, rest + b)(r) == CrossAfter(DenStep(roots, ctx, v, rest), Den(roots, ctx, b))(r)
    ensures Den(roots, ctx, [v] + (rest + b)) == Cross(Den(roots, ctx, [v] + rest), Den(roots, ctx, b))
  {
    var f, db := DenStep(roots, ctx, v, rest), Den(roots, ctx, b);
    FlatMapSame(Cands(roots, ctx, v), DenStep(roots, ctx, v, rest + b), CrossAfter(f, db));
    CrossFlatMapLeft(Cands(roots, ctx, v), f, db);
    DenUnfold(roots, ctx, v, rest);
    DenUnfold(roots, ctx, v, rest + b);
  }

  lemma Uncons<T>(a: seq<T>, b: seq<T>) returns (v: T, rest: seq<T>)
    requires a != []
    ensures a == [v] + rest && a + b == [v] + (rest + b) && v == a[0]
    ensures v in a && forall x :: x in rest ==> x in a
  {
    v, rest := a[0], a[1..];
    assert a == [v] + rest;
  }

  /** Independent nests of loops form a Cartesian product. */
  lemma {:induction false} DenProduct(roots: seq<Rec>, ctx: Ctx, a: seq<Path>, b: seq<Path>)
    requires Independent(a, b)
    ensures Den(roots, ctx, a + b) == Cross(Den(roots, ctx, a), Den(roots, ctx, b))
    decreases |a|
  {
    if a == [] {
      assert a + b == b;
      CrossUnit(Den(roots, ctx, b));
    } else {
      var v, rest := Uncons(a, b);
      forall r | r in Cands(roots, ctx, v)
        ensures DenStep(roots, ctx, v, rest + b)(r) == CrossAfter(DenStep(roots, ctx, v, rest), Den(roots, ctx, b))(r)
      {
        DenProduct(roots, ctx[v := r], rest, b);
        DenProductStep(roots, ctx, v, r, rest, b);
      }
      DenProductCons(roots, ctx, v, rest, b);
    }
  }

  //
  // Materialization
  //

  /** One context per combination of records of the nodes `srcs`: a nested loop. */
  function Iter(roots: seq<Rec>, ctx: Ctx, srcs: seq<Path>): seq<Ctx>
    decreases |srcs|
  {
    if srcs == [] then [ctx]
    else FlatMap(Cands(roots, ctx, srcs[0]), r => Iter(roots, ctx[srcs[0] := r], srcs[1..]))
  }

  function IterStep(roots: seq<Rec>, ctx: Ctx, v: Path, rest: seq<Path>): Rec -> seq<Ctx> {
    r => Iter(roots, ctx[v := r], rest)
  }

  lemma {:induction false} IterUnfold(roots: seq<Rec>, ctx: Ctx, v: Path, rest: seq<Path>)
    ensures Iter(roots, ctx, [v] + rest) == FlatMap(Cands(roots, ctx, v), IterStep(roots, ctx, v, rest))
  {
    assert ([v] + rest)[1..] == rest;
    FlatMapSame(Cands(roots, ctx, v), r => Iter(roots, ctx[v := r], rest), IterStep(roots, ctx, v, rest));
  }

  lemma FlatMapMember<T, U>(s: seq<T>, f: T -> seq<U>, y: U)
    requires y in FlatMap(s, f)
    ensures exists x :: x in s && y in f(x)
  {
    if y in f(s[0]) {
      assert s[0] in s;
    } else {
      FlatMapMember(s[1..], f, y);
      var x :| x in s[1..] && y in f(x);
      assert x in s;
    }
  }

  /** A context met by the loops differs from the one they started in only at their nodes,
      and binds every one of them. */
  lemma {:induction false} IterBinds(roots: seq<Rec>, ctx: Ctx, srcs: seq<Path>, c: Ctx)
    requires c in Iter(roots, ctx, srcs)
    ensures c.Keys == ctx.Keys + set v | v in srcs
    ensures forall p :: p !in srcs ==> AgreeAt(ctx, c, p)
    decreases |srcs|
  {
    if srcs != [] {
      var v, rest := srcs[0], srcs[1..];
      assert srcs == [v] + rest;
      IterUnfold(roots, ctx, v, rest);
      FlatMapMember(Cands(roots, ctx, v), IterStep(roots, ctx, v, rest), c);
      var r :| r in Cands(roots, ctx, v) && c in IterStep(roots, ctx, v, rest)(r);
      IterBinds(roots, ctx[v := r], rest, c);
      forall p | p !in srcs ensures AgreeAt(ctx, c, p) {
        assert p !in rest && p != v;
        assert AgreeAt(ctx[v := r], c, p);
      }
      assert v in srcs && forall x :: x in srcs <==> x == v || x in rest;
    }
  }

  function At(ctx: Ctx, v: Path): Rec {
    if v in ctx then ctx[v] else Rec(map[], 1, [])
  }

  /** The payload of an output record: the columns of every record it combines. */
  function ValsOf(ctx: Ctx, srcs: seq<Path>): Tuple {
    if srcs == [] then map[] else At(ctx, srcs[0]).vals + ValsOf(ctx, srcs[1..])
  }

  /** The multiplicity of an output record: the product of those it combines. */
  function WeightOf(ctx: Ctx, srcs: seq<Path>): nat {
    if srcs == [] then 1 else At(ctx, srcs[0]).weight * WeightOf(ctx, srcs[1..])
  }

  function OwnOf(ctx: Ctx, srcs: seq<Path>): seq<Tuple> {
    if srcs == [] then [map[]] else Cross(Own(At(ctx, srcs[0])), OwnOf(ctx, srcs[1..]))
  }

  /** `n` copies of one tuple. */
  function Copies(n: nat, t: Tuple): (s: seq<Tuple>)
    ensures |s| == n && forall i :: 0 <= i < n ==> s[i] == t
  {
    seq(n, i => t)
  }

  lemma {:induction false} LeafFlat(t: Tuple, w: nat)
    ensures Flat(Rec(t, w, [])) == Copies(w, t)
  {
    CrossUnit(Own(Rec(t, w, [])));
  }

  lemma LeafOne(t: Tuple)
    ensures FlatAll([Rec(t, 1, [])]) == [t]
  {
    LeafFlat(t, 1);
    assert Copies(1, t) == [t];
    assert FlatAll([Rec(t, 1, [])]) == Flat(Rec(t, 1, [])) + FlatAll([]);
  }

  lemma CrossCopies(m: nat, t: Tuple, n: nat, u: Tuple)
    ensures Cross(Copies(m, t), Copies(n, u)) == Copies(m * n, t + u)
  {
    if m != 0 {
      assert Copies(m, t)[1..] == Copies(m - 1, t);
      CrossCopies(m - 1, t, n, u);
      assert m * n == n + (m - 1) * n;
      assert Prefix(t, Copies(n, u)) + Copies((m - 1) * n, t + u) == Copies(m * n, t + u);
    }
  }

  lemma OwnOfIsOwn(ctx: Ctx, srcs: seq<Path>)
    ensures OwnOf(ctx, srcs) == Copies(WeightOf(ctx, srcs), ValsOf(ctx, srcs))
  {
    if srcs != [] {
      OwnOfIsOwn(ctx, srcs[1..]);
      var r := At(ctx, srcs[0]);
      assert Own(r) == Copies(r.weight, r.vals);
      CrossCopies(r.weight, r.vals, WeightOf(ctx, srcs[1..]), ValsOf(ctx, srcs[1..]));
    }
  }

  /** The output record for node `n` under the records fixed in `ctx`. */
  function MatNode(roots: seq<Rec>, ctx: Ctx, n: FNode): Rec
    decreases n, 0
  {
    Rec(ValsOf(ctx, n.sources), WeightOf(ctx, n.sources), MatChildren(roots, ctx, n.children))
  }

  function MatChildren(roots: seq<Rec>, ctx: Ctx, ns: seq<FNode>): (s: seq<Slot>)
    ensures |s| == |ns|
    decreases ns, 0
  {
    if ns == [] then [] else [Slot(MatAll(roots, ctx, ns[0]))] + MatChildren(roots, ctx, ns[1..])
  }

  /** All output records for node `n`: one per combination of its sources. */
  function MatAll(roots: seq<Rec>, ctx: Ctx, n: FNode): seq<Rec>
    decreases n, 1
  {
    FlatMap(Iter(roots, ctx, n.sources), c => [MatNode(roots, c, n)])
  }

  /** The order in which the nodes of an output tree draw on the input. */
  function Order(n: FNode): seq<Path>
    decreases n
  {
    n.sources + OrderAll(n.children)
  }

  function OrderAll(ns: seq<FNode>): seq<Path>
    decreases ns
  {
    if ns == [] then [] else Order(ns[0]) + OrderAll(ns[1..])
  }

  ghost predicate Separated(n: FNode)
    decreases n
  {
    NoDup(n.sources) && SeparatedAll(n.children)
  }

  /** Siblings draw on independent parts of the input. */
  ghost predicate SeparatedAll(ns: seq<FNode>)
    decreases ns
  {
    ns != [] ==> Separated(ns[0]) && Independent(Order(ns[0]), OrderAll(ns[1..])) && SeparatedAll(ns[1..])
  }

  /** What one combination of `srcs` contributes, with the loops of `rest` inside it. */
  function CtxBody(roots: seq<Rec>, srcs: seq<Path>, rest: seq<Path>): Ctx -> seq<Tuple> {
    c => Cross(OwnOf(c, srcs), Den(roots, c, rest))
  }

  lemma {:induction false} IterDenStep(roots: seq<Rec>, ctx: Ctx, v: Path, r: Rec, s: seq<Path>, rest: seq<Path>)
    requires v !in s
    requires Perm(FlatMap(Iter(roots, ctx[v := r], s), CtxBody(roots, s, rest)), Den(roots, ctx[v := r], s + rest))
    ensures Perm(FlatMap(Iter(roots, ctx[v := r], s), CtxBody(roots, [v] + s, rest)),
                 DenStep(roots, ctx, v, s + rest)(r))
  {
    var inner := Iter(roots, ctx[v := r], s);
    var body, tail := CtxBody(roots, [v] + s, rest), CtxBody(roots, s, rest);
    forall c | c in inner ensures body(c) == Cross(Own(r), tail(c)) {
      IterBinds(roots, ctx[v := r], s, c);
      assert AgreeAt(ctx[v := r], c, v);
      assert ([v] + s)[1..] == s;
      CrossAssoc(Own(r), OwnOf(c, s), Den(roots, c, rest));
    }
    FlatMapSame(inner, body, CrossBefore(Own(r), tail));
    CrossFlatMapRight(Own(r), inner, tail);
    CrossCongRight(Own(r), FlatMap(inner, tail), Den(roots, ctx[v := r], s + rest));
  }

  lemma {:induction false} IterDen(roots: seq<Rec>, ctx: Ctx, srcs: seq<Path>, rest: seq<Path>)
    requires NoDup(srcs)
    ensures Perm(FlatMap(Iter(roots, ctx, srcs), CtxBody(roots, srcs, rest)), Den(roots, ctx, srcs + rest))
    decreases |srcs|
  {
    var body := CtxBody(roots, srcs, rest);
    if srcs == [] {
      assert srcs + rest == rest;
      CrossUnit(Den(roots, ctx, rest));
      assert FlatMap([ctx], body) == body(ctx);
    } else {
      var v, s := srcs[0], srcs[1..];
      assert srcs == [v] + s && srcs + rest == [v] + (s + rest);
      var cands, step := Cands(roots, ctx, v), DenStep(roots, ctx, v, s + rest);
      var outer := Then(IterStep(roots, ctx, v, s), body);
      forall r | r in cands ensures Perm(outer(r), step(r)) {
        IterDen(roots, ctx[v := r], s, rest);
        IterDenStep(roots, ctx, v, r, s, rest);
      }
      FlatMapCong(cands, outer, step);
      IterUnfold(roots, ctx, v, s);
      FlatMapNest(cands, IterStep(roots, ctx, v, s), body);
      DenUnfold(roots, ctx, v, s + rest);
    }
  }

  /** Materializing a tree yields the bag of the loops over its nodes in order. */
  lemma {:induction false} MatMeaning(roots: seq<Rec>, ctx: Ctx, n: FNode)
    requires Separated(n)
    ensures Perm(FlatAll(MatAll(roots, ctx, n)), Den(roots, ctx, Order(n)))
    decreases n
  {
    var iter, rest := Iter(roots, ctx, n.sources), OrderAll(n.children);
    var make := c => MatNode(roots, c, n);
    FlatMapSame(iter, c => [MatNode(roots, c, n)], One(make));
    FlatAllBuilt(iter, make);
    var got := FlatOf(make);
    forall c | c in iter ensures Perm(got(c), CtxBody(roots, n.sources, rest)(c)) {
      OwnOfIsOwn(c, n.sources);
      assert Own(make(c)) == OwnOf(c, n.sources);
      MatChildrenMeaning(roots, c, n.children);
      CrossCongRight(OwnOf(c, n.sources), FlatSlots(MatChildren(roots, c, n.children)), Den(roots, c, rest));
    }
    FlatMapCong(iter, got, CtxBody(roots, n.sources, rest));
    IterDen(roots, ctx, n.sources, rest);
  }

  lemma {:induction false} MatChildrenMeaning(roots: seq<Rec>, ctx: Ctx, ns: seq<FNode>)
    requires SeparatedAll(ns)
    ensures Perm(FlatSlots(MatChildren(roots, ctx, ns)), Den(roots, ctx, OrderAll(ns)))
    decreases ns
  {
    if ns != [] {
      MatMeaning(roots, ctx, ns[0]);
      MatChildrenMeaning(roots, ctx, ns[1..]);
      assert MatChildren(roots, ctx, ns)[1..] == MatChildren(roots, ctx, ns[1..]);
      CrossCong(FlatAll(MatAll(roots, ctx, ns[0])), Den(roots, ctx, Order(ns[0])),
                FlatSlots(MatChildren(roots, ctx, ns[1..])), Den(roots, ctx, OrderAll(ns[1..])));
      DenProduct(roots, ctx, Order(ns[0]), OrderAll(ns[1..]));
    }
  }
}
