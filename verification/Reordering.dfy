/** Loops over the nodes of an f-representation may be nested in any order that fixes
    parents before children. */
module Reordering {
  import opened Bags
  import opened FReps
  import opened FTrees
  import opened Flattening

  function NodeAt(t: FNode, p: Path): Option<FNode>
    decreases |p|
  {
    if p == [] then Some(t)
    else if p[0] < |t.children| then NodeAt(t.children[p[0]], p[1..])
    else None
  }

  /** The record has the attributes and the slots of node `n`, and so do its descendants. */
  ghost predicate Conforms(r: Rec, n: FNode)
    decreases n
  {
    && r.vals.Keys == n.attrs
    && |r.slots| == |n.children|
    && forall i, c :: 0 <= i < |n.children| && c in r.slots[i].recs ==> Conforms(c, n.children[i])
  }

  ghost predicate ConformsAll(rs: seq<Rec>, n: FNode) {
    forall r :: r in rs ==> Conforms(r, n)
  }

  /** Every attribute is stored at one node only. */
  ghost predicate AttrsDisjoint(t: FNode) {
    forall p, q :: p != q && NodeAt(t, p).Some? && NodeAt(t, q).Some? ==>
      NodeAt(t, p).value.attrs !! NodeAt(t, q).value.attrs
  }

  ghost predicate Typed(ctx: Ctx, t: FNode) {
    forall p :: p in ctx ==> NodeAt(t, p).Some? && Conforms(ctx[p], NodeAt(t, p).value)
  }

  lemma {:induction false} NodeAtStep(t: FNode, p: Path)
    requires p != []
    ensures NodeAt(t, p) == match NodeAt(t, Parent(p))
                            case None => None
                            case Some(n) => if Last(p) < |n.children| then Some(n.children[Last(p)]) else None
    decreases |p|
  {
    if |p| == 1 {
      assert p[1..] == [];
    } else if p[0] < |t.children| {
      NodeAtStep(t.children[p[0]], p[1..]);
      assert Parent(p)[1..] == Parent(p[1..]);
    }
  }

  lemma CandsTyped(roots: seq<Rec>, ctx: Ctx, t: FNode, v: Path)
    requires ConformsAll(roots, t) && Typed(ctx, t)
    ensures forall r :: r in Cands(roots, ctx, v) ==> NodeAt(t, v).Some? && Conforms(r, NodeAt(t, v).value)
  {
    if v != [] { NodeAtStep(t, v); }
  }

  lemma DenCong(roots: seq<Rec>, ctx: Ctx, v: Path, x: seq<Path>, y: seq<Path>)
    requires forall r :: r in Cands(roots, ctx, v) ==> Perm(Den(roots, ctx[v := r], x), Den(roots, ctx[v := r], y))
    ensures Perm(Den(roots, ctx, [v] + x), Den(roots, ctx, [v] + y))
  {
    DenUnfold(roots, ctx, v, x);
    DenUnfold(roots, ctx, v, y);
    var f, g := DenStep(roots, ctx, v, x), DenStep(roots, ctx, v, y);
    forall r | r in Cands(roots, ctx, v) ensures Perm(f(r), g(r)) {
      CrossCongRight(Own(r), Den(roots, ctx[v := r], x), Den(roots, ctx[v := r], y));
    }
    FlatMapCong(Cands(roots, ctx, v), f, g);
  }

  ghost predicate Unrelated(a: Path, b: Path) {
    a != b && (a != [] ==> Parent(a) != b) && (b != [] ==> Parent(b) != a)
  }

  function PairBody(roots: seq<Rec>, ctx: Ctx, a: Path, b: Path, rest: seq<Path>): (Rec, Rec) -> seq<Tuple> {
    (ra, rb) => Cross(Own(ra), Cross(Own(rb), Den(roots, ctx[a := ra][b := rb], rest)))
  }

  lemma DenTwoStep(roots: seq<Rec>, ctx: Ctx, a: Path, ra: Rec, b: Path, rest: seq<Path>)
    requires Unrelated(a, b)
    ensures Perm(DenStep(roots, ctx, a, [b] + rest)(ra),
                 Inner1(PairBody(roots, ctx, a, b, rest), Cands(roots, ctx, b))(ra))
  {
    var cb, f := Cands(roots, ctx, b), DenStep(roots, ctx[a := ra], b, rest);
    DenUnfold(roots, ctx[a := ra], b, rest);
    assert Cands(roots, ctx[a := ra], b) == cb;
    CrossFlatMapRight(Own(ra), cb, f);
    FlatMapSame(cb, CrossBefore(Own(ra), f), Fix1(PairBody(roots, ctx, a, b, rest), ra));
  }

  lemma DenTwo(roots: seq<Rec>, ctx: Ctx, a: Path, b: Path, rest: seq<Path>)
    requires Unrelated(a, b)
    ensures Perm(Den(roots, ctx, [a] + ([b] + rest)),
                 FlatMap(Cands(roots, ctx, a), Inner1(PairBody(roots, ctx, a, b, rest), Cands(roots, ctx, b))))
  {
    var ca, body := Cands(roots, ctx, a), Inner1(PairBody(roots, ctx, a, b, rest), Cands(roots, ctx, b));
    forall ra | ra in ca ensures Perm(DenStep(roots, ctx, a, [b] + rest)(ra), body(ra)) {
      DenTwoStep(roots, ctx, a, ra, b, rest);
    }
    FlatMapCong(ca, DenStep(roots, ctx, a, [b] + rest), body);
    DenUnfold(roots, ctx, a, [b] + rest);
  }

  lemma PairBodySwap(roots: seq<Rec>, ctx: Ctx, a: Path, ra: Rec, b: Path, rb: Rec, rest: seq<Path>)
    requires a != b && ra.vals.Keys !! rb.vals.Keys
    ensures Perm(PairBody(roots, ctx, a, b, rest)(ra, rb), PairBody(roots, ctx, b, a, rest)(rb, ra))
  {
    assert ctx[a := ra][b := rb] == ctx[b := rb][a := ra];
    var d := Den(roots, ctx[a := ra][b := rb], rest);
    CrossAssoc(Own(ra), Own(rb), d);
    CrossAssoc(Own(rb), Own(ra), d);
    CrossComm(Own(ra), Own(rb));
    CrossCongLeft(Cross(Own(ra), Own(rb)), Cross(Own(rb), Own(ra)), d);
  }

  /** Two neighbouring loops over unrelated nodes may be exchanged. */
  lemma DenSwap(roots: seq<Rec>, ctx: Ctx, t: FNode, a: Path, b: Path, rest: seq<Path>)
    requires ConformsAll(roots, t) && Typed(ctx, t) && AttrsDisjoint(t)
    requires Unrelated(a, b)
    ensures Perm(Den(roots, ctx, [a] + ([b] + rest)), Den(roots, ctx, [b] + ([a] + rest)))
  {
    var ca, cb := Cands(roots, ctx, a), Cands(roots, ctx, b);
    var g, h := PairBody(roots, ctx, a, b, rest), PairBody(roots, ctx, b, a, rest);
    DenTwo(roots, ctx, a, b, rest);
    DenTwo(roots, ctx, b, a, rest);
    FlatMapExchange(ca, cb, g);
    CandsTyped(roots, ctx, t, a);
    CandsTyped(roots, ctx, t, b);
    forall rb | rb in cb ensures Perm(Inner2(g, ca)(rb), Inner1(h, ca)(rb)) {
      forall ra | ra in ca ensures Perm(Fix2(g, rb)(ra), Fix1(h, rb)(ra)) {
        PairBodySwap(roots, ctx, a, ra, b, rb, rest);
      }
      FlatMapCong(ca, Fix2(g, rb), Fix1(h, rb));
    }
    FlatMapCong(cb, Inner2(g, ca), Inner1(h, ca));
  }

  lemma {:induction false} MoveToFront(roots: seq<Rec>, ctx: Ctx, t: FNode, pre: seq<Path>, v: Path, post: seq<Path>)
    requires ConformsAll(roots, t) && Typed(ctx, t) && AttrsDisjoint(t)
    requires forall u :: u in pre ==> Unrelated(u, v)
    ensures Perm(Den(roots, ctx, pre + ([v] + post)), Den(roots, ctx, [v] + (pre + post)))
    decreases |pre|
  {
    if pre == [] {
      assert pre + ([v] + post) == [v] + (pre + post);
    } else {
      var u, p := pre[0], pre[1..];
      assert pre + ([v] + post) == [u] + (p + ([v] + post));
      assert [v] + (pre + post) == [v] + ([u] + (p + post));
      assert u in pre && forall x :: x in p ==> x in pre;
      CandsTyped(roots, ctx, t, u);
      forall r | r in Cands(roots, ctx, u)
        ensures Perm(Den(roots, ctx[u := r], p + ([v] + post)), Den(roots, ctx[u := r], [v] + (p + post)))
      {
        MoveToFront(roots, ctx[u := r], t, p, v, post);
      }
      DenCong(roots, ctx, u, p + ([v] + post), [v] + (p + post));
      DenSwap(roots, ctx, t, u, v, p + post);
    }
  }

  /** Every node of `order` comes after its parent, the nodes in `bound` being fixed already. */
  ghost predicate Topological(order: seq<Path>, bound: set<Path>)
    decreases |order|
  {
    order == [] ||
    ((order[0] == [] || Parent(order[0]) in bound) && Topological(order[1..], bound + {order[0]}))
  }

  lemma TopologicalMonotone(order: seq<Path>, small: set<Path>, large: set<Path>)
    requires small <= large && Topological(order, small)
    ensures Topological(order, large)
    decreases |order|
  {
    if order != [] {
      TopologicalMonotone(order[1..], small + {order[0]}, large + {order[0]});
    }
  }

  lemma {:induction false} TopologicalAppend(a: seq<Path>, b: seq<Path>, bound: set<Path>)
    ensures Topological(a + b, bound) <==> Topological(a, bound) && Topological(b, bound + set v | v in a)
    decreases |a|
  {
    if a == [] {
      assert a + b == b;
      assert bound + (set v | v in a) == bound;
    } else {
      assert (a + b)[1..] == a[1..] + b;
      TopologicalAppend(a[1..], b, bound + {a[0]});
      assert forall v :: v in a <==> v == a[0] || v in a[1..];
      assert bound + {a[0]} + (set v | v in a[1..]) == bound + set v | v in a;
    }
  }

  lemma {:induction false} TopologicalParents(order: seq<Path>, bound: set<Path>, w: Path)
    requires Topological(order, bound) && w in order && w != []
    ensures Parent(w) in bound || Parent(w) in order
    decreases |order|
  {
    if w != order[0] {
      assert w in order[1..];
      TopologicalParents(order[1..], bound + {order[0]}, w);
      assert forall x :: x in order[1..] ==> x in order;
    }
  }

  lemma TopologicalWithout(pre: seq<Path>, v: Path, post: seq<Path>, bound: set<Path>)
    requires Topological(pre + ([v] + post), bound)
    ensures Topological(pre + post, bound + {v})
  {
    var p := set x | x in pre;
    TopologicalAppend(pre, [v] + post, bound);
    TopologicalAppend([v], post, bound + p);
    TopologicalMonotone(pre, bound, bound + {v});
    assert bound + p + (set x | x in [v]) == bound + {v} + p;
    TopologicalAppend(pre, post, bound + {v});
  }

  lemma NoDupWithout<T>(pre: seq<T>, v: T, post: seq<T>)
    requires NoDup(pre + ([v] + post))
    ensures NoDup(pre + post) && v !in pre + post
  {
    var s := pre + ([v] + post);
    assert s[|pre|] == v;
    forall i, j | 0 <= i < j < |pre + post| ensures (pre + post)[i] != (pre + post)[j] {
      var i' := if i < |pre| then i else i + 1;
      var j' := if j < |pre| then j else j + 1;
      assert s[i'] == (pre + post)[i] && s[j'] == (pre + post)[j];
    }
    forall i | 0 <= i < |pre + post| ensures (pre + post)[i] != v {
      var i' := if i < |pre| then i else i + 1;
      assert s[i'] == (pre + post)[i];
    }
  }

  /** Before `v`, whose parent is already fixed, no loop has anything to do with it. */
  lemma UnrelatedBefore(pre: seq<Path>, v: Path, post: seq<Path>, bound: set<Path>, u: Path)
    requires Topological(pre + ([v] + post), bound) && NoDup(pre + ([v] + post))
    requires v == [] || Parent(v) in bound
    requires v !in bound && forall x :: x in pre ==> x !in bound
    requires u in pre
    ensures Unrelated(u, v)
  {
    NoDupWithout(pre, v, post);
    TopologicalAppend(pre, [v] + post, bound);
    assert u in pre + post && forall x :: x in pre ==> x in pre + post;
    if u != [] { TopologicalParents(pre, bound, u); }
  }

  ghost predicate Schedule(order: seq<Path>, bound: set<Path>) {
    Topological(order, bound) && NoDup(order) && forall v :: v in order ==> v !in bound
  }

  lemma ScheduleWithout(pre: seq<Path>, v: Path, post: seq<Path>, bound: set<Path>)
    requires Schedule(pre + ([v] + post), bound)
    ensures Schedule(pre + post, bound + {v})
  {
    NoDupWithout(pre, v, post);
    TopologicalWithout(pre, v, post, bound);
    forall x | x in pre + post ensures x !in bound + {v} {
      assert x in pre + ([v] + post);
    }
  }

  lemma ScheduleTail(v: Path, rest: seq<Path>, bound: set<Path>)
    requires Schedule([v] + rest, bound)
    ensures Schedule(rest, bound + {v}) && v !in bound && (v != [] ==> Parent(v) in bound)
  {
    assert [] + ([v] + rest) == [v] + rest && [] + rest == rest;
    ScheduleWithout([], v, rest, bound);
    assert v in [v] + rest;
  }

  lemma SplitAt<T>(s: seq<T>, i: nat)
    requires i < |s|
    ensures s == s[..i] + ([s[i]] + s[i + 1..])
  {}

  /** Finds the first node of one schedule in the other. */
  lemma ScheduleSplit(a: seq<Path>, b: seq<Path>, bound: set<Path>)
      returns (v: Path, rest: seq<Path>, pre: seq<Path>, post: seq<Path>)
    requires Schedule(a, bound) && Schedule(b, bound) && Perm(a, b) && a != []
    ensures a == [v] + rest && b == pre + ([v] + post)
    ensures Schedule(rest, bound + {v}) && Schedule(pre + post, bound + {v}) && Perm(rest, pre + post)
    ensures forall u :: u in pre ==> Unrelated(u, v)
  {
    var i := PermSplit(a, b);
    v, rest, pre, post := a[0], a[1..], b[..i], b[i + 1..];
    SplitAt(b, i);
    assert a == [v] + rest;
    ScheduleTail(v, rest, bound);
    ScheduleWithout(pre, v, post, bound);
    forall u | u in pre ensures Unrelated(u, v) {
      assert forall x :: x in pre ==> x in pre + ([v] + post);
      UnrelatedBefore(pre, v, post, bound, u);
    }
  }

  /** Any two orders of the same nodes that fix parents before children nest the same loops. */
  lemma {:induction false} Reorder(roots: seq<Rec>, ctx: Ctx, t: FNode, a: seq<Path>, b: seq<Path>)
    requires ConformsAll(roots, t) && Typed(ctx, t) && AttrsDisjoint(t)
    requires Schedule(a, ctx.Keys) && Schedule(b, ctx.Keys) && Perm(a, b)
    ensures Perm(Den(roots, ctx, a), Den(roots, ctx, b))
    decreases |a|
  {
    if a == [] {
      PermLength(a, b);
    } else {
      hide Perm, Den, Cands, Schedule, AttrsDisjoint, ConformsAll;
      var v, rest, pre, post := ScheduleSplit(a, b, ctx.Keys);
      assert |rest| < |a|;
      CandsTyped(roots, ctx, t, v);
      forall r | r in Cands(roots, ctx, v)
        ensures Perm(Den(roots, ctx[v := r], rest), Den(roots, ctx[v := r], pre + post))
      {
        assert ctx[v := r].Keys == ctx.Keys + {v};
        Reorder(roots, ctx[v := r], t, rest, pre + post);
      }
      FirstThenRest(roots, ctx, t, v, rest, pre, post);
    }
  }

  /** Two orders agree when they agree once a node is fixed first. */
  lemma FirstThenRest(roots: seq<Rec>, ctx: Ctx, t: FNode, v: Path, rest: seq<Path>, pre: seq<Path>, post: seq<Path>)
    requires ConformsAll(roots, t) && Typed(ctx, t) && AttrsDisjoint(t) && forall u :: u in pre ==> Unrelated(u, v)
    requires forall r :: r in Cands(roots, ctx, v) ==> Perm(Den(roots, ctx[v := r], rest), Den(roots, ctx[v := r], pre + post))
    ensures Perm(Den(roots, ctx, [v] + rest), Den(roots, ctx, pre + ([v] + post)))
  {
    hide Den, Cands, Typed, AttrsDisjoint, ConformsAll;
    MoveToFront(roots, ctx, t, pre, v, post);
    DenCong(roots, ctx, v, rest, pre + post);
  }
}
