/** Values stay within the widths their columns are stored in. */
module Ranges {
  import opened Bags
  import opened FReps
  import opened FTrees
  import opened Flattening
  import opened FlatJoins
  import opened Joins
  import opened Instances
  import opened KeyPacking

  type Types = map<Attr, ValueType>

  ghost predicate TupleRanged(t: Tuple, types: Types) {
    forall a :: a in t ==> a in types && InRange(types[a], t[a])
  }

  ghost predicate Ranged(r: Rec, types: Types)
    decreases r
  {
    TupleRanged(r.vals, types)
    && forall i, c :: 0 <= i < |r.slots| && c in r.slots[i].recs ==> Ranged(c, types)
  }

  ghost predicate RangedAll(rs: seq<Rec>, types: Types) {
    forall r :: r in rs ==> Ranged(r, types)
  }

  ghost predicate CtxRanged(c: Ctx, types: Types) {
    forall p :: p in c ==> Ranged(c[p], types)
  }

  lemma CandsRanged(roots: seq<Rec>, ctx: Ctx, types: Types, v: Path)
    requires RangedAll(roots, types) && CtxRanged(ctx, types)
    ensures RangedAll(Cands(roots, ctx, v), types)
  {}

  lemma {:induction false} IterRanged(roots: seq<Rec>, ctx: Ctx, types: Types, srcs: seq<Path>, c: Ctx)
    requires RangedAll(roots, types) && CtxRanged(ctx, types) && c in Iter(roots, ctx, srcs)
    ensures CtxRanged(c, types)
    decreases |srcs|
  {
    if srcs != [] {
      var v, rest := srcs[0], srcs[1..];
      assert srcs == [v] + rest;
      IterUnfold(roots, ctx, v, rest);
      FlatMapMember(Cands(roots, ctx, v), IterStep(roots, ctx, v, rest), c);
      var r :| r in Cands(roots, ctx, v) && c in IterStep(roots, ctx, v, rest)(r);
      CandsRanged(roots, ctx, types, v);
      IterRanged(roots, ctx[v := r], types, rest, c);
    }
  }

  lemma ValsRanged(c: Ctx, types: Types, srcs: seq<Path>)
    requires CtxRanged(c, types)
    ensures TupleRanged(ValsOf(c, srcs), types)
  {
    if srcs != [] { ValsRanged(c, types, srcs[1..]); }
  }

  lemma {:induction false} MatRanged(roots: seq<Rec>, ctx: Ctx, types: Types, n: FNode)
    requires RangedAll(roots, types) && CtxRanged(ctx, types)
    ensures RangedAll(MatAll(roots, ctx, n), types)
    decreases n, 1
  {
    var body := c => [MatNode(roots, c, n)];
    forall r | r in MatAll(roots, ctx, n) ensures Ranged(r, types) {
      FlatMapMember(Iter(roots, ctx, n.sources), body, r);
      var c :| c in Iter(roots, ctx, n.sources) && r in body(c);
      IterRanged(roots, ctx, types, n.sources, c);
      MatNodeRanged(roots, c, types, n);
    }
  }

  lemma {:induction false} MatNodeRanged(roots: seq<Rec>, c: Ctx, types: Types, n: FNode)
    requires RangedAll(roots, types) && CtxRanged(c, types)
    ensures Ranged(MatNode(roots, c, n), types)
    decreases n, 0
  {
    ValsRanged(c, types, n.sources);
    MatChildrenRanged(roots, c, types, n.children);
  }

  lemma {:induction false} MatChildrenRanged(roots: seq<Rec>, c: Ctx, types: Types, ns: seq<FNode>)
    requires RangedAll(roots, types) && CtxRanged(c, types)
    ensures forall i :: 0 <= i < |ns| ==> RangedAll(MatChildren(roots, c, ns)[i].recs, types)
    decreases ns
  {
    if ns != [] {
      MatRanged(roots, c, types, ns[0]);
      MatChildrenRanged(roots, c, types, ns[1..]);
    }
  }

  lemma SlotAppendedRanged(m: Rec, extra: seq<Rec>, types: Types)
    requires Ranged(m, types) && RangedAll(extra, types)
    ensures Ranged(m.(slots := m.slots + [Slot(extra)]), types)
  {}

  lemma SlotReplacedRanged(m: Rec, i: nat, recs: seq<Rec>, types: Types)
    requires Ranged(m, types) && i < |m.slots| && RangedAll(recs, types)
    ensures Ranged(m.(slots := m.slots[i := Slot(recs)]), types)
  {}

  lemma {:induction false} JoinRanged(roots: seq<Rec>, ctx: Ctx, types: Types, n: FNode, ins: Path, ka: seq<Attr>,
                                      answer: seq<int> -> seq<Rec>)
    requires RangedAll(roots, types) && CtxRanged(ctx, types) && forall k :: RangedAll(answer(k), types)
    ensures RangedAll(JoinAll(roots, ctx, n, ins, ka, answer), types)
    decreases n
  {
    hide Iter, MatChildren, ValsOf, Ranged;
    var body := c => [JoinNode(roots, c, n, ins, ka, answer)];
    forall r | r in JoinAll(roots, ctx, n, ins, ka, answer) ensures Ranged(r, types) {
      FlatMapMember(Iter(roots, ctx, n.sources), body, r);
      var c :| c in Iter(roots, ctx, n.sources) && r in body(c);
      IterRanged(roots, ctx, types, n.sources, c);
      MatNodeRanged(roots, c, types, n);
      var m := MatNode(roots, c, n);
      if ins == [] || ins[0] >= |n.children| {
        SlotAppendedRanged(m, answer(KeyOf(m.vals, ka)), types);
      } else {
        JoinRanged(roots, c, types, n.children[ins[0]], ins[1..], ka, answer);
        SlotReplacedRanged(m, ins[0], JoinAll(roots, c, n.children[ins[0]], ins[1..], ka, answer), types);
      }
    }
  }

  lemma {:induction false} PathIterRanged(roots: seq<Rec>, c: Ctx, types: Types, n: FNode, kp: Path, d: Ctx)
    requires RangedAll(roots, types) && CtxRanged(c, types) && d in PathIter(roots, c, n, kp)
    ensures CtxRanged(d, types)
    decreases n
  {
    FlatMapMember(Iter(roots, c, n.sources), PathIterBelow(roots, n, kp), d);
    var e :| e in Iter(roots, c, n.sources) && d in PathIterBelow(roots, n, kp)(e);
    IterRanged(roots, c, types, n.sources, e);
    if !(kp == [] || kp[0] >= |n.children|) {
      PathIterRanged(roots, e, types, n.children[kp[0]], kp[1..], d);
    }
  }

  lemma {:induction false} LowerRanged(roots: seq<Rec>, c: Ctx, types: Types, n: FNode, kp: Path)
    requires RangedAll(roots, types) && CtxRanged(c, types)
    ensures Ranged(LowerNode(roots, c, n, kp), types)
    decreases n
  {
    MatNodeRanged(roots, c, types, n);
    if !(kp == [] || kp[0] >= |n.children|) {
      LowerRanged(roots, c, types, n.children[kp[0]], kp[1..]);
    }
  }

  lemma {:induction false} EntriesRanged(roots: seq<Rec>, cs: seq<Ctx>, types: Types, n: FNode, kp: Path, kb: seq<Attr>)
    requires RangedAll(roots, types) && forall c :: c in cs ==> CtxRanged(c, types)
    ensures forall e :: e in EntriesOf(roots, cs, n, kp, kb) ==> Ranged(e.rec, types)
    decreases |cs|
  {
    if cs != [] {
      assert cs[0] in cs && forall d :: d in cs[1..] ==> d in cs;
      EntriesRanged(roots, cs[1..], types, n, kp, kb);
      LowerRanged(roots, cs[0], types, n, kp);
    }
  }

  lemma {:induction false} FiledRanged(es: seq<Entry>, k: seq<int>, types: Types, how: Comparing)
    requires forall e :: e in es ==> Ranged(e.rec, types)
    ensures RangedAll(Filed(es, k, how), types)
  {
    if es != [] {
      assert es[0] in es && forall e :: e in es[1..] ==> e in es;
      FiledRanged(es[1..], k, types, how);
    }
  }

  lemma {:induction false} PruneRanged(r: Rec, types: Types)
    requires Ranged(r, types)
    ensures Ranged(Prune(r), types)
    decreases r
  {
    PruneSlotsRanged(r.slots, types);
  }

  lemma {:induction false} PruneSlotsRanged(slots: seq<Slot>, types: Types)
    requires forall i :: 0 <= i < |slots| ==> RangedAll(slots[i].recs, types)
    ensures forall i :: 0 <= i < |slots| ==> RangedAll(PruneSlots(slots)[i].recs, types)
    decreases slots
  {
    if slots != [] {
      PruneAllRanged(slots[0].recs, types);
      PruneSlotsRanged(slots[1..], types);
    }
  }

  lemma {:induction false} PruneAllRanged(rs: seq<Rec>, types: Types)
    requires RangedAll(rs, types)
    ensures RangedAll(PruneAll(rs), types)
    decreases rs
  {
    if rs != [] {
      assert rs[0] in rs && forall r :: r in rs[1..] ==> r in rs;
      PruneAllRanged(rs[1..], types);
      PruneRanged(rs[0], types);
    }
  }

  //
  // Flat tuples
  //

  ghost predicate AllRanged(b: seq<Tuple>, types: Types) {
    forall t :: t in b ==> TupleRanged(t, types)
  }

  lemma CrossRanged(a: seq<Tuple>, b: seq<Tuple>, types: Types)
    requires AllRanged(a, types) && AllRanged(b, types)
    ensures AllRanged(Cross(a, b), types)
  {
    forall t | t in Cross(a, b) ensures TupleRanged(t, types) { CrossMembers(a, b, t); }
  }

  lemma {:induction false} FlatRanged(r: Rec, types: Types)
    requires Ranged(r, types)
    ensures AllRanged(Flat(r), types)
    decreases r
  {
    FlatSlotsRanged(r.slots, types);
    CrossRanged(Own(r), FlatSlots(r.slots), types);
  }

  lemma {:induction false} FlatSlotsRanged(slots: seq<Slot>, types: Types)
    requires forall i :: 0 <= i < |slots| ==> RangedAll(slots[i].recs, types)
    ensures AllRanged(FlatSlots(slots), types)
    decreases slots
  {
    if slots != [] {
      FlatAllRanged(slots[0].recs, types);
      FlatSlotsRanged(slots[1..], types);
      CrossRanged(FlatAll(slots[0].recs), FlatSlots(slots[1..]), types);
    }
  }

  lemma {:induction false} FlatAllRanged(rs: seq<Rec>, types: Types)
    requires RangedAll(rs, types)
    ensures AllRanged(FlatAll(rs), types)
    decreases rs
  {
    if rs != [] {
      assert rs[0] in rs && forall r :: r in rs[1..] ==> r in rs;
      FlatRanged(rs[0], types);
      FlatAllRanged(rs[1..], types);
    }
  }

  //
  // Packed keys
  //

  function TypeOf(types: Types, a: Attr): ValueType {
    if a in types then types[a] else INT64
  }

  function TypesOf(types: Types, keys: seq<Attr>): (ts: seq<ValueType>)
    ensures |ts| == |keys|
  {
    seq(|keys|, i requires 0 <= i < |keys| => TypeOf(types, keys[i]))
  }

  /** The packed word of a key. */
  function PackKey(types: Types, keys: seq<Attr>, k: seq<int>): nat {
    Word(TypesOf(types, keys), k)
  }

  /** The packed keys of both sides fit a word. */
  predicate KeysFit(types: Types, ka: seq<Attr>, kb: seq<Attr>) {
    TotalBits(TypesOf(types, ka)) <= 64 && TotalBits(TypesOf(types, kb)) <= 64
  }

  /** Keys are compared by the words they pack into. */
  function ByWords(types: Types, ka: seq<Attr>, kb: seq<Attr>): Comparing {
    ByWord(TypesOf(types, ka), TypesOf(types, kb))
  }

  /** A single key always fits. */
  lemma OneKeyFits(types: Types, keys: seq<Attr>)
    requires |keys| == 1
    ensures TotalBits(TypesOf(types, keys)) <= 64
  {
    assert TypesOf(types, keys)[1..] == [];
  }
}
