/** The output of a factorized join, as a relation: its tree, its records, its meaning. */
module FactorizedJoins {
  import opened Bags
  import opened FReps
  import opened FTrees
  import opened Flattening
  import opened Reordering
  import opened Restructuring
  import opened Transforming
  import opened FlatJoins
  import opened Joins
  import opened Instances

  //
  // Where a key is stored
  //

  /** The first node holding an attribute, in depth-first order. */
  function LevelOf(n: FNode, k: Attr): Option<Path>
    decreases n
  {
    if k in n.attrs then Some([]) else LevelOfAll(n.children, k, 0)
  }

  function LevelOfAll(ns: seq<FNode>, k: Attr, i: nat): Option<Path>
    decreases ns
  {
    if ns == [] then None
    else match LevelOf(ns[0], k)
      case Some(p) => Some([i] + p)
      case None => LevelOfAll(ns[1..], k, i + 1)
  }

  lemma {:induction false} LevelOfHolds(n: FNode, k: Attr)
    ensures LevelOf(n, k).Some? ==> NodeAt(n, LevelOf(n, k).value).Some? && k in NodeAt(n, LevelOf(n, k).value).value.attrs
    ensures LevelOf(n, k).None? ==> k !in AttrSet(n)
    decreases n
  {
    if k !in n.attrs {
      LevelOfAllHolds(n.children, k, 0);
    }
  }

  lemma {:induction false} LevelOfAllHolds(ns: seq<FNode>, k: Attr, i: nat)
    ensures match LevelOfAll(ns, k, i)
            case None => k !in AttrSetAll(ns)
            case Some(p) => p != [] && i <= p[0] < i + |ns| && NodeAt(ns[p[0] - i], p[1..]).Some?
                            && k in NodeAt(ns[p[0] - i], p[1..]).value.attrs
    decreases ns
  {
    if ns != [] {
      LevelOfHolds(ns[0], k);
      LevelOfAllHolds(ns[1..], k, i + 1);
    }
  }

  /** All keys are stored at one node. */
  predicate Converges(n: FNode, keys: seq<Attr>) {
    keys != [] ==> LevelOf(n, keys[0]).Some? && forall i :: 0 <= i < |keys| ==> LevelOf(n, keys[i]) == LevelOf(n, keys[0])
  }

  function KeyLevel(n: FNode, keys: seq<Attr>): Path
    requires Converges(n, keys)
  {
    if keys == [] then [] else LevelOf(n, keys[0]).value
  }

  lemma KeyLevelHolds(n: FNode, keys: seq<Attr>)
    requires Converges(n, keys)
    ensures KeysAt(n, KeyLevel(n, keys), keys)
  {
    if keys != [] { LevelOfHolds(n, keys[0]); }
    forall k | k in keys ensures k in NodeAt(n, KeyLevel(n, keys)).value.attrs {
      LevelOfHolds(n, k);
    }
  }

  //
  // The insertion node holds a key
  //

  lemma {:induction false} ChosenRequired(ns: seq<FNode>, keys: seq<Attr>)
    ensures Chosen(ns, keys) != [] <==> exists i :: 0 <= i < |ns| && Required(ns[i], keys)
    ensures forall c :: c in Chosen(ns, keys) ==> Required(c, keys)
  {
    if ns != [] {
      ChosenRequired(ns[1..], keys);
      if i :| 0 <= i < |ns| && Required(ns[i], keys) {
        if i > 0 { assert Required(ns[1..][i - 1], keys); }
      }
    }
  }

  lemma MergedRequired(ns: seq<FNode>, keys: seq<Attr>)
    requires ns != [] && Required(ns[0], keys)
    ensures Required(Merged(ns), keys)
  {
    if !HoldsKey(ns[0], keys) {
      var i :| 0 <= i < |ns[0].children| && Required(ns[0].children[i], keys);
      assert Merged(ns).children[i] == ns[0].children[i];
    }
  }

  lemma {:induction false} KeptCount(ns: seq<FNode>, keys: seq<Attr>, m: FNode)
    ensures (Kept(ns, keys) + [m])[|Kept(ns, keys)|] == m
  {}

  lemma {:induction false} MergeEndHoldsKey(n: FNode, keys: seq<Attr>)
    requires Required(n, keys)
    ensures NodeAt(MergeLevelwise(n, keys), MergeEnd(n, keys)).Some?
    ensures HoldsKey(NodeAt(MergeLevelwise(n, keys), MergeEnd(n, keys)).value, keys)
    decreases NodeCount(n)
  {
    var chosen := Chosen(n.children, keys);
    ChosenRequired(n.children, keys);
    if chosen != [] {
      MergeShrinks(n, keys);
      assert chosen[0] in chosen;
      MergedRequired(chosen, keys);
      MergeEndHoldsKey(Merged(chosen), keys);
      KeptCount(n.children, keys, MergeLevelwise(Merged(chosen), keys));
      assert MergeEnd(n, keys)[1..] == MergeEnd(Merged(chosen), keys);
    }
  }

  lemma {:induction false} LevelwiseHoldsKey(n: FNode, keys: seq<Attr>)
    requires Required(n, keys)
    ensures var (m, p) := Levelwise(n, keys); NodeAt(m, p).Some? && HoldsKey(NodeAt(m, p).value, keys)
    decreases n
  {
    if |Chosen(n.children, keys)| == 1 {
      var i := FirstRequired(n.children, keys);
      LevelwiseHoldsKey(n.children[i], keys);
      var (child, below) := Levelwise(n.children[i], keys);
      assert ([i] + below)[1..] == below;
    } else {
      MergeEndHoldsKey(n, keys);
    }
  }

  lemma {:induction false} AbsorbedHoldsKey(ns: seq<FNode>, i: nat, keys: seq<Attr>)
    requires i < |ns| && Required(ns[i], keys)
    ensures exists k :: k in keys && k in AbsorbedAttrs(ns, keys)
    decreases ns
  {
    if i > 0 {
      AbsorbedHoldsKey(ns[1..], i - 1, keys);
      var k :| k in keys && k in AbsorbedAttrs(ns[1..], keys);
      assert k in AbsorbedAttrs(ns, keys);
    } else if HoldsKey(ns[0], keys) {
      var k :| k in keys && k in ns[0].attrs;
      assert k in AbsorbedAttrs(ns, keys);
    } else {
      var j :| 0 <= j < |ns[0].children| && Required(ns[0].children[j], keys);
      AbsorbedHoldsKey(ns[0].children, j, keys);
      var k :| k in keys && k in AbsorbedAttrs(ns[0].children, keys);
      assert k in AbsorbedAttrs(ns, keys);
    }
  }

  /** The node a subtree is attached to is in the tree, and holds one of the join keys
      whenever the tree does. */
  lemma InsertionHoldsKey(t: FNode, keys: seq<Attr>, strategy: PathStrategy)
    ensures var (m, p) := CreateRootToLeafPath(t, keys, strategy);
            && NodeAt(m, p).Some?
            && (Required(t, keys) ==> HoldsKey(NodeAt(m, p).value, keys))
  {
    if Required(t, keys) {
      if strategy == LEVELWISE {
        LevelwiseHoldsKey(t, keys);
      } else if HoldsKey(t, keys) {
        var k :| k in keys && k in t.attrs;
        assert k in MergeNaive(t, keys).attrs;
      } else {
        var i :| 0 <= i < |t.children| && Required(t.children[i], keys);
        AbsorbedHoldsKey(t.children, i, keys);
      }
    }
  }

  lemma {:induction false} HeldIsRequired(n: FNode, keys: seq<Attr>, k: Attr)
    requires k in keys && k in AttrSet(n)
    ensures Required(n, keys)
    decreases n
  {
    if k !in n.attrs {
      HeldInChildren(n.children, keys, k);
    }
  }

  lemma {:induction false} HeldInChildren(ns: seq<FNode>, keys: seq<Attr>, k: Attr)
    requires k in keys && k in AttrSetAll(ns)
    ensures exists i :: 0 <= i < |ns| && Required(ns[i], keys)
    decreases ns
  {
    if k in AttrSet(ns[0]) {
      HeldIsRequired(ns[0], keys, k);
    } else {
      HeldInChildren(ns[1..], keys, k);
      var i :| 0 <= i < |ns[1..]| && Required(ns[1..][i], keys);
      assert Required(ns[i + 1], keys);
    }
  }

  /** Keys that converge at all converge at the insertion node. */
  lemma ConvergedAtInsertion(t: FNode, keys: seq<Attr>, strategy: PathStrategy)
    requires AtMostOnce(AttrBag(t)) && Converges(PathTree(t, keys, strategy), keys)
    ensures KeysAt(PathTree(t, keys, strategy), InsertionPath(t, keys, strategy), keys)
    ensures keys != [] ==> KeyLevel(PathTree(t, keys, strategy), keys) == InsertionPath(t, keys, strategy)
  {
    var s, m, p := Stamp(t, []), PathTree(t, keys, strategy), InsertionPath(t, keys, strategy);
    PathTreeValid(t, keys, strategy);
    InsertionHoldsKey(s, keys, strategy);
    if keys != [] {
      var level := KeyLevel(m, keys);
      KeyLevelHolds(m, keys);
      assert Required(s, keys) by {
        assert keys[0] in keys;
        NodeAtInSet(m, level);
        AttrSetIsBag(m);
        AttrSetIsBag(s);
        HeldIsRequired(s, keys, keys[0]);
      }
      var k :| k in keys && k in NodeAt(m, p).value.attrs;
      assert k in NodeAt(m, level).value.attrs;
      BagGivesDisjoint(m);
      assert level == p;
    }
  }

  //
  // The output relation
  //

  /** The output tree: the lower tree's path attached at the end of the upper tree's. */
  function JoinTree(upper: FNode, lower: FNode, uk: seq<Attr>, lk: seq<Attr>, strategy: PathStrategy): FNode {
    Attach(PathTree(upper, uk, strategy), InsertionPath(upper, uk, strategy), PathTree(lower, lk, strategy))
  }

  lemma {:induction false} AttachBag(n: FNode, ins: Path, low: FNode)
    ensures AttrBag(Attach(n, ins, low)) == AttrBag(n) + AttrBag(low)
    decreases n
  {
    if ins == [] || ins[0] >= |n.children| {
      AttrBagAppend(n.children, [low]);
      assert AttrBagAll([low]) == AttrBag(low);
    } else {
      var i, m := ins[0], Attach(n.children[ins[0]], ins[1..], low);
      AttachBag(n.children[i], ins[1..], low);
      ReplaceBag(n.children, i, m);
    }
  }

  lemma ReplaceBag(ns: seq<FNode>, i: nat, m: FNode)
    requires i < |ns|
    ensures AttrBagAll(ns[i := m]) + AttrBag(ns[i]) == AttrBagAll(ns) + AttrBag(m)
    ensures forall x :: AttrBag(m) == AttrBag(ns[i]) + x ==> AttrBagAll(ns[i := m]) == AttrBagAll(ns) + x
  {
    var pre, post := ns[..i], ns[i + 1..];
    assert ns == pre + ([ns[i]] + post) && ns[i := m] == pre + ([m] + post);
    AttrBagAppend(pre, [ns[i]] + post);
    AttrBagAppend(pre, [m] + post);
    assert ([ns[i]] + post)[1..] == post && ([m] + post)[1..] == post;
  }

  lemma {:induction false} JoinConforms(roots: seq<Rec>, ctx: Ctx, t: FNode, n: FNode, ins: Path, ka: seq<Attr>,
                                        answer: seq<int> -> seq<Rec>, low: FNode)
    requires ConformsAll(roots, t) && Typed(ctx, t) && Sourced(t, n)
    requires forall k :: ConformsAll(answer(k), low)
    ensures ConformsAll(JoinAll(roots, ctx, n, ins, ka, answer), Attach(n, ins, low))
    decreases n
  {
    hide Conforms, Iter, MatChildren;
    var body := c => [JoinNode(roots, c, n, ins, ka, answer)];
    forall r | r in JoinAll(roots, ctx, n, ins, ka, answer) ensures Conforms(r, Attach(n, ins, low)) {
      FlatMapMember(Iter(roots, ctx, n.sources), body, r);
      var c :| c in Iter(roots, ctx, n.sources) && r in body(c);
      IterTyped(roots, ctx, t, n.sources, c);
      IterBinds(roots, ctx, n.sources, c);
      MatNodeConforms(roots, c, t, n);
      var m := MatNode(roots, c, n);
      if ins == [] || ins[0] >= |n.children| {
        SlotAppended(m, n, answer(KeyOf(m.vals, ka)), low);
      } else {
        SourcedChild(t, n.children, ins[0]);
        JoinConforms(roots, c, t, n.children[ins[0]], ins[1..], ka, answer, low);
        SlotReplaced(m, n, ins[0], JoinAll(roots, c, n.children[ins[0]], ins[1..], ka, answer), Attach(n.children[ins[0]], ins[1..], low));
      }
    }
  }

  lemma SlotAppended(m: Rec, n: FNode, extra: seq<Rec>, low: FNode)
    requires Conforms(m, n) && ConformsAll(extra, low)
    ensures Conforms(m.(slots := m.slots + [Slot(extra)]), n.(children := n.children + [low]))
  {}

  lemma SlotReplaced(m: Rec, n: FNode, i: nat, recs: seq<Rec>, child: FNode)
    requires Conforms(m, n) && i < |n.children| && ConformsAll(recs, child)
    ensures Conforms(m.(slots := m.slots[i := Slot(recs)]), n.(children := n.children[i := child]))
  {}

  lemma {:induction false} FiledConforms(es: seq<Entry>, k: seq<int>, low: FNode, how: Comparing)
    requires forall e :: e in es ==> Conforms(e.rec, low)
    ensures ConformsAll(Filed(es, k, how), low)
  {
    if es != [] {
      assert es[0] in es && forall e :: e in es[1..] ==> e in es;
      FiledConforms(es[1..], k, low, how);
    }
  }

  lemma {:induction false} EntriesConform(roots: seq<Rec>, cs: seq<Ctx>, t: FNode, n: FNode, kp: Path, kb: seq<Attr>)
    requires ConformsAll(roots, t) && Sourced(t, n)
    requires forall c :: c in cs ==> Typed(c, t) && PathBound(c, n, kp)
    ensures forall e :: e in EntriesOf(roots, cs, n, kp, kb) ==> Conforms(e.rec, n)
    decreases |cs|
  {
    if cs != [] {
      assert cs[0] in cs && forall d :: d in cs[1..] ==> d in cs;
      EntriesConform(roots, cs[1..], t, n, kp, kb);
      LowerConforms(roots, cs[0], t, n, kp);
    }
  }

  /** The instances of the lower side of a join. */
  function LowerEntries(r: FRelation, keys: seq<Attr>, strategy: PathStrategy): seq<Entry>
    requires Converges(PathTree(r.tree, keys, strategy), keys)
  {
    var n := PathTree(r.tree, keys, strategy);
    Entries(r.roots, n, KeyLevel(n, keys), keys)
  }

  lemma LowerEntriesConform(r: FRelation, keys: seq<Attr>, strategy: PathStrategy)
    requires ValidRelation(r) && Converges(PathTree(r.tree, keys, strategy), keys)
    ensures forall e :: e in LowerEntries(r, keys, strategy) ==> Conforms(e.rec, PathTree(r.tree, keys, strategy))
  {
    var n := PathTree(r.tree, keys, strategy);
    var kp := KeyLevel(n, keys);
    PathTreeValid(r.tree, keys, strategy);
    var cs := PathIter(r.roots, map[], n, kp);
    forall c | c in cs ensures Typed(c, r.tree) && PathBound(c, n, kp) {
      PathIterTyped(r.roots, map[], r.tree, n, kp, c);
      PathIterBound(r.roots, map[], n, kp, c);
    }
    EntriesConform(r.roots, cs, r.tree, n, kp, keys);
  }

  function JoinRoots(upper: FRelation, uk: seq<Attr>, strategy: PathStrategy, answer: seq<int> -> seq<Rec>): seq<Rec> {
    JoinAll(upper.roots, map[], PathTree(upper.tree, uk, strategy), InsertionPath(upper.tree, uk, strategy), uk, answer)
  }

  /** The join of two relations, the records below each insertion record being whatever
      `answer` gives for its key. */
  function JoinOutput(upper: FRelation, lower: FRelation, uk: seq<Attr>, lk: seq<Attr>, strategy: PathStrategy,
                      answer: seq<int> -> seq<Rec>): FRelation {
    FRelation(JoinTree(upper.tree, lower.tree, uk, lk, strategy), PruneAll(JoinRoots(upper, uk, strategy, answer)))
  }

  /** Two relations that may be joined: valid, with no attribute in common. */
  ghost predicate Joinable(upper: FRelation, lower: FRelation) {
    ValidRelation(upper) && ValidRelation(lower) && AtMostOnce(AttrBag(upper.tree) + AttrBag(lower.tree))
  }

  lemma {:induction false} PruneConforms(r: Rec, n: FNode)
    requires Conforms(r, n)
    ensures Conforms(Prune(r), n)
    decreases r
  {
    PruneSlotsConform(r.slots, n.children);
  }

  lemma {:induction false} PruneSlotsConform(slots: seq<Slot>, ns: seq<FNode>)
    requires SlotsConform(slots, ns)
    ensures SlotsConform(PruneSlots(slots), ns)
    decreases slots
  {
    if slots != [] {
      PruneAllConform(slots[0].recs, ns[0]);
      PruneSlotsConform(slots[1..], ns[1..]);
    }
  }

  lemma {:induction false} PruneAllConform(rs: seq<Rec>, n: FNode)
    requires ConformsAll(rs, n)
    ensures ConformsAll(PruneAll(rs), n)
    decreases rs
  {
    if rs != [] {
      assert rs[0] in rs && forall r :: r in rs[1..] ==> r in rs;
      PruneAllConform(rs[1..], n);
      PruneConforms(rs[0], n);
    }
  }

  /** The lists hold the same records for every key, in whatever order. */
  ghost predicate Files(answer: seq<int> -> seq<Rec>, es: seq<Entry>, how: Comparing) {
    forall k :: Perm(answer(k), Filed(es, k, how))
  }

  lemma FilesAnswer(answer: seq<int> -> seq<Rec>, es: seq<Entry>, b: seq<Tuple>, kb: seq<Attr>, how: Comparing)
    requires Files(answer, es, how) && Answers(FiledUnder(es, how), b, kb, how)
    ensures Answers(answer, b, kb, how)
  {
    forall k ensures Perm(FlatAll(answer(k)), Meeting(b, kb, k, how)) {
      FlatAllPerm(answer(k), Filed(es, k, how));
      assert FiledUnder(es, how)(k) == Filed(es, k, how);
    }
  }

  /** The factorized join is the equi-join of the two bags of tuples, for any two
      conforming inputs whose keys converge, under either strategy. */
  lemma JoinTheorem(upper: FRelation, lower: FRelation, uk: seq<Attr>, lk: seq<Attr>, strategy: PathStrategy,
                    answer: seq<int> -> seq<Rec>, how: Comparing)
    requires Joinable(upper, lower)
    requires Converges(PathTree(upper.tree, uk, strategy), uk) && Converges(PathTree(lower.tree, lk, strategy), lk)
    requires Files(answer, LowerEntries(lower, lk, strategy), how)
    ensures var out := JoinOutput(upper, lower, uk, lk, strategy, answer);
            && ValidRelation(out) && PrunedAll(out.roots)
            && AttrBag(out.tree) == AttrBag(upper.tree) + AttrBag(lower.tree)
            && Perm(FlatAll(out.roots), BagJoin(FlatAll(upper.roots), FlatAll(lower.roots), uk, lk, how))
  {
    AtMostOnceParts(AttrBag(upper.tree), AttrBag(lower.tree));
    JoinRootsMeaning(upper, lower, uk, lk, strategy, answer, how);
    JoinRootsConform(upper, lower, uk, lk, strategy, answer, how);
    var rs := JoinRoots(upper, uk, strategy, answer);
    PruneAllKeepsFlat(rs);
    PruneAllArePruned(rs);
    PruneAllConform(rs, JoinTree(upper.tree, lower.tree, uk, lk, strategy));
  }

  lemma JoinRootsMeaning(upper: FRelation, lower: FRelation, uk: seq<Attr>, lk: seq<Attr>, strategy: PathStrategy,
                         answer: seq<int> -> seq<Rec>, how: Comparing)
    requires Joinable(upper, lower)
    requires Converges(PathTree(upper.tree, uk, strategy), uk) && Converges(PathTree(lower.tree, lk, strategy), lk)
    requires Files(answer, LowerEntries(lower, lk, strategy), how)
    ensures Perm(FlatAll(JoinRoots(upper, uk, strategy, answer)), BagJoin(FlatAll(upper.roots), FlatAll(lower.roots), uk, lk, how))
  {
    var u, l := PathTree(upper.tree, uk, strategy), PathTree(lower.tree, lk, strategy);
    var b := FlatAll(lower.roots);
    AtMostOnceParts(AttrBag(upper.tree), AttrBag(lower.tree));
    PathTreeValid(upper.tree, uk, strategy);
    ConvergedAtInsertion(upper.tree, uk, strategy);
    KeyLevelHolds(l, lk);
    EntriesAnswer(lower, lk, strategy, KeyLevel(l, lk), how);
    FilesAnswer(answer, LowerEntries(lower, lk, strategy), b, lk, how);
    assert Apart(b, AttrSet(u)) by {
      AttrSetIsBag(u);
      AttrSetIsBag(lower.tree);
      forall y | y in b ensures y.Keys !! AttrSet(u) { FlatAllKeys(lower.roots, lower.tree, y); }
    }
    var none: Ctx := map[];
    JoinMeaning(upper.roots, none, upper.tree, u, InsertionPath(upper.tree, uk, strategy), uk, answer, b, lk, how);
    Restructure(upper, uk, strategy);
    BagJoinCong(FlatAll(MatAll(upper.roots, none, u)), FlatAll(upper.roots), b, b, uk, lk, how);
  }

  lemma JoinRootsConform(upper: FRelation, lower: FRelation, uk: seq<Attr>, lk: seq<Attr>, strategy: PathStrategy,
                         answer: seq<int> -> seq<Rec>, how: Comparing)
    requires Joinable(upper, lower)
    requires Converges(PathTree(lower.tree, lk, strategy), lk)
    requires Files(answer, LowerEntries(lower, lk, strategy), how)
    ensures ConformsAll(JoinRoots(upper, uk, strategy, answer), JoinTree(upper.tree, lower.tree, uk, lk, strategy))
    ensures AttrBag(JoinTree(upper.tree, lower.tree, uk, lk, strategy)) == AttrBag(upper.tree) + AttrBag(lower.tree)
  {
    var u, l := PathTree(upper.tree, uk, strategy), PathTree(lower.tree, lk, strategy);
    var es := LowerEntries(lower, lk, strategy);
    AtMostOnceParts(AttrBag(upper.tree), AttrBag(lower.tree));
    PathTreeValid(upper.tree, uk, strategy);
    PathTreeValid(lower.tree, lk, strategy);
    LowerEntriesConform(lower, lk, strategy);
    forall k ensures ConformsAll(answer(k), l) {
      FiledConforms(es, k, l, how);
      PermMembers(answer(k), Filed(es, k, how));
    }
    var none: Ctx := map[];
    JoinConforms(upper.roots, none, upper.tree, u, InsertionPath(upper.tree, uk, strategy), uk, answer, l);
    AttachBag(u, InsertionPath(upper.tree, uk, strategy), l);
  }
}
