/** What the root-to-leaf transformation leaves as it is, and what it leaves in one line. */
module TreeShapes {
  import opened Bags
  import opened FTrees
  import opened Reordering
  import opened Restructuring
  import opened Transforming
  import opened Joins
  import opened FactorizedJoins
  import opened Convergence

  /** Some key is stored in the tree. */
  ghost predicate Keyed(n: FNode, keys: seq<Attr>) {
    exists k :: k in keys && k in AttrSet(n)
  }

  /** The subtrees without a key that hang below nodes with a key below them, or the tree itself. */
  ghost function Loose(n: FNode, keys: seq<Attr>): multiset<FNode>
    decreases n
  {
    if Keyed(n, keys) then LooseAll(n.children, keys) else multiset{n}
  }

  ghost function LooseAll(ns: seq<FNode>, keys: seq<Attr>): multiset<FNode>
    decreases ns
  {
    if ns == [] then multiset{} else Loose(ns[0], keys) + LooseAll(ns[1..], keys)
  }

  /** Whatever holds a key lies on one way down. */
  ghost predicate OneWay(n: FNode, keys: seq<Attr>)
    decreases n
  {
    && (forall i, j :: 0 <= i < |n.children| && 0 <= j < |n.children| && Keyed(n.children[i], keys) && Keyed(n.children[j], keys) ==> i == j)
    && (forall i :: 0 <= i < |n.children| ==> OneWay(n.children[i], keys))
  }

  lemma {:induction false} RequiredIff(n: FNode, keys: seq<Attr>)
    ensures Required(n, keys) <==> Keyed(n, keys)
    decreases n
  {
    if Keyed(n, keys) {
      var k :| k in keys && k in AttrSet(n);
      HeldIsRequired(n, keys, k);
    }
    if Required(n, keys) { RequiredHolds(n, keys); }
  }

  lemma {:induction false} RequiredHolds(n: FNode, keys: seq<Attr>)
    requires Required(n, keys)
    ensures Keyed(n, keys)
    decreases n
  {
    if HoldsKey(n, keys) {
      var k :| k in keys && k in n.attrs;
      assert k in AttrSet(n);
    } else {
      var i :| 0 <= i < |n.children| && Required(n.children[i], keys);
      RequiredHolds(n.children[i], keys);
      var k :| k in keys && k in AttrSet(n.children[i]);
      InAll(n.children, i, k);
      assert k in AttrSet(n);
    }
  }

  lemma {:induction false} InAll(ns: seq<FNode>, i: nat, a: Attr)
    requires i < |ns| && a in AttrSet(ns[i])
    ensures a in AttrSetAll(ns)
  {
    if i > 0 { InAll(ns[1..], i - 1, a); }
  }

  //
  // Loose subtrees
  //

  lemma {:induction false} LooseAppend(a: seq<FNode>, b: seq<FNode>, keys: seq<Attr>)
    ensures LooseAll(a + b, keys) == LooseAll(a, keys) + LooseAll(b, keys)
  {
    if a == [] {
      assert a + b == b;
    } else {
      assert (a + b)[1..] == a[1..] + b;
      LooseAppend(a[1..], b, keys);
    }
  }

  lemma LooseOne(n: FNode, keys: seq<Attr>)
    ensures LooseAll([n], keys) == Loose(n, keys)
  {
    assert [n][1..] == [];
  }

  lemma {:induction false} PartitionLoose(ns: seq<FNode>, keys: seq<Attr>)
    ensures LooseAll(ns, keys) == LooseAll(Kept(ns, keys), keys) + LooseAll(Chosen(ns, keys), keys)
  {
    hide Required, Keyed;
    if ns != [] {
      PartitionLoose(ns[1..], keys);
      LooseAppend([ns[0]], Kept(ns[1..], keys), keys);
      LooseAppend([ns[0]], Chosen(ns[1..], keys), keys);
    }
  }

  lemma {:induction false} ChildrenLoose(ns: seq<FNode>, keys: seq<Attr>)
    requires forall n :: n in ns ==> Keyed(n, keys)
    ensures LooseAll(ChildrenOf(ns), keys) == LooseAll(ns, keys)
  {
    hide Keyed;
    if ns != [] {
      assert ns[0] in ns && forall n :: n in ns[1..] ==> n in ns;
      ChildrenLoose(ns[1..], keys);
      LooseAppend(ns[0].children, ChildrenOf(ns[1..]), keys);
    }
  }

  lemma ChosenKeyed(ns: seq<FNode>, keys: seq<Attr>)
    ensures forall n :: n in Chosen(ns, keys) ==> Keyed(n, keys)
  {
    hide Keyed, Required;
    ChosenRequired(ns, keys);
    forall n | n in Chosen(ns, keys) ensures Keyed(n, keys) { RequiredIff(n, keys); }
  }

  /** What is merged still holds a key. */
  lemma MergedKeyed(ns: seq<FNode>, keys: seq<Attr>)
    requires ns != [] && forall n :: n in ns ==> Keyed(n, keys)
    ensures Keyed(Merged(ns), keys)
  {
    assert ns[0] in ns;
    var k :| k in keys && k in AttrSet(ns[0]);
    if k !in ns[0].attrs { SetAppend(ns[0].children, ChildrenOf(ns[1..])); }
    assert k in AttrSet(Merged(ns));
  }

  lemma {:induction false} SetAppend(a: seq<FNode>, b: seq<FNode>)
    ensures AttrSetAll(a + b) == AttrSetAll(a) + AttrSetAll(b)
  {
    if a == [] {
      assert a + b == b;
    } else {
      assert (a + b)[1..] == a[1..] + b;
      SetAppend(a[1..], b);
    }
  }

  /** A node whose child holds a key holds one. */
  lemma ChildKeyed(n: FNode, i: nat, keys: seq<Attr>)
    requires i < |n.children| && Keyed(n.children[i], keys)
    ensures Keyed(n, keys)
  {
    var k :| k in keys && k in AttrSet(n.children[i]);
    InAll(n.children, i, k);
    assert k in AttrSet(n);
  }

  lemma {:induction false} MergeLoose(n: FNode, keys: seq<Attr>)
    requires Keyed(n, keys)
    ensures Keyed(MergeLevelwise(n, keys), keys) && Loose(MergeLevelwise(n, keys), keys) == Loose(n, keys)
    decreases NodeCount(n)
  {
    hide Keyed, Required, Chosen, Kept, Merged;
    var chosen, kept := Chosen(n.children, keys), Kept(n.children, keys);
    if chosen != [] {
      ChosenKeyed(n.children, keys);
      MergedKeyed(chosen, keys);
      MergeShrinks(n, keys);
      MergeLoose(Merged(chosen), keys);
      var m := MergeLevelwise(Merged(chosen), keys);
      assert MergeLevelwise(n, keys).children == kept + [m];
      ChildKeyed(MergeLevelwise(n, keys), |kept|, keys);
      LooseAppend(kept, [m], keys);
      LooseOne(m, keys);
      PartitionLoose(n.children, keys);
      MergedLoose(chosen, keys);
    }
  }

  lemma MergedLoose(ns: seq<FNode>, keys: seq<Attr>)
    requires ns != [] && forall n :: n in ns ==> Keyed(n, keys)
    ensures Loose(Merged(ns), keys) == LooseAll(ns, keys)
  {
    hide Keyed;
    MergedKeyed(ns, keys);
    ChildrenLoose(ns, keys);
  }

  lemma LooseReplaced(ns: seq<FNode>, i: nat, m: FNode, keys: seq<Attr>)
    requires i < |ns| && Loose(m, keys) == Loose(ns[i], keys)
    ensures LooseAll(ns[i := m], keys) == LooseAll(ns, keys)
  {
    var pre, post := ns[..i], ns[i + 1..];
    assert ns == pre + ([ns[i]] + post) && ns[i := m] == pre + ([m] + post);
    LooseAppend(pre, [ns[i]] + post, keys);
    LooseAppend(pre, [m] + post, keys);
    assert ([ns[i]] + post)[1..] == post && ([m] + post)[1..] == post;
  }

  lemma {:induction false} LevelwiseLoose(n: FNode, keys: seq<Attr>)
    requires Keyed(n, keys)
    ensures Keyed(Levelwise(n, keys).0, keys) && Loose(Levelwise(n, keys).0, keys) == Loose(n, keys)
    decreases n
  {
    hide Keyed, Required, Chosen, MergeLevelwise;
    if |Chosen(n.children, keys)| == 1 {
      var i := FirstRequired(n.children, keys);
      var m := Levelwise(n.children[i], keys).0;
      RequiredIff(n.children[i], keys);
      LevelwiseLoose(n.children[i], keys);
      LooseReplaced(n.children, i, m, keys);
      ChildKeyed(Levelwise(n, keys).0, i, keys);
    } else {
      MergeLoose(n, keys);
    }
  }

  lemma {:induction false} ResidueLoose(ns: seq<FNode>, keys: seq<Attr>)
    ensures multiset(Residue(ns, keys)) == LooseAll(ns, keys)
    ensures forall c :: c in Residue(ns, keys) ==> !Keyed(c, keys)
    decreases ns
  {
    hide Keyed, Required;
    if ns != [] {
      RequiredIff(ns[0], keys);
      ResidueLoose(ns[1..], keys);
      if Required(ns[0], keys) { ResidueLoose(ns[0].children, keys); }
    }
  }

  //
  // One way down
  //

  lemma {:induction false} UnkeyedOneWay(n: FNode, keys: seq<Attr>)
    requires !Keyed(n, keys)
    ensures OneWay(n, keys)
    decreases n
  {
    hide Keyed;
    forall i | 0 <= i < |n.children| ensures !Keyed(n.children[i], keys) && OneWay(n.children[i], keys) {
      if Keyed(n.children[i], keys) { ChildKeyed(n, i, keys); }
      UnkeyedOneWay(n.children[i], keys);
    }
  }

  /** Only one child of a node may hold a key. */
  lemma OneKeyedChild(n: FNode, k: nat, keys: seq<Attr>)
    requires forall i :: 0 <= i < |n.children| && i != k ==> !Keyed(n.children[i], keys)
    requires k < |n.children| ==> OneWay(n.children[k], keys)
    ensures OneWay(n, keys)
  {
    hide Keyed;
    forall i | 0 <= i < |n.children| ensures OneWay(n.children[i], keys) {
      if i != k { UnkeyedOneWay(n.children[i], keys); }
    }
  }

  lemma {:induction false} MergeOneWay(n: FNode, keys: seq<Attr>)
    ensures OneWay(MergeLevelwise(n, keys), keys)
    decreases NodeCount(n)
  {
    hide Keyed, Required, Chosen, Kept, Merged;
    var chosen, kept, whole := Chosen(n.children, keys), Kept(n.children, keys), MergeLevelwise(n, keys);
    KeptNotRequired(n.children, keys);
    forall i | 0 <= i < |kept| ensures !Keyed(kept[i], keys) { RequiredIff(kept[i], keys); }
    if chosen == [] {
      forall i | 0 <= i < |n.children| ensures !Keyed(n.children[i], keys) {
        ChosenRequired(n.children, keys);
        RequiredIff(n.children[i], keys);
      }
      OneKeyedChild(whole, |n.children|, keys);
    } else {
      MergeShrinks(n, keys);
      MergeOneWay(Merged(chosen), keys);
      assert whole.children == kept + [MergeLevelwise(Merged(chosen), keys)];
      OneKeyedChild(whole, |kept|, keys);
    }
  }

  lemma {:induction false} LevelwiseOneWay(n: FNode, keys: seq<Attr>)
    ensures OneWay(Levelwise(n, keys).0, keys)
    decreases n
  {
    hide Keyed, Required, Chosen, MergeLevelwise, FirstRequired;
    if |Chosen(n.children, keys)| == 1 {
      var i, m := FirstRequired(n.children, keys), Levelwise(n, keys).0;
      LevelwiseOneWay(n.children[i], keys);
      forall j | 0 <= j < |n.children| && j != i ensures !Keyed(n.children[j], keys) {
        RequiredIff(n.children[j], keys);
        if Required(n.children[j], keys) { OneRequired(n.children, keys, j); }
      }
      OneKeyedChild(m, i, keys);
    } else {
      MergeOneWay(n, keys);
    }
  }

  //
  // Where the way ends
  //

  /** The node there holds a key, and none below it does. */
  ghost predicate LastKeyed(n: FNode, p: Path, keys: seq<Attr>) {
    && NodeAt(n, p).Some? && HoldsKey(NodeAt(n, p).value, keys)
    && forall c :: c in NodeAt(n, p).value.children ==> !Keyed(c, keys)
  }

  lemma LastBelow(n: FNode, i: nat, p: Path, keys: seq<Attr>)
    requires i < |n.children| && LastKeyed(n.children[i], p, keys)
    ensures LastKeyed(n, [i] + p, keys)
  {
    assert ([i] + p)[1..] == p;
  }

  /** A keyed node none of whose children is keyed holds a key itself. */
  lemma {:induction false} LastHere(n: FNode, keys: seq<Attr>)
    requires Keyed(n, keys) && forall c :: c in n.children ==> !Keyed(c, keys)
    ensures LastKeyed(n, [], keys)
  {
    RequiredIff(n, keys);
    forall i | 0 <= i < |n.children| ensures !Required(n.children[i], keys) { RequiredIff(n.children[i], keys); }
  }

  lemma NoneChosen(ns: seq<FNode>, keys: seq<Attr>)
    requires Chosen(ns, keys) == []
    ensures forall c :: c in ns ==> !Keyed(c, keys)
  {
    hide Keyed, Required;
    ChosenRequired(ns, keys);
    forall c | c in ns ensures !Keyed(c, keys) { RequiredIff(c, keys); }
  }

  lemma {:induction false} MergeLast(n: FNode, keys: seq<Attr>)
    requires Keyed(n, keys)
    ensures LastKeyed(MergeLevelwise(n, keys), MergeEnd(n, keys), keys)
    decreases NodeCount(n)
  {
    hide Keyed, Required, Chosen, Kept, Merged, HoldsKey;
    var chosen, kept := Chosen(n.children, keys), Kept(n.children, keys);
    if chosen == [] {
      NoneChosen(n.children, keys);
      LastHere(n, keys);
    } else {
      ChosenKeyed(n.children, keys);
      MergedKeyed(chosen, keys);
      MergeShrinks(n, keys);
      MergeLast(Merged(chosen), keys);
      assert MergeLevelwise(n, keys).children == kept + [MergeLevelwise(Merged(chosen), keys)];
      LastBelow(MergeLevelwise(n, keys), |kept|, MergeEnd(Merged(chosen), keys), keys);
    }
  }

  lemma {:induction false} LevelwiseLast(n: FNode, keys: seq<Attr>)
    requires Keyed(n, keys)
    ensures LastKeyed(Levelwise(n, keys).0, Levelwise(n, keys).1, keys)
    decreases n
  {
    hide Keyed, Required, Chosen, MergeLevelwise, FirstRequired, LastKeyed;
    if |Chosen(n.children, keys)| == 1 {
      var i := FirstRequired(n.children, keys);
      RequiredIff(n.children[i], keys);
      LevelwiseLast(n.children[i], keys);
      LastBelow(Levelwise(n, keys).0, i, Levelwise(n.children[i], keys).1, keys);
    } else {
      MergeLast(n, keys);
    }
  }

  //
  // Both strategies
  //

  /** Without a key in it the tree stays as it is. Under level-wise merging every attribute stays
      as far from the root as it was, what holds a key comes to lie on one way down, which ends at the
      insertion node, and the subtrees without a key hang on unchanged. Under naive merging they come
      to hang off the root, which is the insertion node, and all the other attributes are in it. */
  lemma PathShape(t: FNode, keys: seq<Attr>)
    requires AtMostOnce(AttrBag(t))
    ensures !Keyed(t, keys) ==> forall strategy :: CreateRootToLeafPath(t, keys, strategy) == (t, [])
    ensures Keyed(t, keys) ==>
      var m := CreateRootToLeafPath(t, keys, LEVELWISE).0;
      && OneWay(m, keys) && LastKeyed(m, CreateRootToLeafPath(t, keys, LEVELWISE).1, keys) && Loose(m, keys) == Loose(t, keys)
      && forall a, d: nat :: StoredAt(m, a, d) <==> StoredAt(t, a, d)
    ensures Keyed(t, keys) ==>
      var m := CreateRootToLeafPath(t, keys, NAIVE).0;
      && AttrBag(m) == AttrBag(t) && multiset(m.children) == Loose(t, keys)
      && CreateRootToLeafPath(t, keys, NAIVE).1 == [] && LastKeyed(m, [], keys)
  {
    hide Keyed, LastKeyed, Required, Levelwise, MergeNaive, AttrBag, StoredAt, OneWay, Loose;
    RequiredIff(t, keys);
    if Keyed(t, keys) {
      LevelwiseOneWay(t, keys);
      LevelwiseLast(t, keys);
      LevelwiseLoose(t, keys);
      forall a, d: nat ensures StoredAt(Levelwise(t, keys).0, a, d) <==> StoredAt(t, a, d) { LevelwiseKeepsDepth(t, keys, a, d); }
      NaiveMergeBag(t, keys);
      NaiveLoose(t, keys);
    }
  }

  lemma NaiveLoose(t: FNode, keys: seq<Attr>)
    requires Keyed(t, keys) && AtMostOnce(AttrBag(t))
    ensures multiset(MergeNaive(t, keys).children) == Loose(t, keys) && LastKeyed(MergeNaive(t, keys), [], keys)
  {
    hide Required, HoldsKey;
    ResidueLoose(t.children, keys);
    NaiveMergeBag(t, keys);
    AttrSetIsBag(t);
    AttrSetIsBag(MergeNaive(t, keys));
    var k :| k in keys && k in AttrSet(t);
    assert AttrBag(t)[k] > 0;
    assert k in AttrSet(MergeNaive(t, keys));
    LastHere(MergeNaive(t, keys), keys);
  }
}
