/** When an outer, semi or anti join counts right over an upper side with empty records: exactly
    when every key it looks up there is the key of some tuple. */
module Unpruned {
  import opened Bags
  import opened FReps
  import opened FTrees
  import opened Flattening
  import opened Reordering
  import opened Restructuring
  import opened Transforming
  import opened FlatJoins
  import opened KeyPacking
  import opened Joins
  import opened Instances
  import opened FactorizedJoins
  import opened Convergence
  import opened CountJoins
  import opened Reaching
  import opened Lookups
  import opened SqlJoins

  /** A root with two children: the first holds the join key, the second has no record at all. */
  function UpperTree(): FNode {
    FNode({1}, [], [FNode({2}, [], []), FNode({3}, [], [])])
  }

  function KeyRecord(): Rec {
    Rec(map[2 := 7], 1, [])
  }

  function UpperRecord(): Rec {
    Rec(map[1 := 5], 1, [Slot([KeyRecord()]), Slot([])])
  }

  function Upper(): FRelation {
    FRelation(UpperTree(), [UpperRecord()])
  }

  function Planned(): FNode {
    FNode({1}, [[]], [FNode({2}, [[0]], []), FNode({3}, [[1]], [])])
  }

  lemma StampTwo(a: FNode, b: FNode)
    requires a.children == [] && b.children == []
    ensures StampAll([a, b], [], 0) == [FNode(a.attrs, [[0]], []), FNode(b.attrs, [[1]], [])]
  {
    assert [a, b][1..] == [b] && [b][1..] == [];
    assert [] + [0] == [0] && [] + [1] == [1];
    assert StampAll([b], [], 1) == [Stamp(b, [1])] + StampAll([], [], 2);
    assert StampAll([a, b], [], 0) == [Stamp(a, [0])] + StampAll([b], [], 1);
  }

  lemma UpperPlan()
    ensures PathTree(UpperTree(), [2], LEVELWISE) == Planned() && InsertionPath(UpperTree(), [2], LEVELWISE) == [0]
  {
    var t, keys := UpperTree(), [2];
    var s := Stamp(t, []);
    StampTwo(t.children[0], t.children[1]);
    assert s == Planned();
    var a, b := s.children[0], s.children[1];
    assert 2 in keys && 2 in a.attrs;
    assert HoldsKey(a, keys) && !HoldsKey(b, keys) && !Required(b, keys);
    assert s.children[1..] == [b] && [b][1..] == [];
    assert Required(a, keys) && s.children == [a, b];
    assert Chosen([], keys) == [] && Chosen([b], keys) == [];
    assert Chosen(s.children, keys) == [a] + Chosen([b], keys);
    assert FirstRequired(s.children, keys) == 0;
    assert Levelwise(a, keys) == (a, []);
    assert s.children[0 := a] == s.children && [0] + [] == [0];
    assert Levelwise(s, keys) == (s, [0]);
  }

  lemma UpperConverges()
    ensures Converges(PathTree(Upper().tree, [2], LEVELWISE), [2])
  {
    hide PathTree, InsertionPath;
    UpperPlan();
    assert LevelOf(Planned(), 2).Some?;
  }

  lemma UpperIsEmpty()
    ensures FlatAll(Upper().roots) == []
  {
    var r := UpperRecord();
    assert r.slots[1..] == [Slot([])];
    assert FlatSlots([Slot([])]) == [];
    CrossEmptyRight(FlatAll([KeyRecord()]));
    CrossEmptyRight(Own(r));
    assert Flat(r) == [];
    assert [r][1..] == [];
  }

  /** The walk reaches the key although no tuple carries it. */
  lemma KeyIsMarked(factor: seq<int> -> nat)
    ensures UpperWalk(Upper(), [2], LEVELWISE, factor) == Visit(0, [[7]])
  {
    UpperPlan();
    var roots, n, none: Ctx := Upper().roots, Planned(), map[];
    var c: Ctx := none[[] := UpperRecord()];
    OneCandidate(roots, none, [], UpperRecord());
    RootNode(roots, c, factor);
    var v := WalkNode(roots, c, n, Some([0]), [2], factor);
    assert [c][1..] == [] && WalkList(roots, [], n, Some([0]), [2], factor) == Visit(0, []);
    assert v.keys + [] == v.keys;
  }

  lemma RootNode(roots: seq<Rec>, c: Ctx, factor: seq<int> -> nat)
    requires [] in c && c[[]] == UpperRecord()
    ensures WalkNode(roots, c, Planned(), Some([0]), [2], factor) == Visit(0, [[7]])
  {
    var n := Planned();
    var a, b, d: Ctx := n.children[0], n.children[1], c[[0] := KeyRecord()];
    assert Parent([0]) == [] && Last([0]) == 0 && Parent([1]) == [] && Last([1]) == 1;
    OneCandidate(roots, c, [0], KeyRecord());
    KeyNode(roots, d, factor);
    var w, start := WalkAll(roots, c, a, Some([]), [2], factor), Visit(WeightOf(c, n.sources), []);
    assert [d][1..] == [] && WalkList(roots, [], a, Some([]), [2], factor) == Visit(0, []);
    assert [[7]] + [] == [[7]] && w == Visit(factor([7]), [[7]]);
    assert [[1]] == [[1]] + [];
    IterUnfold(roots, c, [1], []);
    assert Iter(roots, c, b.sources) == [];
    assert WalkAll(roots, c, b, None, [2], factor) == Visit(0, []);
    var at: Path := [0];
    assert at[1..] == [] && at != [] && at[0] == 0;
    assert Towards(Some(at), 0) == Some([]) && Towards(Some(at), 1) == None;
    assert n.children[1..] == [b] && [b][1..] == [];
    assert WeightOf(c, n.sources) == 1 by { assert n.sources[1..] == []; }
    assert [] + [[7]] == [[7]];
    var one := Visit(factor([7]), [[7]]);
    assert WalkChildren(roots, c, [b], 1, Some([0]), [2], factor, one) == Visit(0, [[7]]);
    assert WalkChildren(roots, c, n.children, 0, Some([0]), [2], factor, start) == Visit(0, [[7]]);
  }

  lemma OneCandidate(roots: seq<Rec>, ctx: Ctx, v: Path, r: Rec)
    requires Cands(roots, ctx, v) == [r]
    ensures Iter(roots, ctx, [v]) == [ctx[v := r]]
  {
    assert [v] + [] == [v];
    IterUnfold(roots, ctx, v, []);
    FlatMapSingle(r, IterStep(roots, ctx, v, []));
  }

  lemma KeyNode(roots: seq<Rec>, d: Ctx, factor: seq<int> -> nat)
    requires [0] in d && d[[0]] == KeyRecord()
    ensures WalkNode(roots, d, FNode({2}, [[0]], []), Some([]), [2], factor) == Visit(factor([7]), [[7]])
  {
    var n := FNode({2}, [[0]], []);
    assert WeightOf(d, n.sources) == 1 by { assert n.sources[1..] == []; }
    assert KeyOf(ValsOf(d, n.sources), [2]) == [7] by { assert n.sources[1..] == []; }
    assert [] + [[7]] == [[7]];
  }

  function Lower(): FRelation {
    Single([4], [7])
  }

  //
  // A relation of one tuple
  //

  function TupleWith(attrs: seq<Attr>, k: seq<int>): Tuple
    requires |attrs| == |k|
  {
    if attrs == [] then map[] else TupleWith(attrs[1..], k[1..])[attrs[0] := k[0]]
  }

  function AttrSetOf(attrs: seq<Attr>): set<Attr> {
    set a | a in attrs
  }

  lemma {:induction false} TupleHasKey(attrs: seq<Attr>, k: seq<int>)
    requires |attrs| == |k| && NoDup(attrs)
    ensures TupleWith(attrs, k).Keys == AttrSetOf(attrs) && KeyOf(TupleWith(attrs, k), attrs) == k
  {
    if attrs != [] {
      var rest := attrs[1..];
      TupleHasKey(rest, k[1..]);
      assert attrs == [attrs[0]] + rest && attrs[0] !in rest;
      var t, u := TupleWith(attrs, k), TupleWith(rest, k[1..]);
      forall i | 0 <= i < |attrs| ensures KeyOf(t, attrs)[i] == k[i] {
        if i > 0 { assert attrs[i] == rest[i - 1] && rest[i - 1] in rest && KeyOf(u, rest)[i - 1] == k[1..][i - 1]; }
      }
    }
  }

  /** One tuple, its values in the given columns. */
  function Single(attrs: seq<Attr>, k: seq<int>): FRelation
    requires |attrs| == |k|
  {
    FRelation(Scan(AttrSetOf(attrs)), [Rec(TupleWith(attrs, k), 1, [])])
  }

  lemma SingleIsOneTuple(attrs: seq<Attr>, k: seq<int>)
    requires |attrs| == |k| && NoDup(attrs)
    ensures FlatAll(Single(attrs, k).roots) == [TupleWith(attrs, k)] && ValidRelation(Single(attrs, k))
    ensures AttrSet(Single(attrs, k).tree) == AttrSetOf(attrs)
  {
    TupleHasKey(attrs, k);
    hide TupleWith;
    LeafOne(TupleWith(attrs, k));
    ScanBag(AttrSetOf(attrs));
    assert AttrSetAll([]) == {};
  }

  /** Consecutive attributes from `base` on. */
  function Columns(base: nat, n: nat): (attrs: seq<Attr>)
    ensures |attrs| == n && forall i :: 0 <= i < n ==> attrs[i] == base + i
  {
    seq(n, i requires 0 <= i < n => base + i)
  }

  lemma Above(attrs: set<Attr>) returns (base: nat)
    ensures forall a :: a in attrs ==> a < base
  {
    if attrs == {} {
      base := 0;
    } else {
      var a :| a in attrs;
      base := Above(attrs - {a});
      assert forall b :: b in attrs ==> b == a || b in attrs - {a};
      if a >= base { base := a + 1; }
    }
  }

  lemma {:induction false} ColumnsDistinct(base: nat, n: nat)
    ensures NoDup(Columns(base, n))
    decreases n
  {
    if n > 0 {
      assert Columns(base, n)[1..] == Columns(base + 1, n - 1);
      ColumnsDistinct(base + 1, n - 1);
    }
  }

  //
  // Exactly when
  //

  /** The fused count is the number of rows, `upper` being the side on top and `how` comparing its
      keys with those of the side beneath. */
  ghost predicate Exact(kind: JoinKind, preserve: Preserve, mode: JoinMode, upper: FRelation, lower: FRelation,
                        uk: seq<Attr>, lk: seq<Attr>, strategy: PathStrategy, how: Comparing)
    requires Legal(kind, preserve) && Countable(upper, lower, uk, lk, strategy)
  {
    if mode == BOTTOM_INSERT then
      FusedCount(kind, preserve, mode, upper, lower, uk, lk, strategy, how)
        == |SqlRows(kind, preserve, FlatAll(upper.roots), FlatAll(lower.roots), uk, lk, how)|
    else
      FusedCount(kind, preserve, mode, lower, upper, lk, uk, strategy, Mirrored(how))
        == |SqlRows(kind, preserve, FlatAll(lower.roots), FlatAll(upper.roots), lk, uk, Mirrored(how))|
  }

  /** The join emits tuples of the side beneath, found by their marks. */
  predicate MarksLower(preserve: Preserve, mode: JoinMode) {
    if mode == BOTTOM_INSERT then preserve in {PROBE, BOTH} else preserve in {BUILD, BOTH}
  }

  lemma ExactIs(kind: JoinKind, preserve: Preserve, mode: JoinMode, upper: FRelation, lower: FRelation,
                uk: seq<Attr>, lk: seq<Attr>, strategy: PathStrategy, how: Comparing)
    requires Legal(kind, preserve) && Countable(upper, lower, uk, lk, strategy) && MarksLower(preserve, mode)
    ensures Exact(kind, preserve, mode, upper, lower, uk, lk, strategy, how) <==> MarksRight(upper, lower, uk, lk, strategy, how)
  {
    hide FusedCount, SqlRows, MarksRight;
    MirroredTwice(how);
    if mode == BOTTOM_INSERT {
      CountExactIff(kind, preserve, mode, upper, lower, uk, lk, strategy, how);
    } else {
      CountExactIff(kind, preserve, mode, lower, upper, lk, uk, strategy, Mirrored(how));
    }
  }

  /** Every record the walk reaches at the insertion level has the word of some tuple's key. */
  ghost predicate NoStrayKeys(upper: FRelation, uk: seq<Attr>, strategy: PathStrategy, types: seq<ValueType>) {
    forall k :: k in LookedUp(upper, uk, strategy) ==> HasPartner(FlatAll(upper.roots), uk, k, ByWord(types, types))
  }

  /** A side that other columns can be joined to. */
  ghost predicate JoinsWith(upper: FRelation, lower: FRelation, uk: seq<Attr>, lk: seq<Attr>, strategy: PathStrategy) {
    Countable(upper, lower, uk, lk, strategy) && |lk| == |uk| && AttrSet(lower.tree) !! AttrSet(upper.tree)
  }

  /** Whatever is below, and whatever its columns' types. */
  ghost predicate ExactOnEveryLower(kind: JoinKind, preserve: Preserve, mode: JoinMode, upper: FRelation, uk: seq<Attr>,
                                    strategy: PathStrategy, types: seq<ValueType>)
    requires Legal(kind, preserve)
  {
    forall lower, lk, partners: seq<ValueType> ::
      JoinsWith(upper, lower, uk, lk, strategy) ==> Exact(kind, preserve, mode, upper, lower, uk, lk, strategy, ByWord(types, partners))
  }

  /** A join that marks the side beneath counts right whatever that side is exactly if no key is
      looked up that no tuple of the side on top has. */
  lemma ExactOnEveryLowerIff(kind: JoinKind, preserve: Preserve, mode: JoinMode, upper: FRelation, uk: seq<Attr>, strategy: PathStrategy,
                             types: seq<ValueType>)
    requires Legal(kind, preserve) && MarksLower(preserve, mode)
    requires ValidRelation(upper) && Converges(PathTree(upper.tree, uk, strategy), uk)
    ensures ExactOnEveryLower(kind, preserve, mode, upper, uk, strategy, types) <==> NoStrayKeys(upper, uk, strategy, types)
  {
    hide Exact, LookedUp, ValidRelation, Converges, HasPartner;
    if NoStrayKeys(upper, uk, strategy, types) {
      forall lower, lk, partners: seq<ValueType> | JoinsWith(upper, lower, uk, lk, strategy)
        ensures Exact(kind, preserve, mode, upper, lower, uk, lk, strategy, ByWord(types, partners))
      {
        NoStrayIsRight(upper, lower, uk, lk, strategy, types, partners);
        ExactIs(kind, preserve, mode, upper, lower, uk, lk, strategy, ByWord(types, partners));
      }
    } else {
      var k :| k in LookedUp(upper, uk, strategy) && !HasPartner(FlatAll(upper.roots), uk, k, ByWord(types, types));
      LookedUpWidth(upper, uk, strategy, k);
      var lower, lk := StrayMet(upper, uk, strategy, types, k);
      ExactIs(kind, preserve, mode, upper, lower, uk, lk, strategy, ByWord(types, types));
    }
  }

  /** A stray key meets the tuple that has it. */
  lemma StrayMet(upper: FRelation, uk: seq<Attr>, strategy: PathStrategy, types: seq<ValueType>, k: seq<int>)
      returns (lower: FRelation, lk: seq<Attr>)
    requires ValidRelation(upper) && Converges(PathTree(upper.tree, uk, strategy), uk) && |k| == |uk|
    requires k in LookedUp(upper, uk, strategy) && !HasPartner(FlatAll(upper.roots), uk, k, ByWord(types, types))
    ensures JoinsWith(upper, lower, uk, lk, strategy) && !MarksRight(upper, lower, uk, lk, strategy, ByWord(types, types))
  {
    hide LookedUp, ValidRelation, Converges, FlatAll, HasPartner;
    var base := Above(AttrSet(upper.tree));
    lk := Columns(base, |uk|);
    lower := Single(lk, k);
    ColumnsDistinct(base, |uk|);
    SingleIsOneTuple(lk, k);
    TupleHasKey(lk, k);
    ScanConverges(AttrSetOf(lk), lk, strategy);
    assert Met(LookedUp(upper, uk, strategy), k, ByWord(types, types)) by { assert Meets(ByWord(types, types), k, k); }
    assert TupleWith(lk, k) in FlatAll(lower.roots);
  }

  /** Without stray keys every mark is right. */
  lemma NoStrayIsRight(upper: FRelation, lower: FRelation, uk: seq<Attr>, lk: seq<Attr>, strategy: PathStrategy,
                       types: seq<ValueType>, partners: seq<ValueType>)
    requires NoStrayKeys(upper, uk, strategy, types)
    ensures MarksRight(upper, lower, uk, lk, strategy, ByWord(types, partners))
  {
    hide LookedUp, FlatAll;
    forall t | t in FlatAll(lower.roots) && Met(LookedUp(upper, uk, strategy), KeyOf(t, lk), ByWord(types, partners))
      ensures HasPartner(FlatAll(upper.roots), uk, KeyOf(t, lk), ByWord(types, partners))
    {
      var k :| k in LookedUp(upper, uk, strategy) && Meets(ByWord(types, partners), k, KeyOf(t, lk));
      var u :| u in FlatAll(upper.roots) && Meets(ByWord(types, types), KeyOf(u, uk), k);
      assert Meets(ByWord(types, partners), KeyOf(u, uk), KeyOf(t, lk));
    }
  }

  //
  // Looked-up keys are as wide as the key
  //

  ghost predicate Wide(keys: seq<seq<int>>, n: nat) {
    forall k :: k in keys ==> |k| == n
  }

  lemma LookedUpWidth(upper: FRelation, uk: seq<Attr>, strategy: PathStrategy, k: seq<int>)
    requires k in LookedUp(upper, uk, strategy)
    ensures |k| == |uk|
  {
    WideAll(upper.roots, map[], PathTree(upper.tree, uk, strategy), Some(InsertionPath(upper.tree, uk, strategy)), uk, x => 1);
  }

  lemma {:induction false} WideAll(roots: seq<Rec>, ctx: Ctx, n: FNode, ins: Option<Path>, ka: seq<Attr>, f: seq<int> -> nat)
    ensures Wide(WalkAll(roots, ctx, n, ins, ka, f).keys, |ka|)
    decreases n, 2
  {
    WideList(roots, Iter(roots, ctx, n.sources), n, ins, ka, f);
  }

  lemma {:induction false} WideList(roots: seq<Rec>, cs: seq<Ctx>, n: FNode, ins: Option<Path>, ka: seq<Attr>, f: seq<int> -> nat)
    ensures Wide(WalkList(roots, cs, n, ins, ka, f).keys, |ka|)
    decreases n, 1, |cs|
  {
    if cs != [] {
      WideChildren(roots, cs[0], n.children, 0, ins, ka, f, Visit(WeightOf(cs[0], n.sources), []));
      WideList(roots, cs[1..], n, ins, ka, f);
    }
  }

  lemma {:induction false} WideChildren(roots: seq<Rec>, c: Ctx, ns: seq<FNode>, i: nat, ins: Option<Path>, ka: seq<Attr>,
                                        f: seq<int> -> nat, acc: Visit)
    requires Wide(acc.keys, |ka|)
    ensures Wide(WalkChildren(roots, c, ns, i, ins, ka, f, acc).keys, |ka|)
    decreases ns
  {
    if ns != [] {
      WideAll(roots, c, ns[0], Towards(ins, i), ka, f);
      WideChildren(roots, c, ns[1..], i + 1, ins, ka, f, Next(roots, c, ns[0], i, ins, ka, f, acc));
    }
  }

  //
  // The upper side above is a case in point
  //

  lemma LowerIsOneTuple()
    ensures FlatAll(Lower().roots) == [map[4 := 7]] && ValidRelation(Lower()) && Lower() == FRelation(Scan({4}), [Rec(map[4 := 7], 1, [])])
  {
    SingleIsOneTuple([4], [7]);
    assert [4][1..] == [] && [7][1..] == [];
    assert TupleWith([4], [7]) == map[4 := 7];
    assert AttrSetOf([4]) == {4};
  }

  lemma LowerPlan()
    ensures PathTree(Scan({4}), [4], LEVELWISE) == FNode({4}, [[]], [])
    ensures Converges(PathTree(Scan({4}), [4], LEVELWISE), [4])
  {
    var s, keys := Stamp(Scan({4}), []), [4];
    assert 4 in keys && HoldsKey(s, keys);
    assert s == FNode({4}, [[]], []) && Chosen(s.children, keys) == [];
  }

  /** A right outer join with an upper side that denotes nothing: its one row is the lower tuple,
      but the fused count is zero, the walk having marked its entry as matched. */
  lemma UnprunedOuterJoinMiscounts(how: Comparing)
    ensures Countable(Upper(), Lower(), [2], [4], LEVELWISE) && !PrunedAll(Upper().roots)
    ensures |SqlRows(PRODUCT, PROBE, FlatAll(Upper().roots), FlatAll(Lower().roots), [2], [4], how)| == 1
    ensures Meets(how, [7], [7]) ==> FusedCount(PRODUCT, PROBE, BOTTOM_INSERT, Upper(), Lower(), [2], [4], LEVELWISE, how) == 0
  {
    hide UpperWalk, PathTree, FlatAll, SqlRows, JoinCount, LowerEntries, Converges, ValidRelation, Upper, Lower, PrunedAll, Meets;
    UpperIsValid();
    UpperConverges();
    UpperIsEmpty();
    LowerIsOneTuple();
    LowerPlan();
    OneUnpartnered(how);
    LowerHasKey();
    var es := LowerEntries(Lower(), [4], LEVELWISE);
    KeyIsMarked(Factor(FoldProduct, es, how));
    if Meets(how, [7], [7]) { MarkedAway(es, how); }
  }

  lemma OneUnpartnered(how: Comparing)
    ensures |SqlRows(PRODUCT, PROBE, [], [map[4 := 7]], [2], [4], how)| == 1
  {
    var t: Tuple := map[4 := 7];
    assert Unpartnered([t], [], [4], [2], Mirrored(how)) == [t] by { assert [t][1..] == []; }
    assert BagJoin([], [t], [2], [4], how) == [];
  }

  lemma MarkedAway(es: seq<Entry>, how: Comparing)
    requires |es| == 1 && es[0].key == [7] && Meets(how, [7], [7])
    ensures JoinCount(PRODUCT, false, true, es, Visit(0, [[7]]), how) == 0
  {
    hide Meets;
    var marked: seq<seq<int>> := [[7]];
    assert marked[0] == [7] && es[1..] == [];
    assert Met(marked, es[0].key, how);
    assert Sweep(es[1..], marked, false, how) == 0;
    assert Sweep(es, marked, false, how) == 0;
  }

  lemma UpperIsValid()
    ensures ValidRelation(Upper()) && !PrunedAll(Upper().roots)
  {
    var t, r := UpperTree(), UpperRecord();
    assert Conforms(KeyRecord(), t.children[0]);
    assert AttrBagAll([t.children[1]]) == multiset{3} by { assert [t.children[1]][1..] == []; }
    assert t.children[1..] == [t.children[1]];
    assert AttrBag(t) == multiset{1} + (multiset{2} + multiset{3});
    assert Size(r) == 0 by { assert r.slots[1..] == [Slot([])] && SizeSlots([Slot([])]) == 0; }
    assert r in Upper().roots;
  }

  lemma LowerHasKey()
    requires Converges(PathTree(Lower().tree, [4], LEVELWISE), [4])
    ensures var es := LowerEntries(Lower(), [4], LEVELWISE); |es| == 1 && es[0].key == [7]
  {
    LowerPlan();
    var n, none: Ctx, r := FNode({4}, [[]], []), map[], Lower().roots[0];
    var c: Ctx := none[[] := r];
    assert KeyLevel(n, [4]) == [];
    OneCandidate(Lower().roots, none, [], r);
    FlatMapSingle(c, PathIterBelow(Lower().roots, n, []));
    assert PathIter(Lower().roots, none, n, []) == [c];
    assert [c][1..] == [];
    assert NodeAt(n, []) == Some(n);
    assert KeyOf(ValsOf(c, n.sources), [4]) == [7] by { assert n.sources[1..] == []; }
  }
}
