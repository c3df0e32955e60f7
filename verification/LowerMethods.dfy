/** The lower side of a join as it runs: one mutable flattening context overwritten in place
    by nested loops.

    The ghost argument `c` of every method is the context a pure recursion would have passed
    down; the mutable context agrees with it on the nodes bound so far and may hold leftovers
    of earlier iterations anywhere else. */
module LowerMethods {
  import opened Bags
  import opened FReps
  import opened FTrees
  import opened Flattening
  import opened Reordering
  import opened Restructuring
  import opened FlatJoins
  import opened Joins
  import opened Instances
  import opened FactorizedJoins
  import opened CountJoins
  import opened Outcomes
  import opened KeyPacking
  import opened Ranges

  /** Finds the one node all keys are stored at and checks that they fit a word. */
  method MakeKeyReader(n: FNode, keys: seq<Attr>, types: Types) returns (r: Outcome<Path>)
    ensures r.Ok? <==> Converges(n, keys) && TotalBits(TypesOf(types, keys)) <= 64
    ensures r.Ok? ==> r.value == KeyLevel(n, keys)
    ensures r.Failed? ==> r.error == if Converges(n, keys) then KeyTooWide else KeysDoNotConverge
  {
    var level: Path := [];
    var bits := 0;
    for i := 0 to |keys|
      invariant bits == TotalBits(TypesOf(types, keys[..i]))
      invariant i > 0 ==> LevelOf(n, keys[0]) == Some(level)
      invariant i == 0 ==> level == []
      invariant forall j :: 0 <= j < i ==> LevelOf(n, keys[j]) == Some(level)
    {
      var found := LevelOf(n, keys[i]);
      if found.None? || (i > 0 && found.value != level) {
        return Failed(KeysDoNotConverge);
      }
      level := found.value;
      BitsSnoc(types, keys, i);
      bits := bits + Bits(TypeOf(types, keys[i]));
    }
    assert keys[..|keys|] == keys;
    if bits > 64 {
      return Failed(KeyTooWide);
    }
    return Ok(level);
  }

  lemma {:induction false} BitsAppend(a: seq<ValueType>, b: seq<ValueType>)
    ensures TotalBits(a + b) == TotalBits(a) + TotalBits(b)
  {
    if a == [] {
      assert a + b == b;
    } else {
      assert (a + b)[1..] == a[1..] + b;
      BitsAppend(a[1..], b);
    }
  }

  lemma BitsSnoc(types: Types, keys: seq<Attr>, i: nat)
    requires i < |keys|
    ensures TotalBits(TypesOf(types, keys[..i + 1])) == TotalBits(TypesOf(types, keys[..i])) + Bits(TypeOf(types, keys[i]))
  {
    var t := TypeOf(types, keys[i]);
    assert TypesOf(types, keys[..i + 1]) == TypesOf(types, keys[..i]) + [t];
    BitsAppend(TypesOf(types, keys[..i]), [t]);
    assert [t][1..] == [];
  }

  //
  // Where a loop stands
  //

  /** The first `i` sources of `n` are bound, the others and everything below are not. */
  ghost predicate Placing(n: FNode, i: nat, bound: set<Path>) {
    && i <= |n.sources| && SetOf(n.sources[..i]) <= bound
    && Topological(n.sources[i..], bound) && WellPlacedAll(n.children, bound + SetOf(n.sources[i..]))
    && Fresh(n.sources[i..] + OrderAll(n.children), bound)
  }

  lemma PlacingStart(n: FNode, bound: set<Path>)
    requires Bindable(n, bound)
    ensures Placing(n, 0, bound)
  {
    assert n.sources[0..] == n.sources;
  }

  lemma PlacingStep(n: FNode, i: nat, bound: set<Path>)
    requires Placing(n, i, bound) && i < |n.sources|
    ensures Placing(n, i + 1, bound + {n.sources[i]}) && n.sources[i] !in bound
    ensures n.sources[i] == [] || Parent(n.sources[i]) in bound
    ensures n.sources[i..] == [n.sources[i]] + n.sources[i + 1..]
  {
    var v, rest := n.sources[i], n.sources[i + 1..];
    assert n.sources[i..] == [v] + rest;
    assert n.sources[..i + 1] == n.sources[..i] + [v];
    assert bound + {v} + SetOf(rest) == bound + SetOf(n.sources[i..]);
    assert n.sources[i..] + OrderAll(n.children) == [v] + (rest + OrderAll(n.children));
    FreshSplit([v], rest + OrderAll(n.children), bound);
    assert SetOf([v]) == {v};
    assert v in [v] && v in n.sources[i..] + OrderAll(n.children);
  }

  lemma PlacingDone(n: FNode, bound: set<Path>)
    requires Placing(n, |n.sources|, bound)
    ensures SetOf(n.sources) <= bound && WellPlacedAll(n.children, bound) && Fresh(OrderAll(n.children), bound)
    ensures forall i :: 0 <= i < |n.children| ==> Bindable(n.children[i], bound)
  {
    assert n.sources[..|n.sources|] == n.sources && n.sources[|n.sources|..] == [];
    assert bound + SetOf<Path>([]) == bound && [] + OrderAll(n.children) == OrderAll(n.children);
    forall i | 0 <= i < |n.children| ensures Bindable(n.children[i], bound) {
      PlacedAt(n.children, i, bound);
    }
  }

  /** Binding a new node in both contexts keeps them in agreement, and still in agreement
      once the binding has gone stale. */
  lemma AgreeBind(c: Ctx, d: Ctx, v: Path, r: Rec, bound: set<Path>)
    requires AgreeOn(c, d, bound)
    ensures AgreeOn(c[v := r], d[v := r], bound + {v})
  {}

  lemma AgreeUnbind(c: Ctx, d: Ctx, v: Path, r: Rec, bound: set<Path>)
    requires AgreeOn(c[v := r], d, bound + {v}) && v !in bound
    ensures AgreeOn(c, d, bound)
  {
    forall p | p in bound ensures AgreeAt(c, d, p) { assert AgreeAt(c[v := r], d, p); }
  }

  lemma FlatMapSnoc<T, U>(s: seq<T>, i: nat, f: T -> seq<U>)
    requires i < |s|
    ensures FlatMap(s[..i + 1], f) == FlatMap(s[..i], f) + f(s[i])
  {
    assert s[..i + 1] == s[..i] + [s[i]];
    FlatMapAppend(s[..i], [s[i]], f);
    FlatMapSingle(s[i], f);
  }

  //
  // Loops over contexts
  //

  /** What the nested loop over `s` emits when its body emits `g`. */
  function IterThen<T>(roots: seq<Rec>, c: Ctx, s: seq<Path>, g: Ctx -> seq<T>): seq<T> {
    FlatMap(Iter(roots, c, s), g)
  }

  function IterThenStep<T>(roots: seq<Rec>, c: Ctx, v: Path, rest: seq<Path>, g: Ctx -> seq<T>): Rec -> seq<T> {
    r => IterThen(roots, c[v := r], rest, g)
  }

  lemma IterThenUnfold<T>(roots: seq<Rec>, c: Ctx, v: Path, rest: seq<Path>, g: Ctx -> seq<T>)
    ensures IterThen(roots, c, [v] + rest, g) == FlatMap(Cands(roots, c, v), IterThenStep(roots, c, v, rest, g))
  {
    IterUnfold(roots, c, v, rest);
    FlatMapNest(Cands(roots, c, v), IterStep(roots, c, v, rest), g);
    FlatMapSame(Cands(roots, c, v), Then(IterStep(roots, c, v, rest), g), IterThenStep(roots, c, v, rest, g));
  }

  function MatAt(roots: seq<Rec>, n: FNode): Ctx -> Rec {
    c => MatNode(roots, c, n)
  }

  lemma MatAllIsLoop(roots: seq<Rec>, c: Ctx, n: FNode)
    ensures MatAll(roots, c, n) == IterThen(roots, c, n.sources[0..], One(MatAt(roots, n)))
  {
    assert n.sources[0..] == n.sources;
    FlatMapSame(Iter(roots, c, n.sources), d => [MatNode(roots, d, n)], One(MatAt(roots, n)));
  }

  //
  // The key path
  //

  /** Everything drawn on along the path is bound, everything beside it can be. */
  ghost predicate LowerPlaced(n: FNode, kp: Option<Path>, bound: set<Path>)
    decreases n
  {
    && SetOf(n.sources) <= bound
    && forall i :: 0 <= i < |n.children| ==>
      if Towards(kp, i).Some? then LowerPlaced(n.children[i], Towards(kp, i), bound) else Bindable(n.children[i], bound)
  }

  /** The input nodes drawn on along the path. */
  function PathSources(n: FNode, kp: Path): set<Path>
    decreases n
  {
    SetOf(n.sources) + PathSourcesBelow(n, kp)
  }

  function PathSourcesBelow(n: FNode, kp: Path): set<Path>
    decreases n, 0
  {
    if kp == [] || kp[0] >= |n.children| then {} else PathSources(n.children[kp[0]], kp[1..])
  }

  lemma {:induction false} PathSourcesInOrder(n: FNode, kp: Path)
    ensures forall v :: v in PathSources(n, kp) ==> v in Order(n)
    decreases n
  {
    if !(kp == [] || kp[0] >= |n.children|) {
      PathSourcesInOrder(n.children[kp[0]], kp[1..]);
      OrderOfChild(n.children, kp[0]);
    }
  }

  lemma {:induction false} SiblingOrders(ns: seq<FNode>, i: nat, j: nat, bound: set<Path>)
    requires i < |ns| && j < |ns| && i != j && Fresh(OrderAll(ns), bound)
    ensures forall v :: v in Order(ns[i]) ==> v !in Order(ns[j])
  {
    FreshSplit(Order(ns[0]), OrderAll(ns[1..]), bound);
    if i == 0 {
      OrderOfChild(ns[1..], j - 1);
    } else if j == 0 {
      OrderOfChild(ns[1..], i - 1);
    } else {
      SiblingOrders(ns[1..], i - 1, j - 1, bound);
    }
  }

  lemma {:induction false} LowerPlacedWhole(n: FNode, kp: Path, bound: set<Path>, large: set<Path>)
    requires Bindable(n, bound) && bound + PathSources(n, kp) <= large
    requires forall v :: v in Order(n) && v in large ==> v in PathSources(n, kp)
    ensures LowerPlaced(n, Some(kp), large)
    decreases n
  {
    var under := bound + SetOf(n.sources);
    FreshSplit(n.sources, OrderAll(n.children), bound);
    forall i | 0 <= i < |n.children|
      ensures if Towards(Some(kp), i).Some? then LowerPlaced(n.children[i], Towards(Some(kp), i), large)
              else Bindable(n.children[i], large)
    {
      BindableChild(n, i, bound);
      OrderOfChild(n.children, i);
      if Towards(Some(kp), i).Some? {
        LowerPlacedWhole(n.children[i], kp[1..], under, large);
      } else {
        WellPlacedMonotone(n.children[i], under, large);
        forall v | v in Order(n.children[i]) ensures v !in large {
          if v in large && kp != [] && kp[0] < |n.children| {
            PathSourcesInOrder(n.children[kp[0]], kp[1..]);
            SiblingOrders(n.children, i, kp[0], under);
          }
        }
      }
    }
  }

  lemma {:induction false} KeyNodeOnPath(n: FNode, kp: Path)
    requires NodeAt(n, kp).Some?
    ensures SetOf(NodeAt(n, kp).value.sources) <= PathSources(n, kp)
    decreases n
  {
    if kp != [] { KeyNodeOnPath(n.children[kp[0]], kp[1..]); }
  }

  /** One output record: fixed along the path when there is one, materialized otherwise. */
  function LowerOr(roots: seq<Rec>, c: Ctx, n: FNode, kp: Option<Path>): Rec {
    if kp.Some? then LowerNode(roots, c, n, kp.value) else MatNode(roots, c, n)
  }

  function LowerSlot(roots: seq<Rec>, c: Ctx, n: FNode, kp: Option<Path>, i: nat): Slot
    requires i < |n.children|
  {
    if Towards(kp, i).Some? then Slot([LowerOr(roots, c, n.children[i], Towards(kp, i))])
    else Slot(MatAll(roots, c, n.children[i]))
  }

  lemma LowerSlots(roots: seq<Rec>, c: Ctx, n: FNode, kp: Option<Path>)
    ensures var r := LowerOr(roots, c, n, kp);
            && r.vals == ValsOf(c, n.sources) && r.weight == WeightOf(c, n.sources) && |r.slots| == |n.children|
            && forall i :: 0 <= i < |n.children| ==> r.slots[i] == LowerSlot(roots, c, n, kp, i)
  {
    forall i | 0 <= i < |n.children| ensures LowerOr(roots, c, n, kp).slots[i] == LowerSlot(roots, c, n, kp, i) {
      MatChildrenAt(roots, c, n.children, i);
    }
  }

  lemma {:induction false} SizeSlotsAppend(a: seq<Slot>, b: seq<Slot>)
    ensures SizeSlots(a + b) == SizeSlots(a) * SizeSlots(b)
  {
    if a == [] {
      assert a + b == b;
    } else {
      assert (a + b)[0] == a[0] && (a + b)[1..] == a[1..] + b;
      SizeSlotsAppend(a[1..], b);
      Regrouped(SizeAll(a[0].recs), SizeSlots(a[1..]), SizeSlots(b));
    }
  }

  lemma SizeAllAppend(a: seq<Rec>, b: seq<Rec>)
    ensures SizeAll(a + b) == SizeAll(a) + SizeAll(b)
  {
    if a == [] {
      assert a + b == b;
    } else {
      assert (a + b)[1..] == a[1..] + b;
      SizeAllAppend(a[1..], b);
    }
  }

  /** What a record's size is once its first `i + 1` slots are multiplied in; nothing after an
      empty slot changes it. */
  lemma SizePrefix(slots: seq<Slot>, i: nat, w: nat)
    requires i < |slots|
    ensures w * SizeSlots(slots[..i]) * SizeAll(slots[i].recs) == w * SizeSlots(slots[..i + 1])
    ensures w * SizeSlots(slots[..i + 1]) == 0 ==> w * SizeSlots(slots) == 0
  {
    assert slots[..i + 1] == slots[..i] + [slots[i]] && slots == slots[..i + 1] + slots[i + 1..];
    SizeSlotsAppend(slots[..i], [slots[i]]);
    SizeSlotsAppend(slots[..i + 1], slots[i + 1..]);
    assert [slots[i]][1..] == [];
    assert SizeSlots([slots[i]]) == SizeAll(slots[i].recs);
    Regrouped(w, SizeSlots(slots[..i]), SizeAll(slots[i].recs));
    Regrouped(w, SizeSlots(slots[..i + 1]), SizeSlots(slots[i + 1..]));
  }

  lemma Regrouped(a: nat, b: nat, c: nat)
    ensures a * b * c == a * (b * c)
    ensures a * b == 0 ==> a * (b * c) == 0
  {}

  //
  // The walk over the key path
  //

  datatype Want = SNAPSHOT | RECORD | SIZE

  datatype Payload = Snapshot(ctx: Ctx) | Built(rec: Rec) | Sized(size: nat)

  /** What the loop over the key path hands over at the key level: the packed key, with a copy
      of the context, the record built from it, or the size that record would have. */
  datatype Item = Item(key: nat, payload: Payload)

  /** The lower side of one join: its tree, its key level and its key columns. */
  datatype Lower = Lower(tree: FNode, kp: Path, keys: seq<Attr>, types: Types)

  ghost predicate ItemOf(x: Item, want: Want, roots: seq<Rec>, c: Ctx, low: Lower) {
    && x.key == PackKey(low.types, low.keys, InstanceKeyOf(c, low))
    && match x.payload
       case Snapshot(d) => want == SNAPSHOT && AgreeOn(c, d, PathSources(low.tree, low.kp))
       case Built(r) => want == RECORD && r == LowerNode(roots, c, low.tree, low.kp)
       case Sized(s) => want == SIZE && s == Size(LowerNode(roots, c, low.tree, low.kp))
  }

  ghost predicate ItemsOf(xs: seq<Item>, want: Want, roots: seq<Rec>, cs: seq<Ctx>, low: Lower) {
    |xs| == |cs| && forall i :: 0 <= i < |xs| ==> ItemOf(xs[i], want, roots, cs[i], low)
  }

  function InstanceKeyOf(c: Ctx, low: Lower): (k: seq<int>)
    ensures |k| == |low.keys|
  {
    match NodeAt(low.tree, low.kp)
    case None => KeyOf(map[], low.keys)
    case Some(n) => KeyOf(ValsOf(c, n.sources), low.keys)
  }

  lemma ItemsAppend(xs: seq<Item>, ys: seq<Item>, want: Want, roots: seq<Rec>, cs: seq<Ctx>, ds: seq<Ctx>, low: Lower)
    requires ItemsOf(xs, want, roots, cs, low) && ItemsOf(ys, want, roots, ds, low)
    ensures ItemsOf(xs + ys, want, roots, cs + ds, low)
  {
    hide ItemOf;
  }

  /** The tree can be bound from scratch and its key level exists. */
  ghost predicate LowerReady(low: Lower) {
    Bindable(low.tree, {}) && NodeAt(low.tree, low.kp).Some?
  }

  /** Where the walk over the key path stands: `i` sources of `n` are bound, and with the rest
      of the path from there on the whole path will be. */
  ghost predicate OnPath(low: Lower, n: FNode, kp: Path, i: nat, bound: set<Path>) {
    && LowerReady(low) && NodeAt(n, kp).Some? && i <= |n.sources| && Placing(n, i, bound)
    && bound + SetOf(n.sources[i..]) + PathSourcesBelow(n, kp) == PathSources(low.tree, low.kp)
  }

  lemma OnPathDown(low: Lower, n: FNode, kp: Path, bound: set<Path>)
    requires OnPath(low, n, kp, |n.sources|, bound) && kp != []
    ensures OnPath(low, n.children[kp[0]], kp[1..], 0, bound)
  {
    PlacingDone(n, bound);
    var child := n.children[kp[0]];
    PlacingStart(child, bound);
    assert child.sources[0..] == child.sources && n.sources[|n.sources|..] == [];
    assert bound + SetOf<Path>([]) + PathSources(child, kp[1..])
        == bound + SetOf(child.sources) + PathSourcesBelow(child, kp[1..]);
  }

  lemma OnPathEnd(low: Lower, n: FNode, bound: set<Path>)
    requires OnPath(low, n, [], |n.sources|, bound)
    ensures bound == PathSources(low.tree, low.kp) && LowerPlaced(low.tree, Some(low.kp), bound)
  {
    assert n.sources[|n.sources|..] == [];
    assert bound + SetOf<Path>([]) + {} == bound;
    LowerPlacedWhole(low.tree, low.kp, {}, bound);
  }

  lemma OnPathStep(low: Lower, n: FNode, kp: Path, i: nat, bound: set<Path>)
    requires OnPath(low, n, kp, i, bound) && i < |n.sources|
    ensures OnPath(low, n, kp, i + 1, bound + {n.sources[i]})
  {
    PlacingStep(n, i, bound);
    var rest := n.sources[i + 1..];
    assert bound + {n.sources[i]} + SetOf(rest) == bound + SetOf(n.sources[i..]);
  }

  /** The lower input of a join while it is being flattened. */
  class LowerSide {
    const roots: seq<Rec>
    var ctx: Ctx

    constructor (roots: seq<Rec>)
      ensures this.roots == roots && ctx == map[]
    {
      this.roots, ctx := roots, map[];
    }

    /** Fills one output record from the records fixed in the context, and builds everything
        below it: the single child that is fixed on the key path, all children elsewhere. */
    method MaterializeLower(ghost c: Ctx, n: FNode, kp: Option<Path>, ghost bound: set<Path>) returns (r: Outcome<Rec>)
      requires AgreeOn(c, ctx, bound) && LowerPlaced(n, kp, bound)
      modifies this`ctx
      ensures r.Ok? ==> r.value == LowerOr(roots, c, n, kp) && AgreeOn(c, ctx, bound)
      decreases n, 0, 0
    {
      hide LowerOr, MatAll;
      ValsFrame(c, ctx, n.sources);
      LowerSlots(roots, c, n, kp);
      var vals := ValsOf(ctx, n.sources);
      var weight :- Weight(ctx, n.sources);
      var slots: seq<Slot> := [];
      for i := 0 to |n.children|
        invariant AgreeOn(c, ctx, bound) && |slots| == i
        invariant forall j :: 0 <= j < i ==> slots[j] == LowerSlot(roots, c, n, kp, j)
      {
        if Towards(kp, i).Some? {
          var one :- MaterializeLower(c, n.children[i], Towards(kp, i), bound);
          slots := slots + [Slot([one])];
        } else {
          PlacingStart(n.children[i], bound);
          var recs :- IterateLower(c, n.children[i], 0, bound);
          MatAllIsLoop(roots, c, n.children[i]);
          slots := slots + [Slot(recs)];
        }
      }
      assert slots == LowerOr(roots, c, n, kp).slots;
      return Ok(Rec(vals, weight, slots));
    }

    /** The nested loop over the sources of `n`, from the `i`-th on, appending one output
        record per combination. */
    method IterateLower(ghost c: Ctx, n: FNode, i: nat, ghost bound: set<Path>) returns (out: Outcome<seq<Rec>>)
      requires AgreeOn(c, ctx, bound) && Placing(n, i, bound)
      modifies this`ctx
      ensures out.Ok? ==> out.value == IterThen(roots, c, n.sources[i..], One(MatAt(roots, n))) && AgreeOn(c, ctx, bound)
      decreases n, 1, |n.sources| - i
    {
      hide MatNode;
      ghost var g := One(MatAt(roots, n));
      if i == |n.sources| {
        LowerPlacedAll(n, bound);
        var r :- MaterializeLower(c, n, None, bound);
        FlatMapSingle(c, g);
        assert n.sources[i..] == [];
        return Ok([r]);
      }
      var v := n.sources[i];
      PlacingStep(n, i, bound);
      ghost var step := IterThenStep(roots, c, v, n.sources[i + 1..], g);
      var cands, built := Cands(roots, ctx, v), [];
      for j := 0 to |cands|
        invariant AgreeOn(c, ctx, bound)
        invariant built == FlatMap(cands[..j], step)
      {
        AgreeBind(c, ctx, v, cands[j], bound);
        ctx := ctx[v := cands[j]];
        var more :- IterateLower(c[v := cands[j]], n, i + 1, bound + {v});
        AgreeUnbind(c, ctx, v, cands[j], bound);
        FlatMapSnoc(cands, j, step);
        built := built + more;
      }
      assert cands[..|cands|] == cands;
      IterThenUnfold(roots, c, v, n.sources[i + 1..], g);
      return Ok(built);
    }

    /** The size the record would have had, without building it: slots multiply, and the first
        empty one ends the walk. */
    method SizeOfLower(ghost c: Ctx, n: FNode, kp: Option<Path>, ghost bound: set<Path>) returns (r: Outcome<nat>)
      requires AgreeOn(c, ctx, bound) && LowerPlaced(n, kp, bound)
      modifies this`ctx
      ensures r.Ok? ==> r.value == Size(LowerOr(roots, c, n, kp)) && AgreeOn(c, ctx, bound)
      decreases n, 0, 0
    {
      hide LowerOr, MatAll, SizeSlots, SizeAll;
      ValsFrame(c, ctx, n.sources);
      LowerSlots(roots, c, n, kp);
      ghost var all := LowerOr(roots, c, n, kp).slots;
      var weight :- Weight(ctx, n.sources);
      var size := weight;
      SizeOfNone();
      for i := 0 to |n.children|
        invariant AgreeOn(c, ctx, bound)
        invariant size == weight * SizeSlots(all[..i])
      {
        var total;
        if Towards(kp, i).Some? {
          total :- SizeOfLower(c, n.children[i], Towards(kp, i), bound);
          SizeOfOne(LowerOr(roots, c, n.children[i], Towards(kp, i)));
        } else {
          PlacingStart(n.children[i], bound);
          total :- SumLower(c, n.children[i], 0, bound);
          MatAllIsLoop(roots, c, n.children[i]);
        }
        SizePrefix(all, i, weight);
        size :- Times(size, total);
        if size == 0 { return Ok(0); }
      }
      assert all[..|n.children|] == all;
      return Ok(size);
    }

    method SumLower(ghost c: Ctx, n: FNode, i: nat, ghost bound: set<Path>) returns (sum: Outcome<nat>)
      requires AgreeOn(c, ctx, bound) && Placing(n, i, bound)
      modifies this`ctx
      ensures sum.Ok? ==> sum.value == SizeAll(IterThen(roots, c, n.sources[i..], One(MatAt(roots, n))))
      ensures sum.Ok? ==> AgreeOn(c, ctx, bound)
      decreases n, 1, |n.sources| - i
    {
      hide MatNode, SizeAll;
      ghost var g := One(MatAt(roots, n));
      if i == |n.sources| {
        LowerPlacedAll(n, bound);
        var r := SizeOfLower(c, n, None, bound);
        FlatMapSingle(c, g);
        SizeOfOne(MatNode(roots, c, n));
        assert n.sources[i..] == [];
        return r;
      }
      var v := n.sources[i];
      PlacingStep(n, i, bound);
      ghost var step := IterThenStep(roots, c, v, n.sources[i + 1..], g);
      var cands, total := Cands(roots, ctx, v), 0;
      SizeOfNone();
      for j := 0 to |cands|
        invariant AgreeOn(c, ctx, bound)
        invariant total == SizeAll(FlatMap(cands[..j], step))
      {
        AgreeBind(c, ctx, v, cands[j], bound);
        ctx := ctx[v := cands[j]];
        var more :- SumLower(c[v := cands[j]], n, i + 1, bound + {v});
        AgreeUnbind(c, ctx, v, cands[j], bound);
        FlatMapSnoc(cands, j, step);
        SizeAllAppend(FlatMap(cands[..j], step), step(cands[j]));
        total :- Plus(total, more);
      }
      assert cands[..|cands|] == cands;
      IterThenUnfold(roots, c, v, n.sources[i + 1..], g);
      return Ok(total);
    }

    /** What happens at the key level of one combination of records. */
    method OnKey(ghost c: Ctx, low: Lower, want: Want) returns (x: Outcome<Item>)
      requires LowerReady(low) && LowerPlaced(low.tree, Some(low.kp), PathSources(low.tree, low.kp))
      requires AgreeOn(c, ctx, PathSources(low.tree, low.kp))
      modifies this`ctx
      ensures x.Ok? ==> ItemOf(x.value, want, roots, c, low) && AgreeOn(c, ctx, PathSources(low.tree, low.kp))
    {
      ghost var path := PathSources(low.tree, low.kp);
      KeyNodeOnPath(low.tree, low.kp);
      ValsFrame(c, ctx, NodeAt(low.tree, low.kp).value.sources);
      var key := PackKey(low.types, low.keys, InstanceKeyOf(ctx, low));
      match want {
        case SNAPSHOT => return Ok(Item(key, Snapshot(ctx)));
        case RECORD =>
          var rec :- MaterializeLower(c, low.tree, Some(low.kp), path);
          return Ok(Item(key, Built(rec)));
        case SIZE =>
          var size :- SizeOfLower(c, low.tree, Some(low.kp), path);
          return Ok(Item(key, Sized(size)));
      }
    }

    /** Iterates only the nodes on the way to the key level. */
    method IterateKeyPath(ghost c: Ctx, low: Lower, want: Want, n: FNode, kp: Path, i: nat, ghost bound: set<Path>)
      returns (out: Outcome<seq<Item>>)
      requires AgreeOn(c, ctx, bound) && OnPath(low, n, kp, i, bound)
      modifies this`ctx
      ensures out.Ok? ==>
        ItemsOf(out.value, want, roots, IterThen(roots, c, n.sources[i..], PathIterBelow(roots, n, kp)), low)
      ensures out.Ok? ==> AgreeOn(c, ctx, bound)
      decreases n, 1, |n.sources| - i
    {
      hide ItemOf, Placing;
      ghost var g := PathIterBelow(roots, n, kp);
      if i == |n.sources| {
        assert n.sources[i..] == [];
        FlatMapSingle(c, g);
        if kp == [] {
          OnPathEnd(low, n, bound);
          var x :- OnKey(c, low, want);
          return Ok([x]);
        }
        OnPathDown(low, n, kp, bound);
        var child := n.children[kp[0]];
        out := IterateKeyPath(c, low, want, child, kp[1..], 0, bound);
        assert child.sources[0..] == child.sources;
        return;
      }
      var v := n.sources[i];
      OnPathStep(low, n, kp, i, bound);
      PlacingStep(n, i, bound);
      ghost var step := IterThenStep(roots, c, v, n.sources[i + 1..], g);
      var cands := Cands(roots, ctx, v);
      var items: seq<Item> := [];
      for j := 0 to |cands|
        invariant AgreeOn(c, ctx, bound)
        invariant ItemsOf(items, want, roots, FlatMap(cands[..j], step), low)
      {
        AgreeBind(c, ctx, v, cands[j], bound);
        ctx := ctx[v := cands[j]];
        var more :- IterateKeyPath(c[v := cands[j]], low, want, n, kp, i + 1, bound + {v});
        AgreeUnbind(c, ctx, v, cands[j], bound);
        FlatMapSnoc(cands, j, step);
        ItemsAppend(items, more, want, roots, FlatMap(cands[..j], step), step(cands[j]), low);
        items := items + more;
      }
      assert cands[..|cands|] == cands;
      IterThenUnfold(roots, c, v, n.sources[i + 1..], g);
      return Ok(items);
    }
  }

  lemma LowerPlacedAll(n: FNode, bound: set<Path>)
    requires Placing(n, |n.sources|, bound)
    ensures LowerPlaced(n, None, bound)
  {
    PlacingDone(n, bound);
  }

  lemma SizeOfOne(r: Rec)
    ensures SizeAll([r]) == Size(r)
  {}

  lemma SizeOfNone()
    ensures SizeAll([]) == 0 && SizeSlots([]) == 1
  {}

  /** The multiplicity of the output record, checked factor by factor. */
  method Weight(ctx: Ctx, srcs: seq<Path>) returns (w: Outcome<nat>)
    ensures w.Ok? ==> w.value == WeightOf(ctx, srcs)
  {
    w := Ok(1);
    for i := 0 to |srcs|
      invariant w.Ok? && w.value * WeightOf(ctx, srcs[i..]) == WeightOf(ctx, srcs)
    {
      var factor := At(ctx, srcs[i]).weight;
      Regrouped(w.value, factor, WeightOf(ctx, srcs[i + 1..]));
      assert srcs[i..][0] == srcs[i] && srcs[i..][1..] == srcs[i + 1..];
      var product :- Times(w.value, factor);
      w := Ok(product);
    }
  }
}
