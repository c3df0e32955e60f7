/** The fused count as it runs: sizes of the lower instances in a hash table, a walk over the
    upper side that multiplies them in and marks what it reached, and a sweep over the marks. */
module CountMethods {
  import opened Bags
  import opened FReps
  import opened FTrees
  import opened Flattening
  import opened Transforming
  import opened FlatJoins
  import opened Instances
  import opened FactorizedJoins
  import opened CountJoins
  import opened Reaching
  import opened Outcomes
  import opened KeyPacking
  import opened Ranges
  import opened SqlJoins
  import opened RowCounts
  import opened WordJoins
  import opened LowerMethods
  import opened UpperMethods
  import opened JoinMethods
  import opened HashTables

  /** One indexed lower instance: what it would contribute, and whether anything reached it. */
  datatype LowerEntry = LowerEntry(size: nat, matched: bool)

  type Marked = seq<(nat, LowerEntry)>

  function SumSizes(es: seq<LowerEntry>): nat {
    if es == [] then 0 else es[0].size + SumSizes(es[1..])
  }

  /** The entries under any of the keys, marked. */
  function Marks(entries: Marked, keys: seq<seq<int>>, up: Upper, on: bool): (m: Marked)
    ensures |m| == |entries|
    ensures forall i :: 0 <= i < |m| ==>
      m[i] == (entries[i].0, LowerEntry(entries[i].1.size,
                                        entries[i].1.matched || (on && exists k :: k in keys && PackKey(up.types, up.keys, k) == entries[i].0)))
  {
    if entries == [] then []
    else
      var (key, e) := entries[0];
      [(key, LowerEntry(e.size, e.matched || (on && exists k :: k in keys && PackKey(up.types, up.keys, k) == key)))]
      + Marks(entries[1..], keys, up, on)
  }

  lemma MarksNone(entries: Marked, up: Upper, on: bool)
    ensures Marks(entries, [], up, on) == entries
  {}

  lemma MarksBoth(entries: Marked, a: seq<seq<int>>, b: seq<seq<int>>, up: Upper, on: bool)
    ensures Marks(Marks(entries, a, up, on), b, up, on) == Marks(entries, a + b, up, on)
  {
    forall i | 0 <= i < |entries|
      ensures Marks(Marks(entries, a, up, on), b, up, on)[i] == Marks(entries, a + b, up, on)[i]
    {
      assert forall k :: k in a + b <==> k in a || k in b;
    }
  }

  function MarkOne(on: bool): LowerEntry -> LowerEntry {
    (e: LowerEntry) => if on then e.(matched := true) else e
  }

  lemma ChangedIsMarks(entries: Marked, k: seq<int>, up: Upper, on: bool)
    ensures Changed(entries, PackKey(up.types, up.keys, k), MarkOne(on)) == Marks(entries, [k], up, on)
  {
    var a, b := Changed(entries, PackKey(up.types, up.keys, k), MarkOne(on)), Marks(entries, [k], up, on);
    forall i | 0 <= i < |entries| ensures a[i] == b[i] {
      assert k in [k];
    }
  }

  lemma {:induction false} MarksKeepSizes(entries: Marked, keys: seq<seq<int>>, up: Upper, on: bool, key: nat)
    ensures SumSizes(Latest(Marks(entries, keys, up, on), key)) == SumSizes(Latest(entries, key))
    decreases |entries|
  {
    if entries != [] {
      var n := |entries| - 1;
      var m := Marks(entries, keys, up, on);
      assert m[..n] == Marks(entries[..n], keys, up, on);
      MarksKeepSizes(entries[..n], keys, up, on, key);
    }
  }

  /** The table holds, under the word of every key, entries of the given total size. */
  ghost predicate Holds(entries: Marked, up: Upper, total: seq<int> -> nat) {
    forall k :: SumSizes(Latest(entries, PackKey(up.types, up.keys, k))) == total(k)
  }

  lemma MarksHold(entries: Marked, keys: seq<seq<int>>, up: Upper, on: bool, total: seq<int> -> nat)
    requires Holds(entries, up, total)
    ensures Holds(Marks(entries, keys, up, on), up, total)
  {
    forall k
      ensures SumSizes(Latest(Marks(entries, keys, up, on), PackKey(up.types, up.keys, k))) == total(k)
    {
      MarksKeepSizes(entries, keys, up, on, PackKey(up.types, up.keys, k));
    }
  }

  lemma {:induction false} WalkListAppend(roots: seq<Rec>, cs: seq<Ctx>, ds: seq<Ctx>, n: FNode, ins: Option<Path>,
                                          ka: seq<Attr>, f: seq<int> -> nat)
    ensures var v, w := WalkList(roots, cs, n, ins, ka, f), WalkList(roots, ds, n, ins, ka, f);
            WalkList(roots, cs + ds, n, ins, ka, f) == Visit(v.size + w.size, v.keys + w.keys)
    decreases |cs|
  {
    hide WalkNode, WalkAll, WalkChildren;
    if cs == [] {
      assert cs + ds == ds;
      assert [] + WalkList(roots, ds, n, ins, ka, f).keys == WalkList(roots, ds, n, ins, ka, f).keys;
    } else {
      assert (cs + ds)[0] == cs[0] && (cs + ds)[1..] == cs[1..] + ds;
      WalkListAppend(roots, cs[1..], ds, n, ins, ka, f);
    }
  }

  lemma WalkListOne(roots: seq<Rec>, c: Ctx, n: FNode, ins: Option<Path>, ka: seq<Attr>, f: seq<int> -> nat)
    ensures WalkList(roots, [c], n, ins, ka, f) == WalkNode(roots, c, n, ins, ka, f)
    ensures WalkList(roots, [], n, ins, ka, f) == Visit(0, [])
  {
    assert [c][1..] == [];
  }

  /** The upper input of a counting join. */
  class OutputCounter {
    const roots: seq<Rec>
    const up: Upper
    const fold: UpperFold
    const markLower: bool
    const table: ChainingHashTable<LowerEntry>
    ghost const total: seq<int> -> nat
    var ctx: Ctx

    ghost predicate Valid()
      reads table, table.next, table.directory
    {
      table.Valid() && table.finalized && Holds(table.entries, up, total)
    }

    constructor (roots: seq<Rec>, up: Upper, fold: UpperFold, markLower: bool, table: ChainingHashTable<LowerEntry>,
                 ghost total: seq<int> -> nat)
      requires table.Valid() && table.finalized && Holds(table.entries, up, total)
      ensures this.roots == roots && this.up == up && this.fold == fold && this.markLower == markLower
      ensures this.table == table && this.total == total && Valid()
    {
      this.roots, this.up, this.fold, this.markLower := roots, up, fold, markLower;
      this.table, this.total, ctx := table, total, map[];
    }

    /** Sums whatever matches the key and marks it. */
    method Reach(k: seq<int>) returns (r: Outcome<nat>)
      requires Valid()
      modifies table`entries
      ensures r.Ok? ==> Valid() && r.value == total(k)
      ensures r.Ok? ==> table.entries == Marks(old(table.entries), [k], up, markLower)
    {
      hide Holds, Marks;
      TotalOf(table.entries, up, total, k);
      MarksHold(table.entries, [k], up, markLower, total);
      ChangedIsMarks(table.entries, k, up, markLower);
      var found := table.ForEachMatchMutable(PackKey(up.types, up.keys, k), MarkOne(markLower));
      var matched: nat := 0;
      for i := 0 to |found|
        invariant matched + SumSizes(found[i..]) == total(k)
      {
        assert found[i..][0] == found[i] && found[i..][1..] == found[i + 1..];
        matched :- Plus(matched, found[i].size);
      }
      return Ok(matched);
    }

    /** What the fold makes of a size at the insertion level. */
    method Matched(k: seq<int>, size: nat) returns (r: Outcome<nat>)
      requires Valid()
      modifies table`entries
      ensures r.Ok? ==> Valid() && r.value == size * FoldFactor(fold, total)(k)
      ensures r.Ok? ==> table.entries == Marks(old(table.entries), [k], up, markLower)
    {
      hide Valid, Marks, FoldFactor;
      FoldIsFactor(fold, size, total, k);
      var matched :- Reach(k);
      match fold {
        case FoldProduct => return Times(size, matched);
        case FoldPreserve => return Times(size, if matched == 0 then 1 else matched);
        case FoldSemi => return Ok(if matched > 0 then size else 0);
        case FoldAnti => return Ok(if matched == 0 then size else 0);
        case MarkOnly => return Ok(size);
      }
    }

    /** The size of one record of the output: slots multiply, the first empty one ends it. */
    method Of(ghost t: FNode, ghost c: Ctx, n: FNode, ins: Option<Path>, ghost bound: set<Path>) returns (r: Outcome<nat>)
      requires Valid() && AgreeOn(c, ctx, bound) && Placing(n, |n.sources|, bound)
      requires Fits(up, t, roots, c, n, ins) && bound <= c.Keys
      modifies this`ctx, table`entries
      ensures r.Ok? ==> Valid() && AgreeOn(c, ctx, bound)
      ensures r.Ok? ==> var v := WalkNode(roots, c, n, ins, up.keys, FoldFactor(fold, total));
        r.value == v.size && table.entries == Marks(old(table.entries), v.keys, up, markLower)
      decreases n, 0, 1
    {
      hide Valid, Placing, Marks, WalkChildren;
      PlacingDone(n, bound);
      ValsFrame(c, ctx, n.sources);
      ghost var factor, was := FoldFactor(fold, total), table.entries;
      var weight :- Weight(ctx, n.sources);
      var size :- Slots(t, c, n, ins, weight, bound);
      ghost var v := WalkChildren(roots, c, n.children, 0, ins, up.keys, factor, Visit(weight, []));
      if size == 0 && n.children != [] { return Ok(0); }
      if ins == Some([]) {
        ValsFrame(c, ctx, n.sources);
        var k := KeyOf(ValsOf(ctx, n.sources), up.keys);
        size :- Matched(k, size);
        MarksBoth(was, v.keys, [k], up, markLower);
      }
      return Ok(size);
    }

    method Slots(ghost t: FNode, ghost c: Ctx, n: FNode, ins: Option<Path>, weight: nat, ghost bound: set<Path>)
      returns (r: Outcome<nat>)
      requires Valid() && AgreeOn(c, ctx, bound) && Placing(n, |n.sources|, bound)
      requires Fits(up, t, roots, c, n, ins) && bound <= c.Keys
      modifies this`ctx, table`entries
      ensures r.Ok? ==> Valid() && AgreeOn(c, ctx, bound)
      ensures r.Ok? ==> var v := WalkChildren(roots, c, n.children, 0, ins, up.keys, FoldFactor(fold, total), Visit(weight, []));
        r.value == v.size && table.entries == Marks(old(table.entries), v.keys, up, markLower)
      decreases n, 0, 0
    {
      hide Valid, Placing, Marks, Fits, WalkAll;
      PlacingDone(n, bound);
      ghost var factor, was := FoldFactor(fold, total), table.entries;
      ghost var all := WalkChildren(roots, c, n.children, 0, ins, up.keys, factor, Visit(weight, []));
      ghost var acc := Visit(weight, []);
      var size := weight;
      MarksNone(was, up, markLower);
      assert n.children[0..] == n.children;
      for i := 0 to |n.children|
        invariant Valid() && AgreeOn(c, ctx, bound)
        invariant acc.size == size && table.entries == Marks(was, acc.keys, up, markLower)
        invariant WalkChildren(roots, c, n.children[i..], i, ins, up.keys, factor, acc) == all
      {
        PlacingStart(n.children[i], bound);
        FitsChild(up, t, roots, c, n, ins, i);
        var total :- Level(t, c, n.children[i], Towards(ins, i), 0, bound, true);
        size :- Times(size, total);
        ghost var w := WalkAll(roots, c, n.children[i], Towards(ins, i), up.keys, factor);
        WalkAllIsList(roots, c, n.children[i], Towards(ins, i), up.keys, factor);
        MarksBoth(was, acc.keys, w.keys, up, markLower);
        ChildStep(roots, c, n.children, i, ins, up.keys, factor, acc);
        acc := Visit(acc.size * w.size, acc.keys + w.keys);
        if size == 0 { return Ok(0); }
      }
      return Ok(size);
    }

    /** Sums over the combinations of records of one node. */
    method Level(ghost t: FNode, ghost c: Ctx, n: FNode, ins: Option<Path>, i: nat, ghost bound: set<Path>, add: bool)
      returns (sum: Outcome<nat>)
      requires Valid() && AgreeOn(c, ctx, bound) && i <= |n.sources| && Placing(n, i, bound)
      requires Fits(up, t, roots, c, n, ins) && bound <= c.Keys
      modifies this`ctx, table`entries
      ensures sum.Ok? ==> Valid() && AgreeOn(c, ctx, bound)
      ensures sum.Ok? ==>
        var v := WalkList(roots, Iter(roots, c, n.sources[i..]), n, ins, up.keys, FoldFactor(fold, total));
        && sum.value == (if add then v.size else 0)
        && table.entries == Marks(old(table.entries), v.keys, up, markLower)
      decreases n, 1, |n.sources| - i
    {
      hide Valid, Placing, Marks, Fits, WalkNode, WalkList, Cands;
      ghost var factor, was := FoldFactor(fold, total), table.entries;
      WalkListOne(roots, c, n, ins, up.keys, factor);
      if i == |n.sources| {
        var size :- Of(t, c, n, ins, bound);
        assert n.sources[i..] == [] && Iter(roots, c, []) == [c];
        return Ok(if add then size else 0);
      }
      var v := n.sources[i];
      PlacingStep(n, i, bound);
      ghost var step := IterStep(roots, c, v, n.sources[i + 1..]);
      CandsAgree(roots, c, ctx, v, bound);
      var cands, got := Cands(roots, ctx, v), 0;
      ghost var acc := Visit(0, []);
      MarksNone(was, up, markLower);
      for j := 0 to |cands|
        invariant Valid() && AgreeOn(c, ctx, bound)
        invariant WalkList(roots, FlatMap(cands[..j], step), n, ins, up.keys, factor) == acc
        invariant got == (if add then acc.size else 0)
        invariant table.entries == Marks(was, acc.keys, up, markLower)
      {
        FitsBind(up, t, roots, c, n, ins, v, cands[j]);
        AgreeBind(c, ctx, v, cands[j], bound);
        ctx := ctx[v := cands[j]];
        var more :- Level(t, c[v := cands[j]], n, ins, i + 1, bound + {v}, add);
        AgreeUnbind(c, ctx, v, cands[j], bound);
        FlatMapSnoc(cands, j, step);
        ghost var w := WalkList(roots, step(cands[j]), n, ins, up.keys, factor);
        WalkListAppend(roots, FlatMap(cands[..j], step), step(cands[j]), n, ins, up.keys, factor);
        MarksBoth(was, acc.keys, w.keys, up, markLower);
        got :- Plus(got, more);
        acc := Visit(acc.size + w.size, acc.keys + w.keys);
      }
      assert cands[..|cands|] == cands;
      IterUnfold(roots, c, v, n.sources[i + 1..]);
      return Ok(got);
    }
  }

  lemma TotalOf(entries: Marked, up: Upper, total: seq<int> -> nat, k: seq<int>)
    requires Holds(entries, up, total)
    ensures SumSizes(Latest(entries, PackKey(up.types, up.keys, k))) == total(k)
  {}

  lemma WalkAllIsList(roots: seq<Rec>, c: Ctx, n: FNode, ins: Option<Path>, ka: seq<Attr>, f: seq<int> -> nat)
    ensures WalkAll(roots, c, n, ins, ka, f) == WalkList(roots, Iter(roots, c, n.sources[0..]), n, ins, ka, f)
  {
    assert n.sources[0..] == n.sources;
  }

  lemma ChildStep(roots: seq<Rec>, c: Ctx, ns: seq<FNode>, i: nat, ins: Option<Path>, ka: seq<Attr>, f: seq<int> -> nat, acc: Visit)
    requires i < |ns|
    ensures var w := WalkAll(roots, c, ns[i], Towards(ins, i), ka, f);
            var next := Visit(acc.size * w.size, acc.keys + w.keys);
            WalkChildren(roots, c, ns[i..], i, ins, ka, f, acc)
            == if next.size == 0 then next else WalkChildren(roots, c, ns[i + 1..], i + 1, ins, ka, f, next)
  {
    assert ns[i..][0] == ns[i] && ns[i..][1..] == ns[i + 1..];
  }

  //
  // The whole count
  //

  /** The table of sizes over the instances, before anything is marked. */
  ghost predicate Indexes(entries: Marked, pairs: seq<(nat, Rec)>) {
    |entries| == |pairs| && forall i :: 0 <= i < |pairs| ==> entries[i] == (pairs[i].0, LowerEntry(Size(pairs[i].1), false))
  }

  lemma {:induction false} LatestSizes(entries: Marked, pairs: seq<(nat, Rec)>, key: nat)
    requires Indexes(entries, pairs)
    ensures SumSizes(Latest(entries, key)) == SizeAll(Latest(pairs, key))
    decreases |pairs|
  {
    if pairs != [] {
      var n := |pairs| - 1;
      assert entries[n] == (pairs[n].0, LowerEntry(Size(pairs[n].1), false));
      LatestSizes(entries[..n], pairs[..n], key);
    }
  }

  lemma SizeAllPerm(a: seq<Rec>, b: seq<Rec>)
    requires Perm(a, b)
    ensures SizeAll(a) == SizeAll(b)
  {
    FlatAllPerm(a, b);
    PermLength(FlatAll(a), FlatAll(b));
    SizeAllIsCount(a);
    SizeAllIsCount(b);
  }

  lemma IndexHolds(entries: Marked, pairs: seq<(nat, Rec)>, es: seq<Entry>, up: Upper, lk: seq<Attr>)
    requires Indexes(entries, pairs) && Packs(pairs, es, up.types, lk)
    ensures Holds(entries, up, SizesUnder(es, ByWords(up.types, up.keys, lk)))
  {
    var how := ByWords(up.types, up.keys, lk);
    forall k ensures SumSizes(Latest(entries, PackKey(up.types, up.keys, k))) == MatchedSize(es, k, how) {
      var key := PackKey(up.types, up.keys, k);
      LatestSizes(entries, pairs, key);
      LatestIsInserted(pairs, key);
      SizeAllPerm(Latest(pairs, key), Inserted(pairs, key));
      InsertedIsFiled(pairs, es, up.types, up.keys, lk, k);
    }
  }

  lemma SizedPairs(items: seq<Item>, lower: FRelation, lk: seq<Attr>, types: Types, strategy: PathStrategy)
    returns (pairs: seq<(nat, Rec)>)
    requires ValidRelation(lower) && Converges(PathTree(lower.tree, lk, strategy), lk)
    requires ItemsOf(items, SIZE, lower.roots, LowerContexts(lower, LowerOf(lower, lk, types, strategy)),
                     LowerOf(lower, lk, types, strategy))
    ensures |pairs| == |items| && Packs(pairs, LowerEntries(lower, lk, strategy), types, lk)
    ensures forall i :: 0 <= i < |items| ==>
      items[i].payload.Sized? && pairs[i].0 == items[i].key && Size(pairs[i].1) == items[i].payload.size
  {
    var low := LowerOf(lower, lk, types, strategy);
    var cs := LowerContexts(lower, low);
    pairs := seq(|items|, i requires 0 <= i < |items| => (items[i].key, LowerNode(lower.roots, cs[i], low.tree, low.kp)));
    forall i | 0 <= i < |items| ensures items[i].payload.Sized? && Size(pairs[i].1) == items[i].payload.size {
      assert ItemOf(items[i], SIZE, lower.roots, cs[i], low);
    }
    ItemsPack(items, SIZE, lower, lk, types, strategy, pairs);
  }

  /** Indexes the lower side by key, storing sizes in place of records. */
  method IndexSizes(lower: FRelation, lk: seq<Attr>, types: Types, strategy: PathStrategy, hash: nat -> nat)
    returns (table: Outcome<ChainingHashTable<LowerEntry>>, ghost pairs: seq<(nat, Rec)>)
    requires ValidRelation(lower) && Converges(PathTree(lower.tree, lk, strategy), lk)
    ensures table.Ok? ==> fresh(table.value) && table.value.Valid() && table.value.finalized
    ensures table.Ok? ==> fresh(table.value.next) && fresh(table.value.directory)
    ensures table.Ok? ==> Packs(pairs, LowerEntries(lower, lk, strategy), types, lk) && Indexes(table.value.entries, pairs)
  {
    hide OnPath, LowerPlaced, ItemOf, Packs, LowerEntries, PathIter;
    pairs := [];
    var low, none: Ctx := LowerOf(lower, lk, types, strategy), map[];
    var sizes := new ChainingHashTable<LowerEntry>(hash);
    var side := new LowerSide(lower.roots);
    LowerStarts(lower, lk, types, strategy);
    ContextsAreLoop(lower, low);
    AgreeNowhere(none, none);
    var items :- side.IterateKeyPath(none, low, SIZE, low.tree, low.kp, 0, {});
    pairs := SizedPairs(items, lower, lk, types, strategy);
    for i := 0 to |items|
      invariant sizes.Valid() && !sizes.finalized && |sizes.entries| == i
      invariant forall j :: 0 <= j < i ==> sizes.entries[j] == (items[j].key, LowerEntry(items[j].payload.size, false))
    {
      sizes.Insert(items[i].key, LowerEntry(items[i].payload.size, false));
    }
    sizes.Finalize();
    table := Ok(sizes);
  }

  /** The entries whose mark is as wanted, from the `i`-th on. */
  function SweepFrom(entries: Marked, wanted: bool): nat {
    if entries == [] then 0
    else (if entries[0].1.matched == wanted then entries[0].1.size else 0) + SweepFrom(entries[1..], wanted)
  }

  lemma {:induction false} SweepIs(entries: Marked, pairs: seq<(nat, Rec)>, es: seq<Entry>, keys: seq<seq<int>>, up: Upper,
                                   lk: seq<Attr>, wanted: bool)
    requires Indexes(entries, pairs) && Packs(pairs, es, up.types, lk)
    ensures SweepFrom(Marks(entries, keys, up, true), wanted) == Sweep(es, keys, wanted, ByWords(up.types, up.keys, lk))
    decreases |es|
  {
    if es != [] {
      var m := Marks(entries, keys, up, true);
      assert entries[0].0 == PackKey(up.types, lk, es[0].key);
      assert m[0].1.matched <==> Met(keys, es[0].key, ByWords(up.types, up.keys, lk));
      assert m[1..] == Marks(entries[1..], keys, up, true);
      SweepIs(entries[1..], pairs[1..], es[1..], keys, up, lk, wanted);
    }
  }

  method SweepTable(table: ChainingHashTable<LowerEntry>, wanted: bool, start: nat) returns (total: Outcome<nat>)
    ensures total.Ok? ==> total.value == start + SweepFrom(table.entries, wanted)
  {
    var sum: nat, entries := start, table.entries;
    for i := 0 to |entries|
      invariant sum + SweepFrom(entries[i..], wanted) == start + SweepFrom(entries, wanted)
    {
      assert entries[i..][0] == entries[i] && entries[i..][1..] == entries[i + 1..];
      if entries[i].1.matched == wanted {
        sum :- Plus(sum, entries[i].1.size);
      }
    }
    return Ok(sum);
  }

  /** Walks the upper side and sweeps the lower one. */
  method CountSides(upper: FRelation, lower: FRelation, uk: seq<Attr>, lk: seq<Attr>, types: Types, strategy: PathStrategy,
                    kind: JoinKind, preserveUpper: bool, preserveLower: bool, hash: nat -> nat) returns (r: Outcome<nat>)
    requires Countable(upper, lower, uk, lk, strategy)
    ensures r.Ok? ==>
      r.value == SidesCount(kind, preserveUpper, preserveLower, upper, lower, uk, lk, strategy, ByWords(types, uk, lk))
  {
    hide LowerEntries, Packs, Indexes, Placing, Fits, Holds, WalkList, Marks, ValidRelation, RangedAll;
    ghost var es, how := LowerEntries(lower, lk, strategy), ByWords(types, uk, lk);
    var up, none: Ctx := Upper(uk, types), map[];
    var n, ins := PathTree(upper.tree, uk, strategy), InsertionPath(upper.tree, uk, strategy);
    var indexed: Outcome<ChainingHashTable<LowerEntry>>;
    ghost var pairs: seq<(nat, Rec)>;
    indexed, pairs := IndexSizes(lower, lk, types, strategy, hash);
    if indexed.Failed? { return Failed(indexed.error); }
    var table := indexed.value;
    ghost var entries := table.entries;
    IndexHolds(entries, pairs, es, up, lk);
    var counter := new OutputCounter(upper.roots, up, FoldOf(kind, preserveUpper), preserveLower, table, SizesUnder(es, how));
    UpperStarts(upper, uk, types, strategy);
    AgreeNowhere(none, counter.ctx);
    var emitUpper := !(kind != PRODUCT && preserveLower);
    var total :- counter.Level(upper.tree, none, n, Some(ins), 0, {}, emitUpper);
    ghost var walk := UpperWalk(upper, uk, strategy, Factor(FoldOf(kind, preserveUpper), es, how));
    WalkAllIsList(upper.roots, none, n, Some(ins), uk, FoldFactor(FoldOf(kind, preserveUpper), SizesUnder(es, how)));
    if preserveLower {
      SweepIs(entries, pairs, es, walk.keys, up, lk, kind == SEMI);
      total :- SweepTable(table, kind == SEMI, total);
    }
    return Ok(total);
  }

  /** Counts a join of any kind without building it. What comes back is the number of rows of
      the SQL join of the two flat bags by packed keys exactly if the marks left on the lower side
      are right, which they are when the upper side has no empty records. Between columns of one
      width those are the rows of the join by value. */
  method FactorizedCountJoin(build: FRelation, probe: FRelation, kb: seq<Attr>, kp: seq<Attr>, types: Types, mode: JoinMode,
                             strategy: PathStrategy, preserve: Preserve, kind: JoinKind, hash: nat -> nat)
    returns (r: Outcome<nat>)
    requires ValidRelation(build) && ValidRelation(probe)
    ensures r == Failed(IllegalJoin) <==> kind in {SEMI, ANTI} && preserve in {NEITHER, BOTH}
    ensures r.Ok? ==> Converges(PathTree(build.tree, kb, strategy), kb) && Converges(PathTree(probe.tree, kp, strategy), kp)
    ensures r.Ok? ==> Legal(kind, preserve) && KeysFit(types, kb, kp)
    ensures r.Ok? ==>
      (r.value == |SqlRows(kind, preserve, FlatAll(build.roots), FlatAll(probe.roots), kb, kp, ByWords(types, kb, kp))|
       <==> MarksFit(preserve, mode, build, probe, kb, kp, strategy, ByWords(types, kb, kp)))
    ensures r.Ok? && MarksFit(preserve, mode, build, probe, kb, kp, strategy, ByWords(types, kb, kp)) ==>
      var a, b, how := FlatAll(build.roots), FlatAll(probe.roots), ByWords(types, kb, kp);
      r.value == match kind
        case PRODUCT => |Pairs(a, b, kb, kp, how)| + (if preserve in {BUILD, BOTH} then |Alone(a, b, kb, kp, how)| else 0)
                        + (if preserve in {PROBE, BOTH} then |Alone(b, a, kp, kb, Mirrored(how))| else 0)
        case SEMI => if preserve == BUILD then |Joining(a, b, kb, kp, how)| else |Joining(b, a, kp, kb, Mirrored(how))|
        case ANTI => if preserve == BUILD then |Alone(a, b, kb, kp, how)| else |Alone(b, a, kp, kb, Mirrored(how))|
    ensures r.Ok? && TypesOf(types, kb) == TypesOf(types, kp) && RangedAll(build.roots, types) && RangedAll(probe.roots, types) ==>
      (r.value == |SqlRows(kind, preserve, FlatAll(build.roots), FlatAll(probe.roots), kb, kp, ByValue)|
       <==> MarksFit(preserve, mode, build, probe, kb, kp, strategy, ByWords(types, kb, kp)))
    ensures r == Failed(KeysDoNotConverge) ==> !KeysConverge(build.tree, probe.tree, kb, kp, strategy)
    ensures r == Failed(KeyTooWide) ==> !KeysFit(types, kb, kp)
    ensures r.Failed? ==> r.error in {IllegalJoin, KeysDoNotConverge, KeyTooWide, OutOfMemory, Overflow}
  {
    hide Pairs, Alone, Joining, LowerEntries, UpperWalk, JoinCount, SqlRows, RangedAll, ValidRelation,
         MarksRight, SidesCount, FlatAll, PathTree, Converges, TotalBits;
    if (kind == SEMI || kind == ANTI) && (preserve == NEITHER || preserve == BOTH) {
      return Failed(IllegalJoin);
    }
    var onTop := mode == BOTTOM_INSERT;
    var preserveBuild := preserve == BUILD || preserve == BOTH;
    var preserveProbe := preserve == PROBE || preserve == BOTH;
    var preserveUpper := if onTop then preserveBuild else preserveProbe;
    var preserveLower := if onTop then preserveProbe else preserveBuild;
    var upper, lower := OnTop(mode, build, probe), Beneath(mode, build, probe);
    var uk, lk := OnTop(mode, kb, kp), Beneath(mode, kb, kp);
    var ur := MakeKeyReader(PathTree(upper.tree, uk, strategy), uk, types);
    if ur.Failed? { return Failed(ur.error); }
    var lr := MakeKeyReader(PathTree(lower.tree, lk, strategy), lk, types);
    if lr.Failed? { return Failed(lr.error); }
    if * { return Failed(OutOfMemory); }
    var counted := CountSides(upper, lower, uk, lk, types, strategy, kind, preserveUpper, preserveLower, hash);
    if counted.Failed? { return Failed(Overflow); }
    CountExactIff(kind, preserve, mode, build, probe, kb, kp, strategy, ByWords(types, kb, kp));
    SqlRowsCounted(kind, preserve, FlatAll(build.roots), FlatAll(probe.roots), kb, kp, ByWords(types, kb, kp));
    CountedByValue(kind, preserve, build, probe, kb, kp, types);
    return counted;
  }

  lemma CountedByValue(kind: JoinKind, preserve: Preserve, build: FRelation, probe: FRelation, kb: seq<Attr>, kp: seq<Attr>, types: Types)
    requires Legal(kind, preserve) && KeysFit(types, kb, kp)
    ensures TypesOf(types, kb) == TypesOf(types, kp) && RangedAll(build.roots, types) && RangedAll(probe.roots, types) ==>
      SqlRows(kind, preserve, FlatAll(build.roots), FlatAll(probe.roots), kb, kp, ByWords(types, kb, kp))
      == SqlRows(kind, preserve, FlatAll(build.roots), FlatAll(probe.roots), kb, kp, ByValue)
  {
    hide SqlRows;
    if TypesOf(types, kb) == TypesOf(types, kp) && RangedAll(build.roots, types) && RangedAll(probe.roots, types) {
      FlatAllRanged(build.roots, types);
      FlatAllRanged(probe.roots, types);
      SqlRowsSame(kind, preserve, FlatAll(build.roots), FlatAll(probe.roots), types, kb, kp);
    }
  }
}
