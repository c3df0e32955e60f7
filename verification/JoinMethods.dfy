/** The factorized join in both insert modes, from key readers to pruned output. */
module JoinMethods {
  import opened Bags
  import opened FReps
  import opened FTrees
  import opened Flattening
  import opened Restructuring
  import opened Transforming
  import opened FlatJoins
  import opened Joins
  import opened Instances
  import opened FactorizedJoins
  import opened Outcomes
  import opened KeyPacking
  import opened Ranges
  import opened SqlJoins
  import opened WordJoins
  import opened LowerMethods
  import opened UpperMethods
  import opened HashTables

  //
  // Packed keys stand for keys
  //

  /** The instances under their packed keys. */
  ghost predicate Packs(pairs: seq<(nat, Rec)>, es: seq<Entry>, types: Types, keys: seq<Attr>) {
    |pairs| == |es| && forall i :: 0 <= i < |es| ==> pairs[i] == (PackKey(types, keys, es[i].key), es[i].rec)
  }

  /** What is stored under the word of a key is what is filed under the keys it meets by word. */
  lemma {:induction false} InsertedIsFiled(pairs: seq<(nat, Rec)>, es: seq<Entry>, types: Types, uk: seq<Attr>, lk: seq<Attr>, k: seq<int>)
    requires Packs(pairs, es, types, lk)
    ensures Inserted(pairs, PackKey(types, uk, k)) == Filed(es, k, ByWords(types, uk, lk))
    decreases |es|
  {
    if es != [] { InsertedIsFiled(pairs[1..], es[1..], types, uk, lk, k); }
  }

  /** What the upper side finds under each key, when it looks packed keys up, latest first. */
  function FoundUnder(pairs: seq<(nat, Rec)>, types: Types, keys: seq<Attr>): seq<int> -> seq<Rec> {
    k => Latest(pairs, PackKey(types, keys, k))
  }

  /** Looking packed keys up finds the records filed under the keys with that word. */
  lemma FoundFiles(pairs: seq<(nat, Rec)>, es: seq<Entry>, types: Types, uk: seq<Attr>, lk: seq<Attr>)
    requires Packs(pairs, es, types, lk)
    ensures Files(FoundUnder(pairs, types, uk), es, ByWords(types, uk, lk))
  {
    forall k ensures Perm(FoundUnder(pairs, types, uk)(k), Filed(es, k, ByWords(types, uk, lk))) {
      InsertedIsFiled(pairs, es, types, uk, lk, k);
      LatestIsInserted(pairs, PackKey(types, uk, k));
    }
  }

  //
  // What a join asks of its inputs
  //

  ghost predicate JoinReady(upper: FRelation, lower: FRelation, uk: seq<Attr>, lk: seq<Attr>, strategy: PathStrategy) {
    && Joinable(upper, lower)
    && Converges(PathTree(upper.tree, uk, strategy), uk) && Converges(PathTree(lower.tree, lk, strategy), lk)
  }

  /** The lower side under its key path. */
  function LowerOf(lower: FRelation, lk: seq<Attr>, types: Types, strategy: PathStrategy): Lower
    requires Converges(PathTree(lower.tree, lk, strategy), lk)
  {
    var m := PathTree(lower.tree, lk, strategy);
    Lower(m, KeyLevel(m, lk), lk, types)
  }

  lemma LowerStarts(lower: FRelation, lk: seq<Attr>, types: Types, strategy: PathStrategy)
    requires ValidRelation(lower) && Converges(PathTree(lower.tree, lk, strategy), lk)
    ensures var low := LowerOf(lower, lk, types, strategy);
            OnPath(low, low.tree, low.kp, 0, {}) && LowerPlaced(low.tree, Some(low.kp), PathSources(low.tree, low.kp))
  {
    var low := LowerOf(lower, lk, types, strategy);
    PathTreeValid(lower.tree, lk, strategy);
    KeyLevelHolds(low.tree, lk);
    PlacingStart(low.tree, {});
    assert low.tree.sources[0..] == low.tree.sources;
    LowerPlacedWhole(low.tree, low.kp, {}, PathSources(low.tree, low.kp));
  }

  /** The contexts the walk over the key path meets. */
  function LowerContexts(lower: FRelation, low: Lower): seq<Ctx> {
    PathIter(lower.roots, map[], low.tree, low.kp)
  }

  lemma {:induction false} EntriesAt(roots: seq<Rec>, cs: seq<Ctx>, n: FNode, kp: Path, kb: seq<Attr>)
    ensures var es := EntriesOf(roots, cs, n, kp, kb);
            |es| == |cs| && forall i :: 0 <= i < |cs| ==> es[i] == Entry(InstanceKey(cs[i], n, kp, kb), LowerNode(roots, cs[i], n, kp))
    decreases |cs|
  {
    if cs != [] { EntriesAt(roots, cs[1..], n, kp, kb); }
  }

  /** The handed-over items stand for the instances of the lower side, in order. */
  lemma ItemsPack(items: seq<Item>, want: Want, lower: FRelation, lk: seq<Attr>, types: Types, strategy: PathStrategy,
                  pairs: seq<(nat, Rec)>)
    requires ValidRelation(lower) && Converges(PathTree(lower.tree, lk, strategy), lk)
    requires ItemsOf(items, want, lower.roots, LowerContexts(lower, LowerOf(lower, lk, types, strategy)),
                     LowerOf(lower, lk, types, strategy))
    requires |pairs| == |items|
    requires forall i :: 0 <= i < |items| ==>
      pairs[i] == (items[i].key, LowerNode(lower.roots, LowerContexts(lower, LowerOf(lower, lk, types, strategy))[i],
                                           LowerOf(lower, lk, types, strategy).tree, LowerOf(lower, lk, types, strategy).kp))
    ensures Packs(pairs, LowerEntries(lower, lk, strategy), types, lk)
  {
    var low := LowerOf(lower, lk, types, strategy);
    var cs := LowerContexts(lower, low);
    KeyLevelHolds(low.tree, lk);
    EntriesAt(lower.roots, cs, low.tree, low.kp, lk);
  }

  lemma UpperStarts(upper: FRelation, uk: seq<Attr>, types: Types, strategy: PathStrategy)
    requires ValidRelation(upper) && Converges(PathTree(upper.tree, uk, strategy), uk)
    ensures var n := PathTree(upper.tree, uk, strategy);
            && Placing(n, 0, {})
            && Fits(Upper(uk, types), upper.tree, upper.roots, map[], n, Some(InsertionPath(upper.tree, uk, strategy)))
  {
    PathTreeValid(upper.tree, uk, strategy);
    PlacingStart(PathTree(upper.tree, uk, strategy), {});
    ConvergedAtInsertion(upper.tree, uk, strategy);
  }

  //
  // The two modes
  //

  function Paired(roots: seq<Rec>, entries: seq<(nat, Ctx)>, low: Lower): (pairs: seq<(nat, Rec)>)
    ensures |pairs| == |entries|
    ensures forall i :: 0 <= i < |pairs| ==> pairs[i] == (entries[i].0, LowerNode(roots, entries[i].1, low.tree, low.kp))
  {
    seq(|entries|, i requires 0 <= i < |entries| => (entries[i].0, LowerNode(roots, entries[i].1, low.tree, low.kp)))
  }

  /** Replaying what a lookup finds is looking the replayed records up. */
  lemma {:induction false} ReplayedIsLatest(roots: seq<Rec>, entries: seq<(nat, Ctx)>, low: Lower, key: nat)
    ensures Replayed(roots, entries, low, key) == Latest(Paired(roots, entries, low), key)
    decreases |entries|
  {
    if entries != [] {
      hide LowerNode;
      var n := |entries| - 1;
      ReplayedIsLatest(roots, entries[..n], low, key);
      PairedPrefix(roots, entries, low, n);
    }
  }

  lemma PairedPrefix(roots: seq<Rec>, entries: seq<(nat, Ctx)>, low: Lower, n: nat)
    requires n <= |entries|
    ensures Paired(roots, entries, low)[..n] == Paired(roots, entries[..n], low)
  {
    hide LowerNode;
  }

  lemma SnapshotsPack(items: seq<Item>, entries: seq<(nat, Ctx)>, lower: FRelation, lk: seq<Attr>, types: Types,
                      strategy: PathStrategy)
    requires ValidRelation(lower) && Converges(PathTree(lower.tree, lk, strategy), lk)
    requires ItemsOf(items, SNAPSHOT, lower.roots, LowerContexts(lower, LowerOf(lower, lk, types, strategy)),
                     LowerOf(lower, lk, types, strategy))
    requires |entries| == |items|
    requires forall i :: 0 <= i < |items| ==> items[i].payload.Snapshot? && entries[i] == (items[i].key, items[i].payload.ctx)
    ensures Packs(Paired(lower.roots, entries, LowerOf(lower, lk, types, strategy)), LowerEntries(lower, lk, strategy), types, lk)
  {
    var low := LowerOf(lower, lk, types, strategy);
    var cs := LowerContexts(lower, low);
    LowerStarts(lower, lk, types, strategy);
    forall i | 0 <= i < |items|
      ensures LowerNode(lower.roots, entries[i].1, low.tree, low.kp) == LowerNode(lower.roots, cs[i], low.tree, low.kp)
    {
      assert ItemOf(items[i], SNAPSHOT, lower.roots, cs[i], low);
      LowerFrame(lower.roots, cs[i], entries[i].1, low.tree, Some(low.kp), PathSources(low.tree, low.kp));
    }
    ItemsPack(items, SNAPSHOT, lower, lk, types, strategy, Paired(lower.roots, entries, low));
  }

  /** Every address in use holds what `answer` gives for its key. */
  ghost predicate Filled(attached: seq<seq<Rec>>, keys: seq<nat>, up: Upper, answer: seq<int> -> seq<Rec>) {
    forall t: Tuple, h: nat :: Addressed(t, h, keys, up) ==> h < |attached| && attached[h] == answer(KeyOf(t, up.keys))
  }

  lemma AllAssembled(parts: seq<Part>, keys: seq<nat>, up: Upper, attached: seq<seq<Rec>>, answer: seq<int> -> seq<Rec>)
    requires RegisteredAll(parts, keys, up) && Filled(attached, keys, up, answer)
    ensures AssembledAll(parts, FromStore(attached)) == AssembledAll(parts, FromAnswer(up.keys, answer))
  {
    AssembledAllSame(parts, keys, up, FromStore(attached), FromAnswer(up.keys, answer));
  }

  /** Copies the context into a table once per combination of records on the key path. */
  method IndexLower(side: LowerSide, lower: FRelation, lk: seq<Attr>, types: Types, strategy: PathStrategy, hash: nat -> nat)
    returns (table: Outcome<ChainingHashTable<Ctx>>)
    requires ValidRelation(lower) && Converges(PathTree(lower.tree, lk, strategy), lk)
    requires side.roots == lower.roots
    modifies side`ctx
    ensures table.Ok? ==> fresh(table.value) && table.value.Valid() && table.value.finalized
    ensures table.Ok? ==> fresh(table.value.next) && fresh(table.value.directory)
    ensures table.Ok? ==>
      Packs(Paired(lower.roots, table.value.entries, LowerOf(lower, lk, types, strategy)), LowerEntries(lower, lk, strategy), types, lk)
  {
    hide OnPath, LowerPlaced, ItemOf, Packs, LowerEntries, PathIter;
    var low, none: Ctx := LowerOf(lower, lk, types, strategy), map[];
    var snapshots := new ChainingHashTable<Ctx>(hash);
    LowerStarts(lower, lk, types, strategy);
    ContextsAreLoop(lower, low);
    AgreeNowhere(none, side.ctx);
    var items :- side.IterateKeyPath(none, low, SNAPSHOT, low.tree, low.kp, 0, {});
    SnapshotItems(items, lower.roots, LowerContexts(lower, low), low);
    for i := 0 to |items|
      invariant snapshots.Valid() && !snapshots.finalized && |snapshots.entries| == i
      invariant forall j :: 0 <= j < i ==> snapshots.entries[j] == (items[j].key, items[j].payload.ctx)
    {
      snapshots.Insert(items[i].key, items[i].payload.ctx);
    }
    SnapshotsPack(items, snapshots.entries, lower, lk, types, strategy);
    snapshots.Finalize();
    return Ok(snapshots);
  }

  /** Index the lower side, then let every insertion record of the upper side find its matches. */
  method JoinTop(upper: FRelation, lower: FRelation, uk: seq<Attr>, lk: seq<Attr>, types: Types, strategy: PathStrategy,
                 hash: nat -> nat) returns (out: Outcome<seq<Rec>>, ghost answer: seq<int> -> seq<Rec>)
    requires JoinReady(upper, lower, uk, lk, strategy)
    ensures out.Ok? ==> Files(answer, LowerEntries(lower, lk, strategy), ByWords(types, uk, lk))
    ensures out.Ok? ==> out.value == JoinRoots(upper, uk, strategy, answer)
  {
    hide Files, OnPath, LowerPlaced, Fits, Placing, Packs, JoinAll, LowerEntries, RegisteredAll, Addressed, Latest;
    answer := k => [];
    var low, n := LowerOf(lower, lk, types, strategy), PathTree(upper.tree, uk, strategy);
    var ins, up, none: Ctx := InsertionPath(upper.tree, uk, strategy), Upper(uk, types), map[];
    var side := new LowerSide(lower.roots);
    var snapshots :- IndexLower(side, lower, lk, types, strategy, hash);
    ghost var pairs := Paired(lower.roots, snapshots.entries, low);
    answer := FoundUnder(pairs, types, uk);
    FoundFiles(pairs, LowerEntries(lower, lk, strategy), types, uk, lk);
    LowerStarts(lower, lk, types, strategy);
    OnPathReady(low, low.tree, low.kp, 0, {});
    var unused := new ChainingHashTable<nat>(hash);
    var driver := new UpperSide(up, low, TOP_INSERT, upper.roots, side, snapshots, unused);
    UpperStarts(upper, uk, types, strategy);
    AgreeNowhere(none, none);
    var parts :- driver.IterateUpper(upper.tree, none, n, Some(ins), 0, {}, answer);
    TopFilled(driver, pairs, answer);
    AllAssembled(parts, driver.keys, up, driver.attached, answer);
    JoinLoopIs(upper.roots, none, n, Some(ins), uk, answer);
    out := Ok(AssembledAll(parts, FromStore(driver.attached)));
  }

  /** In top-insert mode every address holds what its key finds. */
  lemma TopFilled(driver: UpperSide, pairs: seq<(nat, Rec)>, answer: seq<int> -> seq<Rec>)
    requires driver.Valid() && driver.mode == TOP_INSERT
    requires pairs == Paired(driver.lower.roots, driver.snapshots.entries, driver.low)
    requires answer == FoundUnder(pairs, driver.up.types, driver.up.keys)
    ensures |driver.attached| == |driver.keys|
    ensures Filled(driver.attached, driver.keys, driver.up, answer)
  {
    forall t: Tuple, h: nat | Addressed(t, h, driver.keys, driver.up)
      ensures h < |driver.attached| && driver.attached[h] == answer(KeyOf(t, driver.up.keys))
    {
      ReplayedIsLatest(driver.lower.roots, driver.snapshots.entries, driver.low, driver.keys[h]);
    }
  }

  /** Inserts every instance below the records that match it. */
  method InsertAll(driver: UpperSide, items: seq<Item>, ghost pairs: seq<(nat, Rec)>)
    requires driver.table.Valid() && driver.table.finalized && Addresses(driver.table.entries, driver.keys)
    requires |driver.attached| == |driver.keys| && forall h :: 0 <= h < |driver.keys| ==> driver.attached[h] == []
    requires |pairs| == |items|
    requires forall i :: 0 <= i < |items| ==> items[i].payload.Built? && pairs[i] == (items[i].key, items[i].payload.rec)
    modifies driver`attached
    ensures |driver.attached| == |driver.keys|
    ensures forall h :: 0 <= h < |driver.keys| ==> driver.attached[h] == Inserted(pairs, driver.keys[h])
  {
    hide Addresses;
    for i := 0 to |items|
      invariant |driver.attached| == |driver.keys|
      invariant forall h :: 0 <= h < |driver.keys| ==> driver.attached[h] == Inserted(pairs[..i], driver.keys[h])
    {
      driver.InsertBelow(items[i].key, items[i].payload.rec);
      assert pairs[..i + 1] == pairs[..i] + [pairs[i]];
      forall h | 0 <= h < |driver.keys| ensures driver.attached[h] == Inserted(pairs[..i + 1], driver.keys[h]) {
        InsertedSnoc(pairs[..i], pairs[i], driver.keys[h]);
      }
    }
    assert pairs[..|items|] == pairs;
  }

  /** In bottom-insert mode every address ends up with the instances of its key. */
  lemma BottomFilled(attached: seq<seq<Rec>>, keys: seq<nat>, up: Upper, pairs: seq<(nat, Rec)>, es: seq<Entry>, lk: seq<Attr>)
    requires |attached| == |keys| && forall h :: 0 <= h < |keys| ==> attached[h] == Inserted(pairs, keys[h])
    requires Packs(pairs, es, up.types, lk)
    ensures Filled(attached, keys, up, FiledUnder(es, ByWords(up.types, up.keys, lk)))
  {
    forall t: Tuple, h: nat | Addressed(t, h, keys, up)
      ensures h < |attached| && attached[h] == FiledUnder(es, ByWords(up.types, up.keys, lk))(KeyOf(t, up.keys))
    {
      InsertedIsFiled(pairs, es, up.types, up.keys, lk, KeyOf(t, up.keys));
    }
  }

  /** Builds every instance of the lower side and inserts it below the records it matches. */
  method ProbeLower(driver: UpperSide, lower: FRelation, lk: seq<Attr>, types: Types, strategy: PathStrategy) returns (r: Outcome<()>)
    requires ValidRelation(lower) && Converges(PathTree(lower.tree, lk, strategy), lk)
    requires driver.lower.roots == lower.roots && driver.up.types == types
    requires driver.table.Valid() && driver.table.finalized && Addresses(driver.table.entries, driver.keys)
    requires |driver.attached| == |driver.keys| && forall h :: 0 <= h < |driver.keys| ==> driver.attached[h] == []
    modifies driver`attached, driver.lower`ctx
    ensures r.Ok? ==>
      Filled(driver.attached, driver.keys, driver.up, FiledUnder(LowerEntries(lower, lk, strategy), ByWords(types, driver.up.keys, lk)))
  {
    hide OnPath, LowerPlaced, ItemOf, Packs, LowerEntries, PathIter, Addresses, Filled;
    var low, none: Ctx := LowerOf(lower, lk, types, strategy), map[];
    LowerStarts(lower, lk, types, strategy);
    ContextsAreLoop(lower, low);
    AgreeNowhere(none, driver.lower.ctx);
    var items :- driver.lower.IterateKeyPath(none, low, RECORD, low.tree, low.kp, 0, {});
    ghost var pairs := BuiltPairs(items, lower, lk, types, strategy);
    InsertAll(driver, items, pairs);
    BottomFilled(driver.attached, driver.keys, driver.up, pairs, LowerEntries(lower, lk, strategy), lk);
    return Ok(());
  }

  lemma ReadyParts(upper: FRelation, lower: FRelation, uk: seq<Attr>, lk: seq<Attr>, strategy: PathStrategy)
    requires JoinReady(upper, lower, uk, lk, strategy)
    ensures ValidRelation(upper) && ValidRelation(lower)
    ensures Converges(PathTree(upper.tree, uk, strategy), uk) && Converges(PathTree(lower.tree, lk, strategy), lk)
  {}

  /** Until the lower side is probed, insertion records hold nothing. */
  lemma NothingAttached(driver: UpperSide)
    requires driver.Valid() && driver.mode == BOTTOM_INSERT
    ensures !driver.table.finalized && Addresses(driver.table.entries, driver.keys) && |driver.attached| == |driver.keys|
    ensures forall h :: 0 <= h < |driver.keys| ==> driver.attached[h] == []
  {}

  /** Materialize the upper side, then insert every instance of the lower side below the records
      that match it. */
  method JoinBottom(upper: FRelation, lower: FRelation, uk: seq<Attr>, lk: seq<Attr>, types: Types, strategy: PathStrategy,
                    hash: nat -> nat) returns (out: Outcome<seq<Rec>>, ghost answer: seq<int> -> seq<Rec>)
    requires JoinReady(upper, lower, uk, lk, strategy)
    ensures out.Ok? ==> Files(answer, LowerEntries(lower, lk, strategy), ByWords(types, uk, lk))
    ensures out.Ok? ==> out.value == JoinRoots(upper, uk, strategy, answer)
  {
    hide JoinReady, Joinable, ValidRelation, RangedAll, Converges, PathTree, InsertionPath, TotalBits, LowerPlaced, Fits, Placing,
         JoinAll, LowerEntries, RegisteredAll, Addresses, Filled, AssembledAll;
    ReadyParts(upper, lower, uk, lk, strategy);
    var low, n := LowerOf(lower, lk, types, strategy), PathTree(upper.tree, uk, strategy);
    var ins, up, none: Ctx := InsertionPath(upper.tree, uk, strategy), Upper(uk, types), map[];
    answer := FiledUnder(LowerEntries(lower, lk, strategy), ByWords(types, uk, lk));
    var side := new LowerSide(lower.roots);
    var unused := new ChainingHashTable<Ctx>(hash);
    var table := new ChainingHashTable<nat>(hash);
    var driver := new UpperSide(up, low, BOTTOM_INSERT, upper.roots, side, unused, table);
    UpperStarts(upper, uk, types, strategy);
    AgreeNowhere(none, none);
    var parts :- driver.IterateUpper(upper.tree, none, n, Some(ins), 0, {}, answer);
    NothingAttached(driver);
    table.Finalize();
    var _ :- ProbeLower(driver, lower, lk, types, strategy);
    AllAssembled(parts, driver.keys, up, driver.attached, answer);
    JoinLoopIs(upper.roots, none, n, Some(ins), uk, answer);
    out := Ok(AssembledAll(parts, FromStore(driver.attached)));
  }

  lemma BuiltPairs(items: seq<Item>, lower: FRelation, lk: seq<Attr>, types: Types, strategy: PathStrategy)
    returns (pairs: seq<(nat, Rec)>)
    requires ValidRelation(lower) && Converges(PathTree(lower.tree, lk, strategy), lk)
    requires ItemsOf(items, RECORD, lower.roots, LowerContexts(lower, LowerOf(lower, lk, types, strategy)),
                     LowerOf(lower, lk, types, strategy))
    ensures |pairs| == |items| && Packs(pairs, LowerEntries(lower, lk, strategy), types, lk)
    ensures forall i :: 0 <= i < |items| ==> items[i].payload.Built? && pairs[i] == (items[i].key, items[i].payload.rec)
  {
    var low := LowerOf(lower, lk, types, strategy);
    var cs := LowerContexts(lower, low);
    forall i | 0 <= i < |items| ensures items[i].payload.Built? { assert ItemOf(items[i], RECORD, lower.roots, cs[i], low); }
    pairs := seq(|items|, i requires 0 <= i < |items| && items[i].payload.Built? => (items[i].key, items[i].payload.rec));
    ItemsPack(items, RECORD, lower, lk, types, strategy, pairs);
  }

  lemma SnapshotItems(items: seq<Item>, roots: seq<Rec>, cs: seq<Ctx>, low: Lower)
    requires ItemsOf(items, SNAPSHOT, roots, cs, low)
    ensures forall i :: 0 <= i < |items| ==> items[i].payload.Snapshot?
  {
    forall i | 0 <= i < |items| ensures items[i].payload.Snapshot? { assert ItemOf(items[i], SNAPSHOT, roots, cs[i], low); }
  }

  lemma ContextsAreLoop(lower: FRelation, low: Lower)
    ensures IterThen(lower.roots, map[], low.tree.sources[0..], PathIterBelow(lower.roots, low.tree, low.kp))
         == LowerContexts(lower, low)
  {
    assert low.tree.sources[0..] == low.tree.sources;
  }

  lemma AgreeNowhere(c: Ctx, d: Ctx)
    ensures AgreeOn(c, d, {})
  {}

  lemma OnPathReady(low: Lower, n: FNode, kp: Path, i: nat, bound: set<Path>)
    requires OnPath(low, n, kp, i, bound)
    ensures LowerReady(low)
  {}

  lemma ApartIsDisjoint(upper: FRelation, lower: FRelation)
    requires Joinable(upper, lower)
    ensures Disjoint(FlatAll(upper.roots), FlatAll(lower.roots))
  {
    AtMostOnceParts(AttrBag(upper.tree), AttrBag(lower.tree));
    AttrSetIsBag(upper.tree);
    AttrSetIsBag(lower.tree);
    forall x, y | x in FlatAll(upper.roots) && y in FlatAll(lower.roots) ensures x.Keys !! y.Keys {
      FlatAllKeys(upper.roots, upper.tree, x);
      FlatAllKeys(lower.roots, lower.tree, y);
    }
  }

  lemma OutputRanged(upper: FRelation, lower: FRelation, uk: seq<Attr>, lk: seq<Attr>, types: Types, strategy: PathStrategy,
                     answer: seq<int> -> seq<Rec>)
    requires JoinReady(upper, lower, uk, lk, strategy) && Files(answer, LowerEntries(lower, lk, strategy), ByWords(types, uk, lk))
    requires RangedAll(upper.roots, types) && RangedAll(lower.roots, types)
    ensures RangedAll(JoinOutput(upper, lower, uk, lk, strategy, answer).roots, types)
  {
    var low, none: Ctx := LowerOf(lower, lk, types, strategy), map[];
    var cs, es := LowerContexts(lower, low), LowerEntries(lower, lk, strategy);
    forall c | c in cs ensures CtxRanged(c, types) { PathIterRanged(lower.roots, none, types, low.tree, low.kp, c); }
    EntriesRanged(lower.roots, cs, types, low.tree, low.kp, lk);
    forall k ensures RangedAll(answer(k), types) {
      FiledRanged(es, k, types, ByWords(types, uk, lk));
      PermMembers(answer(k), Filed(es, k, ByWords(types, uk, lk)));
    }
    JoinRanged(upper.roots, none, types, PathTree(upper.tree, uk, strategy), InsertionPath(upper.tree, uk, strategy), uk, answer);
    PruneAllRanged(JoinRoots(upper, uk, strategy, answer), types);
  }

  /** What a join that returns returns: the join of its inputs by the words their keys pack into,
      pruned. */
  ghost predicate Joined(out: FRelation, a: FRelation, b: FRelation, ka: seq<Attr>, kb: seq<Attr>, types: Types) {
    && ValidRelation(out) && PrunedAll(out.roots) && RangedAll(out.roots, types)
    && AttrBag(out.tree) == AttrBag(a.tree) + AttrBag(b.tree)
    && Perm(FlatAll(out.roots), BagJoin(FlatAll(a.roots), FlatAll(b.roots), ka, kb, ByWords(types, ka, kb)))
  }

  lemma JoinedEitherWay(out: FRelation, upper: FRelation, lower: FRelation, uk: seq<Attr>, lk: seq<Attr>, types: Types)
    requires Joinable(upper, lower) && Joined(out, upper, lower, uk, lk, types)
    ensures Joined(out, lower, upper, lk, uk, types)
  {
    ApartIsDisjoint(upper, lower);
    BagJoinComm(FlatAll(upper.roots), FlatAll(lower.roots), uk, lk, ByWords(types, uk, lk));
  }

  /** Between columns of one width that is the join by value. */
  lemma JoinedByValue(out: FRelation, a: FRelation, b: FRelation, ka: seq<Attr>, kb: seq<Attr>, types: Types)
    requires Joined(out, a, b, ka, kb, types) && SameWidths(types, ka, kb) && RangedAll(a.roots, types) && RangedAll(b.roots, types)
    ensures Perm(FlatAll(out.roots), BagJoin(FlatAll(a.roots), FlatAll(b.roots), ka, kb, ByValue))
  {
    FlatAllRanged(a.roots, types);
    FlatAllRanged(b.roots, types);
    JoinSame(FlatAll(a.roots), FlatAll(b.roots), types, ka, kb);
  }

  function OnTop<T>(mode: JoinMode, build: T, probe: T): T {
    if mode == BOTTOM_INSERT then build else probe
  }

  function Beneath<T>(mode: JoinMode, build: T, probe: T): T {
    if mode == BOTTOM_INSERT then probe else build
  }

  /** The tree of the output. */
  function MergeTrees(build: FNode, probe: FNode, kb: seq<Attr>, kp: seq<Attr>, mode: JoinMode, strategy: PathStrategy): FNode {
    JoinTree(OnTop(mode, build, probe), Beneath(mode, build, probe), OnTop(mode, kb, kp), Beneath(mode, kb, kp), strategy)
  }

  /** Both sides' keys converge on one level of their path. */
  predicate KeysConverge(build: FNode, probe: FNode, kb: seq<Attr>, kp: seq<Attr>, strategy: PathStrategy) {
    Converges(PathTree(build, kb, strategy), kb) && Converges(PathTree(probe, kp, strategy), kp)
  }

  /** The join of two relations: either mode gives the join of their flat bags by packed keys,
      which is the equi-join where the key columns' widths agree. Only keys that do not converge
      or do not fit a word are refused for what they are. */
  method FactorizedJoin(build: FRelation, probe: FRelation, kb: seq<Attr>, kp: seq<Attr>, types: Types, mode: JoinMode,
                        strategy: PathStrategy, hash: nat -> nat) returns (out: Outcome<FRelation>)
    requires Joinable(build, probe) && RangedAll(build.roots, types) && RangedAll(probe.roots, types)
    ensures out.Ok? ==> Joined(out.value, build, probe, kb, kp, types)
    ensures out.Ok? && TypesOf(types, kb) == TypesOf(types, kp) ==>
      Perm(FlatAll(out.value.roots), BagJoin(FlatAll(build.roots), FlatAll(probe.roots), kb, kp, ByValue))
    ensures out.Ok? ==> out.value.tree == MergeTrees(build.tree, probe.tree, kb, kp, mode, strategy)
    ensures out.Ok? && mode == BOTTOM_INSERT ==> out.value.tree == JoinTree(build.tree, probe.tree, kb, kp, strategy)
    ensures out.Ok? && mode == TOP_INSERT ==> out.value.tree == JoinTree(probe.tree, build.tree, kp, kb, strategy)
    ensures out.Ok? ==> Converges(PathTree(build.tree, kb, strategy), kb) && Converges(PathTree(probe.tree, kp, strategy), kp)
    ensures out.Ok? ==> KeysFit(types, kb, kp)
    ensures out == Failed(KeysDoNotConverge) ==> !KeysConverge(build.tree, probe.tree, kb, kp, strategy)
    ensures out == Failed(KeyTooWide) ==> !KeysFit(types, kb, kp)
    ensures out.Failed? ==> out.error in {KeysDoNotConverge, KeyTooWide, OutOfMemory, Overflow}
  {
    hide LowerEntries, Files, Joined;
    var upper, lower := OnTop(mode, build, probe), Beneath(mode, build, probe);
    var uk, lk := OnTop(mode, kb, kp), Beneath(mode, kb, kp);
    var ur := MakeKeyReader(PathTree(upper.tree, uk, strategy), uk, types);
    if ur.Failed? { return Failed(ur.error); }
    var lr := MakeKeyReader(PathTree(lower.tree, lk, strategy), lk, types);
    if lr.Failed? { return Failed(lr.error); }
    if * { return Failed(OutOfMemory); }
    assert AttrBag(upper.tree) + AttrBag(lower.tree) == AttrBag(build.tree) + AttrBag(probe.tree);
    var rs: Outcome<seq<Rec>>;
    ghost var answer: seq<int> -> seq<Rec>;
    if mode == TOP_INSERT {
      rs, answer := JoinTop(upper, lower, uk, lk, types, strategy, hash);
    } else {
      rs, answer := JoinBottom(upper, lower, uk, lk, types, strategy, hash);
    }
    if rs.Failed? { return Failed(Overflow); }
    var r := FRelation(JoinTree(upper.tree, lower.tree, uk, lk, strategy), PruneAll(rs.value));
    JoinTheorem(upper, lower, uk, lk, strategy, answer, ByWords(types, uk, lk));
    OutputRanged(upper, lower, uk, lk, types, strategy, answer);
    IsJoined(r, upper, lower, uk, lk, types);
    if mode == TOP_INSERT { JoinedEitherWay(r, upper, lower, uk, lk, types); }
    if TypesOf(types, kb) == TypesOf(types, kp) { JoinedByValue(r, build, probe, kb, kp, types); }
    return Ok(r);
  }

  lemma IsJoined(out: FRelation, a: FRelation, b: FRelation, ka: seq<Attr>, kb: seq<Attr>, types: Types)
    requires ValidRelation(out) && PrunedAll(out.roots) && RangedAll(out.roots, types)
    requires AttrBag(out.tree) == AttrBag(a.tree) + AttrBag(b.tree)
    requires Perm(FlatAll(out.roots), BagJoin(FlatAll(a.roots), FlatAll(b.roots), ka, kb, ByWords(types, ka, kb)))
    ensures Joined(out, a, b, ka, kb, types)
  {}
}
