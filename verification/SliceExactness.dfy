/** When cutting a join into buckets loses nothing. The buckets are made by the classes of all
    predicates, the joins apply only those between two relations. */
module SliceExactness {
  import opened Bags
  import opened KeyPacking
  import opened Graphs
  import opened Equalities
  import opened Plans
  import opened Answering
  import opened OneRows
  import opened SelfPredicates
  import opened MixedWidths
  import opened Slicing
  import opened SliceKeys

  /** On all data, for all hash functions and numbers of buckets, the buckets add up to the rows
      found. */
  ghost predicate SlicesExactly(g: QueryGraph, key: KeyColumns)
    requires TypesGiven(g) && KeyColumnsOk(g, key)
  {
    forall data: Data, hash: int -> nat, slices: nat :: ValidData(g, data) && slices > 0 ==> AddsUp(g, data, key, hash, slices)
  }

  ghost predicate AddsUp(g: QueryGraph, data: Data, key: KeyColumns, hash: int -> nat, slices: nat)
    requires TypesGiven(g) && ValidData(g, data) && KeyColumnsOk(g, key) && slices > 0
  {
    BucketedCount(g, data, NonSelf(g.predicates), key, hash, slices, slices) == |FoundRows(g, data)|
  }

  lemma CoherentAddsUp(g: QueryGraph, data: Data, key: KeyColumns, hash: int -> nat, slices: nat)
    requires ValidGraph(g) && Coherent(g, key) && ValidData(g, data) && SomeKey(key) && slices > 0
    ensures AddsUp(g, data, key, hash, slices)
  {
    hide WordJoin, OneValue, KeyedIn;
    forall t | t in FoundRows(g, data) ensures OneBucket(t, g, key, hash, slices) {
      RowHoldsOneValue(g, data, key, t);
      var slice := OneValueBucket(t, g, key, hash, slices);
      assert Buckets(g, key, hash, slices)(slice)(t);
    }
    BucketsExactIff(g, data, NonSelf(g.predicates), key, hash, slices);
  }

  lemma KeyedTwo(g: QueryGraph, key: KeyColumns, hash: int -> nat, slice: nat, slices: nat, t: Tuple, r: nat, s: nat)
    requires |key| == RelationCount(g) && slices > 0 && r < |key| && s < |key|
    ensures KeyedIn(g, key, Relations(g), hash, slice, slices)(t) ==>
      InBucketAt(t, g, key, r, hash, slice, slices) && InBucketAt(t, g, key, s, hash, slice, slices)
  {
    assert Relations(g)[r] == r && Relations(g)[s] == s;
    assert r in Relations(g) && s in Relations(g);
  }

  /** A row found that holds two values in its keyed columns is lost under some hash. */
  lemma TwoValuesLose(g: QueryGraph, data: Data, key: KeyColumns, hash: int -> nat, t: Tuple, r: nat, s: nat)
    requires TypesGiven(g) && ValidData(g, data) && KeyColumnsOk(g, key) && t in FoundRows(g, data)
    requires r < |key| && s < |key| && key[r] >= 0 && key[s] >= 0
    requires AttributeOf(g, r, key[r]) in t && AttributeOf(g, s, key[s]) in t
    requires hash(t[AttributeOf(g, r, key[r])]) == 0 && hash(t[AttributeOf(g, s, key[s])]) == 1
    ensures !SlicesExactly(g, key)
  {
    hide WordJoin, KeyedIn;
    assert SomeKey(key);
    forall slice: nat | slice < 2 ensures !KeyedIn(g, key, Relations(g), hash, slice, 2)(t) {
      KeyedTwo(g, key, hash, slice, 2, t, r, s);
    }
    assert !OneBucket(t, g, key, hash, 2) by {
      forall slice: nat | slice < 2 ensures !Buckets(g, key, hash, 2)(slice)(t) {}
    }
    BucketsExactIff(g, data, NonSelf(g.predicates), key, hash, 2);
    assert !AddsUp(g, data, key, hash, 2);
  }

  function ZeroAt(x: int): int -> nat {
    v => if v == x then 0 else 1
  }

  /** Zeros and ones are their own bits. */
  lemma SmallBits(g: QueryGraph, t: Tuple, f: Attr -> int, p: Predicate)
    requires TypesGiven(g) && Holds(t, g, f) && PredicateIn(g, p)
    requires f(LeftOf(g, p)) == f(RightOf(g, p)) && 0 <= f(LeftOf(g, p)) <= 1
    ensures Sat(Worded(t, TypesIn(g)), g, p)
  {
    hide TypesIn;
    assert LeftOf(g, p) in t && RightOf(g, p) in t;
  }

  /** Columns of two classes send some row to two buckets. */
  lemma TwoClassesLose(g: QueryGraph, key: KeyColumns, r: nat, s: nat)
    requires TypesGiven(g) && ValidGraph(g) && KeyColumnsOk(g, key) && !NoColumns(g)
    requires r < |key| && s < |key| && key[r] >= 0 && key[s] >= 0 && !SameRoot(g, key, r, s)
    ensures !SlicesExactly(g, key)
  {
    hide FlatJoin, WordJoin, DataBy, After, Worded, TypesIn;
    AttributeInjective(g, r, key[r], r, key[r]);
    AttributeInjective(g, s, key[s], s, key[s]);
    var roots, k := After(g, NonSelf(g.predicates)), AttributeOf(g, r, key[r]);
    var f := Labels(roots, k);
    var t := OneCombination(g, f);
    NonSelfMembers(g.predicates);
    forall q | q in NonSelf(g.predicates) ensures Sat(Worded(t, TypesIn(g)), g, q) {
      assert q in g.predicates && PredicateIn(g, q);
      PredicatesInClasses(g, NonSelf(g.predicates), q);
      SmallBits(g, t, f, q);
    }
    assert t in FoundRows(g, DataBy(g, f));
    TwoValuesLose(g, DataBy(g, f), key, ZeroAt(0), t, r, s);
  }

  /** So do columns of two widths, even of one class. */
  lemma TwoWidthsLose(g: QueryGraph, key: KeyColumns, r: nat, s: nat)
    requires TypesGiven(g) && ValidGraph(g) && KeyColumnsOk(g, key) && !NoColumns(g)
    requires r < |key| && s < |key| && key[r] >= 0 && key[s] >= 0
    requires g.columnTypes[r][key[r]] == INT32 && g.columnTypes[s][key[s]] == INT64
    ensures !SlicesExactly(g, key)
  {
    hide FlatJoin, WordJoin, DataBy, Worded, TypesIn, LowOnes, Unsigned;
    Stored(g);
    var f := LowOnes(g);
    var t := OneCombination(g, f);
    NonSelfMembers(g.predicates);
    forall q | q in NonSelf(g.predicates) ensures Sat(Worded(t, TypesIn(g)), g, q) {
      assert PredicateIn(g, q);
      Compared(g, q, t, f);
      LowOneOf(g, q.left, q.leftColumn);
      LowOneOf(g, q.right, q.rightColumn);
    }
    LowOneOf(g, r, key[r]);
    LowOneOf(g, s, key[s]);
    assert t in FoundRows(g, DataBy(g, f));
    TwoValuesLose(g, DataBy(g, f), key, ZeroAt(-1), t, r, s);
  }

  /** Buckets add up, whatever the data, exactly when the keyed columns are of one width and equal by
      the predicates the joins apply, or there is never a row at all. */
  lemma ExactIffCoherent(g: QueryGraph, key: KeyColumns)
    requires TypesGiven(g) && ValidGraph(g) && KeyColumnsOk(g, key) && SomeKey(key)
    ensures SlicesExactly(g, key) <==> NoColumns(g) || Coherent(g, key)
  {
    hide AddsUp, After, NonSelf;
    if NoColumns(g) {
      forall data: Data, hash: int -> nat, slices: nat | ValidData(g, data) && slices > 0 ensures AddsUp(g, data, key, hash, slices) {
        NothingAddsUp(g, data, key, hash, slices);
      }
    } else if Coherent(g, key) {
      forall data: Data, hash: int -> nat, slices: nat | ValidData(g, data) && slices > 0 ensures AddsUp(g, data, key, hash, slices) {
        CoherentAddsUp(g, data, key, hash, slices);
      }
    } else if !OneClass(g, key) {
      var r: nat, s: nat :| r < |key| && s < |key| && key[r] >= 0 && key[s] >= 0 && !SameRoot(g, key, r, s);
      TwoClassesLose(g, key, r, s);
    } else {
      var r: nat, s: nat :| r < |key| && s < |key| && key[r] >= 0 && key[s] >= 0
        && g.columnTypes[r][key[r]] != g.columnTypes[s][key[s]];
      if g.columnTypes[r][key[r]] == INT32 { TwoWidthsLose(g, key, r, s); } else { TwoWidthsLose(g, key, s, r); }
    }
  }

  lemma NothingAddsUp(g: QueryGraph, data: Data, key: KeyColumns, hash: int -> nat, slices: nat)
    requires TypesGiven(g) && ValidData(g, data) && KeyColumnsOk(g, key) && SomeKey(key) && slices > 0 && NoColumns(g)
    ensures AddsUp(g, data, key, hash, slices)
  {
    NothingJoins(g, data, NonSelf(g.predicates));
    BucketsExactIff(g, data, NonSelf(g.predicates), key, hash, slices);
  }

  lemma {:induction false} NoSelfKept(ps: seq<Predicate>)
    requires forall p :: p in ps ==> p.left != p.right
    ensures NonSelf(ps) == ps
  {
    if ps != [] {
      assert ps[0] in ps && forall p :: p in ps[1..] ==> p in ps;
      NoSelfKept(ps[1..]);
      assert ps == [ps[0]] + ps[1..];
    }
  }

  /** Without predicates inside one relation every class will do, the widest as any other, as long as
      its columns are of one width. */
  lemma PlainGraphsCohere(g: QueryGraph, key: KeyColumns)
    requires TypesGiven(g) && (forall p :: p in g.predicates ==> p.left != p.right) && Separates(g, key)
    ensures OneClass(g, key) && (Coherent(g, key) <==> OneWidth(g, key))
  {
    NoSelfKept(g.predicates);
    var roots := After(g, g.predicates);
    var root :| key == ColumnsFor(g, roots, root);
    ClassColumnsOk(g, roots, root);
    forall r, s | 0 <= r < |key| && 0 <= s < |key| && key[r] >= 0 && key[s] >= 0 ensures SameRoot(g, key, r, s) {}
  }

  /** A graph with a predicate inside one relation that has a complete plan, and whose chosen columns
      lose rows. */
  lemma SelfPredicateLosesRows()
    ensures var g := QueryGraph([2, 1], [[INT32, INT32], [INT32]], [Predicate(1, 0, 0, 1), Predicate(0, 0, 0, 1)]);
      var steps := [PlanStep(1, []), PlanStep(0, [Predicate(1, 0, 0, 1)])];
      && TypesGiven(g) && ValidGraph(g) && Planned(g, steps) && Covers(g, steps)
      && ChosenKey(g, steps) == [0, 0] && KeyColumnsOk(g, [0, 0]) && !SlicesExactly(g, [0, 0])
  {
    hide ChosenKey, SlicesExactly, Planned, Covers, KeyColumnsOk;
    var g := QueryGraph([2, 1], [[INT32, INT32], [INT32]], [Predicate(1, 0, 0, 1), Predicate(0, 0, 0, 1)]);
    ExamplePlanned(g);
    ExampleLoses(g, [PlanStep(1, []), PlanStep(0, [Predicate(1, 0, 0, 1)])]);
  }

  lemma ExamplePlanned(g: QueryGraph)
    requires TypesGiven(g) && g.columnCounts == [2, 1] && g.predicates == [Predicate(1, 0, 0, 1), Predicate(0, 0, 0, 1)]
    ensures var steps := [PlanStep(1, []), PlanStep(0, [Predicate(1, 0, 0, 1)])]; Planned(g, steps) && Covers(g, steps)
  {
    hide Planned, Covers, After;
    var p := g.predicates[0];
    ExampleClasses(g);
    assert p in g.predicates && PredicateIn(g, p);
    TwoSteps(g, p);
  }

  lemma ExampleLoses(g: QueryGraph, steps: seq<PlanStep>)
    requires TypesGiven(g) && g.columnCounts == [2, 1] && g.predicates == [Predicate(1, 0, 0, 1), Predicate(0, 0, 0, 1)]
    ensures ValidGraph(g) && ChosenKey(g, steps) == [0, 0] && KeyColumnsOk(g, [0, 0]) && !SlicesExactly(g, [0, 0])
  {
    hide ChosenKey, SlicesExactly, After, NonSelf;
    Bases(g);
    ExampleClasses(g);
    ExampleKey(g, steps);
    var key: KeyColumns := [0, 0];
    assert key[0] >= 0;
    assert !SameRoot(g, key, 0, 1);
    TwoClassesLose(g, key, 0, 1);
  }

  lemma ExampleClasses(g: QueryGraph)
    requires g.columnCounts == [2, 1] && g.predicates == [Predicate(1, 0, 0, 1), Predicate(0, 0, 0, 1)]
    ensures NonSelf(g.predicates) == [g.predicates[0]]
    ensures After(g, NonSelf(g.predicates)) == [0, 1, 1] && After(g, g.predicates) == [1, 1, 1]
  {
    var p, q := g.predicates[0], g.predicates[1];
    Bases(g);
    assert g.predicates[..1] == [p] && [p][..0] == [] && g.predicates[1..] == [q] && [q][1..] == [];
    assert NonSelf([q]) == NonSelf([]) == [];
    assert NonSelf(g.predicates) == [p] + NonSelf(g.predicates[1..]);
    assert After(g, [p]) == MergedRoots(After(g, []), 2, 1) == [0, 1, 1];
    assert After(g, g.predicates) == MergedRoots(After(g, [p]), 0, 1) == [1, 1, 1];
  }

  lemma Bases(g: QueryGraph)
    requires g.columnCounts == [2, 1]
    ensures Base(g.columnCounts, 0) == 0 && Base(g.columnCounts, 1) == 2 && TotalAttributes(g) == 3 && RelationCount(g) == 2
  {
    assert Base([2, 1], 0) == 0 && Base([2, 1], 1) == 2 && Base([2, 1], 2) == 3;
  }

  /** Only the class of all three columns reaches both relations, so it is chosen whatever the plan. */
  lemma ExampleKey(g: QueryGraph, steps: seq<PlanStep>)
    requires g.columnCounts == [2, 1] && After(g, g.predicates) == [1, 1, 1]
    ensures ChosenKey(g, steps) == [0, 0]
  {
    Bases(g);
    var roots := After(g, g.predicates);
    forall root ensures ColumnsFor(g, roots, root) == if root == 1 then [0, 0] else [-1, -1] {
      assert ColumnBelow(g, roots, root, 0, 0) == -1 && ColumnBelow(g, roots, root, 1, 0) == -1;
      assert ColumnBelow(g, roots, root, 0, 1) == (if root == 1 then 0 else -1);
      assert ColumnBelow(g, roots, root, 0, 2) == (if root == 1 then 0 else -1);
      assert ColumnBelow(g, roots, root, 1, 1) == (if root == 1 then 0 else -1);
    }
    assert [0, 0][1..] == [0] && [0][1..] == [] && Reach([0, 0]) == 2;
    assert [-1, -1][1..] == [-1] && [-1][1..] == [] && Reach([-1, -1]) == 0;
    assert BestBelow(g, steps, roots, 1) == NoChoice;
    assert BestBelow(g, steps, roots, 2) == Choice(1);
    assert BestBelow(g, steps, roots, 3) == Choice(1);
  }
}
