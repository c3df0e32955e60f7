/** Counting and enumerating a join bucket by bucket, so that each bucket fits where the whole join
    does not. */
module SliceMethods {
  import opened Bags
  import opened Filters
  import opened KeyPacking
  import opened Outcomes
  import opened Graphs
  import opened Equalities
  import opened Plans
  import opened Answering
  import opened Executing
  import opened Slicing
  import opened SliceKeys
  import opened SliceExactness
  import Enumerating
  import opened Materializing

  /** The hash of a column's value, taken as an unsigned word. */
  function ValueHash(q: Query): int -> nat {
    v => q.keyHash(v % TWO64)
  }

  /** The rows the whole query finds. */
  ghost function RowsOf(q: Query, data: Data): seq<Tuple> {
    if TypesGiven(q.graph) && ValidData(q.graph, data) then FoundRows(q.graph, data) else []
  }

  /** The columns a query is bucketed on. */
  function KeyOfQuery(q: Query): (key: KeyColumns)
    ensures key != [] ==> |key| == RelationCount(q.graph) && SomeKey(key)
  {
    if ChosenKey(q.graph, q.plan.steps) != [] then
      ChosenSeparates(q.graph, q.plan.steps);
      ChosenKey(q.graph, q.plan.steps)
    else []
  }

  /** Each number tests whether a row is in that bucket; at most one bucket is no cut at all. */
  ghost function SliceTests(q: Query, slices: nat): nat -> Tuple -> bool {
    if slices <= 1 then slice => t => true
    else if KeyOfQuery(q) == [] then slice => t => false
    else Buckets(q.graph, KeyOfQuery(q), ValueHash(q), slices)
  }

  /** In every relation the chosen class has a column on, the hash of that column's value, taken as an
      unsigned word, leaves the bucket's number. */
  ghost predicate Hashes(q: Query, slice: nat, slices: nat, t: Tuple)
    requires slices > 0
  {
    forall r: nat :: r < |q.graph.columnCounts| && r < |KeyOfQuery(q)| && KeyOfQuery(q)[r] >= 0 ==>
      HashesAt(q, slice, slices, t, AttributeOf(q.graph, r, KeyOfQuery(q)[r]))
  }

  ghost predicate HashesAt(q: Query, slice: nat, slices: nat, t: Tuple, a: Attr)
    requires slices > 0
  {
    a in t && q.keyHash(t[a] % 0x1_0000_0000_0000_0000) % slices == slice
  }

  /** A row is in a bucket if there is but one, or if all its keyed columns hash into it. */
  lemma SliceTestIs(q: Query, slice: nat, slices: nat, t: Tuple)
    ensures slices <= 1 ==> SliceTests(q, slices)(slice)(t)
    ensures slices > 1 ==> (SliceTests(q, slices)(slice)(t) <==> KeyOfQuery(q) != [] && Hashes(q, slice, slices, t))
  {
    hide KeyOfQuery;
    if slices > 1 && KeyOfQuery(q) != [] {
      var key := KeyOfQuery(q);
      forall r: nat | r < |key|
        ensures r in Relations(q.graph)
        ensures InBucketAt(t, q.graph, key, r, ValueHash(q), slice, slices)
          <==> key[r] < 0 || HashesAt(q, slice, slices, t, AttributeOf(q.graph, r, key[r]))
      {
        assert Relations(q.graph)[r] == r;
      }
    }
  }

  /** The rows found all of whose keyed columns fall in the bucket. */
  ghost function SliceRows(q: Query, data: Data, slice: nat, slices: nat): seq<Tuple> {
    Filter(RowsOf(q, data), SliceTests(q, slices)(slice))
  }

  /** The rows found that are in some bucket. */
  ghost function SlicedRows(q: Query, data: Data, slices: nat): seq<Tuple> {
    if slices <= 1 then RowsOf(q, data) else Filter(RowsOf(q, data), AnyOf(SliceTests(q, slices), slices))
  }

  /** Every row found holds one value in these columns. */
  ghost predicate KeyWhole(q: Query, data: Data, key: KeyColumns) {
    |key| == RelationCount(q.graph) && forall t :: t in RowsOf(q, data) ==> OneValue(t, q.graph, key)
  }

  /** No row found is cut by the buckets. */
  ghost predicate Uncut(q: Query, data: Data) {
    KeyOfQuery(q) != [] ==> KeyWhole(q, data, KeyOfQuery(q))
  }

  /** Nor, where a second class may be used, by those of any class. */
  ghost predicate UncutTwice(q: Query, data: Data, secondKey: bool) {
    Uncut(q, data) && (secondKey ==> forall key :: Separates(q.graph, key) ==> KeyWhole(q, data, key))
  }

  /** The rows are never cut where the columns are of one width and equal by the predicates the joins
      apply. */
  lemma CoherentUncut(q: Query, data: Data)
    requires ValidGraph(q.graph) && (KeyOfQuery(q) != [] ==> Coherent(q.graph, KeyOfQuery(q)))
    ensures Uncut(q, data)
  {
    hide FoundRows, ValidData, OneValue;
    if KeyOfQuery(q) != [] && TypesGiven(q.graph) && ValidData(q.graph, data) { CoherentRows(q.graph, data, KeyOfQuery(q)); }
  }

  /** Columns of one class have one width where predicates between relations compare such columns. */
  lemma ClassOneWidth(g: QueryGraph, key: KeyColumns, r: nat, s: nat)
    requires ValidGraph(g) && WidthsAgree(g) && KeyColumnsOk(g, key)
    requires r < |key| && s < |key| && key[r] >= 0 && key[s] >= 0 && SameRoot(g, key, r, s)
    ensures g.columnTypes[r][key[r]] == g.columnTypes[s][key[s]]
  {
    hide After;
    NonSelfMembers(g.predicates);
    WidthsSat(g, NonSelf(g.predicates));
    AttributeInjective(g, r, key[r], s, key[s]);
    AttributeInjective(g, s, key[s], s, key[s]);
    TypeOfColumn(g, r, key[r]);
    TypeOfColumn(g, s, key[s]);
    if r != s { ClassesHold(g, NonSelf(g.predicates), WidthTuple(g), AttributeOf(g, r, key[r]), AttributeOf(g, s, key[s])); }
  }

  /** Where every predicate compares columns of one width in two relations, no class cuts a row,
      whatever the data. */
  lemma PlainUncut(q: Query, data: Data, secondKey: bool)
    requires ValidGraph(q.graph) && WidthsAgree(q.graph) && forall p :: p in q.graph.predicates ==> p.left != p.right
    ensures UncutTwice(q, data, secondKey)
  {
    hide FoundRows, ValidData, OneValue, SameRoot, Separates, Coherent;
    forall key | Separates(q.graph, key) ensures KeyWhole(q, data, key) {
      PlainGraphsCohere(q.graph, key);
      SeparatesOk(q.graph, key);
      forall r, s | 0 <= r < |key| && 0 <= s < |key| && key[r] >= 0 && key[s] >= 0
        ensures q.graph.columnTypes[r][key[r]] == q.graph.columnTypes[s][key[s]]
      {
        ClassOneWidth(q.graph, key, r, s);
      }
      if ValidData(q.graph, data) { CoherentRows(q.graph, data, key); }
    }
    if KeyOfQuery(q) != [] { ChosenSeparates(q.graph, q.plan.steps); }
  }

  lemma TestsApart(q: Query, slices: nat, n: nat)
    requires slices > 1
    ensures Exclusive(SliceTests(q, slices), n)
  {
    hide Buckets, KeyOfQuery;
    if KeyOfQuery(q) != [] { BucketsApart(q.graph, KeyOfQuery(q), ValueHash(q), slices, n); }
  }

  /** The buckets' rows, put together. */
  lemma SlicesTogether(q: Query, data: Data, slices: nat)
    requires slices > 1
    ensures |Pieces(RowsOf(q, data), SliceTests(q, slices), slices)| == |SlicedRows(q, data, slices)| <= |RowsOf(q, data)|
    ensures Uncut(q, data) && KeyOfQuery(q) != [] ==> SlicedRows(q, data, slices) == RowsOf(q, data)
  {
    hide RowsOf, Buckets, OneValue;
    var b, at := RowsOf(q, data), SliceTests(q, slices);
    TestsApart(q, slices, slices);
    PiecesAre(b, at, slices);
    PermLength(Pieces(b, at, slices), Filter(b, AnyOf(at, slices)));
    if Uncut(q, data) && KeyOfQuery(q) != [] {
      forall t | t in b ensures AnyOf(at, slices)(t) { RowInBucket(q, slices, t); }
      FilterAll(b, AnyOf(at, slices));
    }
  }

  lemma RowInBucket(q: Query, slices: nat, t: Tuple)
    requires slices > 1 && KeyOfQuery(q) != [] && OneValue(t, q.graph, KeyOfQuery(q))
    ensures AnyOf(SliceTests(q, slices), slices)(t)
  {
    hide KeyedIn, OneValue, KeyOfQuery;
    var slice := OneValueBucket(t, q.graph, KeyOfQuery(q), ValueHash(q), slices);
    assert SliceTests(q, slices)(slice)(t);
  }

  lemma PieceStep<T>(b: seq<T>, at: nat -> T -> bool, n: nat)
    ensures |Pieces(b, at, n + 1)| == |Pieces(b, at, n)| + |Filter(b, at(n))| && Pieces(b, at, 0) == []
  {}

  lemma BucketData(q: Query, data: Data, key: KeyColumns, slice: nat, slices: nat)
    requires Posed(q, data) && TypesGiven(q.graph) && KeyColumnsOk(q.graph, key) && slices > 0
    ensures |key| == |data| && Posed(q, SlicedData(data, key, ValueHash(q), slice, slices))
    ensures ValidData(q.graph, SlicedData(data, key, ValueHash(q), slice, slices))
    ensures FoundRows(q.graph, SlicedData(data, key, ValueHash(q), slice, slices))
         == Filter(FoundRows(q.graph, data), KeyedIn(q.graph, key, Relations(q.graph), ValueHash(q), slice, slices))
    ensures forall r, i :: 0 <= r < |data| && 0 <= i < |data[r]| ==> key[r] < |data[r][i]|
  {
    hide WordJoin, KeyedIn;
    SlicedJoin(q.graph, data, NonSelf(q.graph.predicates), key, ValueHash(q), slice, slices);
    forall r, i | 0 <= r < |data| && 0 <= i < |data[r]| ensures key[r] < |data[r][i]| { assert ValidRow(q.graph, r, data[r][i]); }
  }

  /** One bucket of the data, and the query on it. */
  method BucketOf(q: Query, data: Data, key: KeyColumns, slice: nat, slices: nat) returns (bucket: Data)
    requires Posed(q, data) && TypesGiven(q.graph) && KeyColumnsOk(q.graph, key) && slices > 0
    ensures Posed(q, bucket) && ValidData(q.graph, bucket)
    ensures RowsOf(q, bucket) == Filter(RowsOf(q, data), Buckets(q.graph, key, ValueHash(q), slices)(slice))
  {
    hide Planned, Covers, KeyedIn, ValidData, FoundRows, ValueHash, ValidGraph;
    BucketData(q, data, key, slice, slices);
    PosedTyped(q, data);
    bucket := Sliced(data, key, ValueHash(q), slice, slices);
  }

  lemma PosedTyped(q: Query, data: Data)
    requires Posed(q, data) && TypesGiven(q.graph)
    ensures ValidData(q.graph, data)
  {}

  lemma SeparatesOk(g: QueryGraph, key: KeyColumns)
    requires Separates(g, key)
    ensures |key| == RelationCount(g) && KeyColumnsOk(g, key) && SomeKey(key)
  {}

  /** There is no key to slice by, and more than one slice is asked for. */
  predicate NoKeyFor(q: Query, slices: nat) {
    slices > 1 && ChosenKey(q.graph, q.plan.steps) == []
  }

  /** Counts one bucket. Its rows are only read when the plan runs. */
  method ExecuteCountSlice(q: Query, data: Data, slice: nat, slices: nat) returns (r: Outcome<nat>)
    requires Posed(q, data)
    ensures r == Failed(NoSliceKey) <==> slices > 1 && ChosenKey(q.graph, q.plan.steps) == []
    ensures r == Failed(NoPlan) <==> !NoKeyFor(q, slices) && !q.plan.complete
    ensures r == Failed(Malformed) <==> !NoKeyFor(q, slices) && q.plan.complete && !TypesGiven(q.graph)
    ensures r.Ok? ==> FitsPlan(q) && ValidData(q.graph, data) && r.value == |SliceRows(q, data, slice, slices)|
    ensures r == Failed(KeyTooWide) ==> !FitsPlan(q)
    ensures r.Failed? ==> r.error in {NoSliceKey, NoPlan, Malformed, KeyTooWide, OutOfMemory, Overflow}
  {
    hide FoundRows, JoinRows, Planned, Covers, WidthsAgree, ValidData, ChosenKey, KeyedIn, StepsFit, Separates, ValidGraph;
    if slices <= 1 {
      r := ExecuteCount(q, data);
      AllPass(RowsOf(q, data), t => true);
      return;
    }
    var key := ChooseSliceColumns(q.graph, q.plan.steps);
    if key == [] { return Failed(NoSliceKey); }
    if !q.plan.complete || !TypesGiven(q.graph) {
      r := ExecuteCount(q, data);
      return;
    }
    ChosenSeparates(q.graph, q.plan.steps);
    SeparatesOk(q.graph, key);
    PosedTyped(q, data);
    var bucket := BucketOf(q, data, key, slice, slices);
    r := ExecuteCount(q, bucket);
  }

  lemma AllPass<T>(b: seq<T>, f: T -> bool)
    requires forall x :: x in b ==> f(x)
    ensures Filter(b, f) == b
  {
    FilterAll(b, f);
  }

  //
  // Buckets that do not fit
  //

  /** The finer buckets congruent to one. */
  ghost function FinerTests(q: Query, slice: nat, slices: nat, factor: nat): nat -> Tuple -> bool {
    (part: nat) => SliceTests(q, slices * factor)(slice + part * slices)
  }

  /** The rows of a bucket's finer buckets together. */
  ghost function RefinedRows(q: Query, data: Data, slice: nat, slices: nat, factor: nat): seq<Tuple> {
    Pieces(RowsOf(q, data), FinerTests(q, slice, slices, factor), factor)
  }

  lemma TimesBig(a: nat, b: nat)
    requires a > 0 && b > 1
    ensures a * b > 1
  {}

  lemma PiecesSame<T>(b: seq<T>, at: nat -> T -> bool, to: nat -> T -> bool, n: nat)
    requires forall i: nat, x :: i < n && x in b ==> at(i)(x) == to(i)(x)
    ensures Pieces(b, at, n) == Pieces(b, to, n)
  {
    if n > 0 {
      PiecesSame(b, at, to, n - 1);
      FilterSame(b, at(n - 1), to(n - 1));
    }
  }

  /** The rows of a bucket as the modulus gives them. */
  ghost function ModulusRows(q: Query, data: Data, slice: nat, slices: nat): seq<Tuple>
    requires slices > 0 && KeyOfQuery(q) != []
  {
    Filter(RowsOf(q, data), KeyedIn(q.graph, KeyOfQuery(q), Relations(q.graph), ValueHash(q), slice, slices))
  }

  /** They are the slice, or all rows but those cut where there is one slice. */
  lemma ModulusSlice(q: Query, data: Data, slice: nat, slices: nat)
    requires slice < slices && KeyOfQuery(q) != []
    ensures |ModulusRows(q, data, slice, slices)| <= |SliceRows(q, data, slice, slices)|
    ensures Uncut(q, data) ==> |ModulusRows(q, data, slice, slices)| == |SliceRows(q, data, slice, slices)|
  {
    hide RowsOf, KeyedIn, OneValue, KeyOfQuery;
    if slices == 1 {
      var b, inside := RowsOf(q, data), KeyedIn(q.graph, KeyOfQuery(q), Relations(q.graph), ValueHash(q), 0, 1);
      AllPass(b, SliceTests(q, 1)(0));
      if Uncut(q, data) {
        forall t | t in b ensures inside(t) { OnlyBucket(q, t); }
        AllPass(b, inside);
      }
    }
  }

  /** Refining a bucket never adds rows, and loses none where no row is cut. */
  lemma RefinedAre(q: Query, data: Data, slice: nat, slices: nat, factor: nat)
    requires slice < slices && factor > 1 && KeyOfQuery(q) != []
    ensures |RefinedRows(q, data, slice, slices, factor)| <= |SliceRows(q, data, slice, slices)|
    ensures Uncut(q, data) ==> |RefinedRows(q, data, slice, slices, factor)| == |SliceRows(q, data, slice, slices)|
  {
    hide RowsOf, KeyedIn, OneValue, KeyOfQuery, SliceRows, Pieces;
    var b, g, key, hash := RowsOf(q, data), q.graph, KeyOfQuery(q), ValueHash(q);
    TimesBig(slices, factor);
    PiecesSame(b, FinerTests(q, slice, slices, factor), FinerBuckets(g, key, hash, slice, slices, factor), factor);
    FinerBucketsPartition(b, g, key, hash, slice, slices, factor);
    FewerRows(Pieces(b, FinerBuckets(g, key, hash, slice, slices, factor), factor), ModulusRows(q, data, slice, slices));
    ModulusSlice(q, data, slice, slices);
  }

  lemma OnlyBucket(q: Query, t: Tuple)
    requires KeyOfQuery(q) != [] && OneValue(t, q.graph, KeyOfQuery(q))
    ensures KeyedIn(q.graph, KeyOfQuery(q), Relations(q.graph), ValueHash(q), 0, 1)(t)
  {
    var slice := OneValueBucket(t, q.graph, KeyOfQuery(q), ValueHash(q), 1);
  }

  lemma FewerRows<T>(a: seq<T>, b: seq<T>)
    requires multiset(a) <= multiset(b)
    ensures |a| <= |b| && (Perm(a, b) ==> |a| == |b|)
  {
    assert multiset(b) == multiset(a) + (multiset(b) - multiset(a));
    assert |multiset(a)| == |a| && |multiset(b)| == |b|;
  }

  /** Counts a bucket as the `factor` finer buckets congruent to it. */
  method CountRefined(q: Query, data: Data, slice: nat, slices: nat, factor: nat) returns (r: Outcome<nat>)
    requires Posed(q, data) && slice < slices && factor > 1
    ensures r == Failed(NoSliceKey) <==> ChosenKey(q.graph, q.plan.steps) == []
    ensures r == Failed(NoPlan) <==> ChosenKey(q.graph, q.plan.steps) != [] && !q.plan.complete
    ensures r == Failed(Malformed) <==> ChosenKey(q.graph, q.plan.steps) != [] && q.plan.complete && !TypesGiven(q.graph)
    ensures r.Ok? ==> FitsPlan(q) && ValidData(q.graph, data) && r.value == |RefinedRows(q, data, slice, slices, factor)|
    ensures r.Ok? ==> r.value <= |SliceRows(q, data, slice, slices)|
    ensures r.Ok? && Uncut(q, data) ==> r.value == |SliceRows(q, data, slice, slices)|
    ensures r == Failed(KeyTooWide) ==> !FitsPlan(q)
    ensures r.Failed? ==> r.error in {NoSliceKey, NoPlan, Malformed, KeyTooWide, OutOfMemory, Overflow}
  {
    hide RowsOf, SliceTests, ChosenKey, ValidData, Posed, Uncut, StepsFit;
    var total: nat := 0;
    TimesBig(slices, factor);
    ghost var b, at := RowsOf(q, data), FinerTests(q, slice, slices, factor);
    PieceStep(b, at, 0);
    for part := 0 to factor
      invariant total == |Pieces(b, at, part)|
      invariant part > 0 ==> ChosenKey(q.graph, q.plan.steps) != [] && FitsPlan(q) && ValidData(q.graph, data) && q.plan.complete
    {
      var piece :- ExecuteCountSlice(q, data, slice + part * slices, slices * factor);
      PieceStep(b, at, part);
      total :- Plus(total, piece);
    }
    RefinedAre(q, data, slice, slices, factor);
    return Ok(total);
  }

  /** Counts a bucket in `parts` pieces by another class of columns. */
  method CountParts(q: Query, bucket: Data, key: KeyColumns, parts: nat) returns (r: Outcome<nat>)
    requires Posed(q, bucket) && TypesGiven(q.graph) && q.plan.complete && Separates(q.graph, key) && parts > 1
    ensures r.Ok? ==> FitsPlan(q) && r.value == |Pieces(RowsOf(q, bucket), Buckets(q.graph, key, ValueHash(q), parts), parts)|
    ensures r.Ok? ==> r.value <= |RowsOf(q, bucket)| && (KeyWhole(q, bucket, key) ==> r.value == |RowsOf(q, bucket)|)
    ensures r == Failed(KeyTooWide) ==> !FitsPlan(q)
    ensures r.Failed? ==> r.error in {KeyTooWide, OutOfMemory, Overflow}
  {
    hide FoundRows, JoinRows, ValidData, Planned, Covers, WidthsAgree, Separates, KeyedIn, OneValue, StepsFit, ValidGraph;
    PosedTyped(q, bucket);
    SeparatesOk(q.graph, key);
    var total: nat := 0;
    ghost var b, at := RowsOf(q, bucket), Buckets(q.graph, key, ValueHash(q), parts);
    PieceStep(b, at, 0);
    for part := 0 to parts
      invariant total == |Pieces(b, at, part)| && (part > 0 ==> FitsPlan(q))
    {
      var inner := BucketOf(q, bucket, key, part, parts);
      var piece :- ExecuteCount(q, inner);
      PieceStep(b, at, part);
      total :- Plus(total, piece);
    }
    PartsAre(q, bucket, key, parts);
    return Ok(total);
  }

  lemma PartsAre(q: Query, bucket: Data, key: KeyColumns, parts: nat)
    requires Separates(q.graph, key) && parts > 0
    ensures var b := RowsOf(q, bucket); var n := |Pieces(b, Buckets(q.graph, key, ValueHash(q), parts), parts)|;
      n <= |b| && (KeyWhole(q, bucket, key) ==> n == |b|)
  {
    hide RowsOf, KeyedIn, OneValue;
    var b, at := RowsOf(q, bucket), Buckets(q.graph, key, ValueHash(q), parts);
    BucketsApart(q.graph, key, ValueHash(q), parts, parts);
    PiecesAre(b, at, parts);
    PermLength(Pieces(b, at, parts), Filter(b, AnyOf(at, parts)));
    if KeyWhole(q, bucket, key) {
      BucketsPartition(b, q.graph, key, ValueHash(q), parts);
      PermLength(Pieces(b, at, parts), b);
    }
  }

  /** Some class other than this one reaches two relations. */
  predicate OtherKey(g: QueryGraph, primary: KeyColumns) {
    exists root :: 0 <= root < TotalAttributes(g) && Another(g, primary, root)
  }

  predicate Another(g: QueryGraph, primary: KeyColumns, root: nat) {
    Reach(ColumnsFor(g, After(g, g.predicates), root)) > 1 && ColumnsFor(g, After(g, g.predicates), root) != primary
  }

  lemma Others(g: QueryGraph, primary: KeyColumns, out: seq<KeyColumns>, ranked: seq<nat>)
    requires Ranked(g, After(g, g.predicates), ranked, TotalAttributes(g)) && |out| == |ranked|
    requires forall i :: 0 <= i < |out| ==> out[i] == ColumnsFor(g, After(g, g.predicates), ranked[i])
    ensures OtherKey(g, primary) <==> exists i :: 0 <= i < |out| && out[i] != primary
  {
    hide After, ColumnsFor, Reach;
    if root :| 0 <= root < TotalAttributes(g) && Another(g, primary, root) {
      assert root in ranked;
      var i :| 0 <= i < |ranked| && ranked[i] == root;
      assert out[i] != primary;
    }
    if i :| 0 <= i < |out| && out[i] != primary {
      assert ranked[i] in ranked;
      assert Another(g, primary, ranked[i]);
    }
  }

  /** A bucket holds none but rows of the whole. */
  lemma BucketWhole(q: Query, data: Data, bucket: Data, key: KeyColumns, f: Tuple -> bool)
    requires RowsOf(q, bucket) == Filter(RowsOf(q, data), f) && KeyWhole(q, data, key)
    ensures KeyWhole(q, bucket, key)
  {
    hide RowsOf, OneValue;
    FilterMembers(RowsOf(q, data), f);
  }

  lemma BucketIsModulus(q: Query, data: Data, slice: nat, slices: nat)
    requires slices > 0 && KeyOfQuery(q) != []
    ensures Filter(RowsOf(q, data), Buckets(q.graph, KeyOfQuery(q), ValueHash(q), slices)(slice)) == ModulusRows(q, data, slice, slices)
  {}

  /** Counts a bucket by partitioning it on a class other than the one it is a bucket of: a
      modulus cannot separate one value from itself, another class can. */
  method CountBySecondKey(q: Query, data: Data, slice: nat, slices: nat, allowed: bool) returns (r: Outcome<nat>)
    requires Posed(q, data) && slice < slices && q.plan.complete && TypesGiven(q.graph)
    ensures r == Failed(NoSliceKey) <==>
      !allowed || ChosenKey(q.graph, q.plan.steps) == [] || !OtherKey(q.graph, ChosenKey(q.graph, q.plan.steps))
    ensures r.Ok? ==> FitsPlan(q) && r.value <= |SliceRows(q, data, slice, slices)|
    ensures r.Ok? && UncutTwice(q, data, allowed) ==> r.value == |SliceRows(q, data, slice, slices)|
    ensures r == Failed(KeyTooWide) ==> !FitsPlan(q)
    ensures r.Failed? ==> r.error in {NoSliceKey, KeyTooWide, OutOfMemory, Overflow}
  {
    hide RowsOf, SliceRows, ValidData, Planned, Covers, WidthsAgree, Separates, ColumnsFor, ChosenKey, KeyWhole, StepsFit, ValidGraph, After,
         OtherKey, Reach, Buckets;
    if !allowed { return Failed(NoSliceKey); }
    var primary := ChooseSliceColumns(q.graph, q.plan.steps);
    if primary == [] { return Failed(NoSliceKey); }
    var ranked, classes := RankSliceColumns(q.graph);
    Others(q.graph, primary, ranked, classes);
    var other := 0;
    while other < |ranked| && ranked[other] == primary
      invariant 0 <= other <= |ranked| && forall i :: 0 <= i < other ==> ranked[i] == primary
    {
      other := other + 1;
    }
    if other == |ranked| { return Failed(NoSliceKey); }
    RankedSeparates(q.graph, classes, other);
    ChosenSeparates(q.graph, q.plan.steps);
    SeparatesOk(q.graph, primary);
    var bucket := BucketOf(q, data, primary, slice, slices);
    BucketIsModulus(q, data, slice, slices);
    ModulusSlice(q, data, slice, slices);
    if UncutTwice(q, data, allowed) {
      BucketWhole(q, data, bucket, ranked[other], Buckets(q.graph, primary, ValueHash(q), slices)(slice));
    }
    var parts := 8;
    while parts <= 64
      invariant parts > 1
    {
      var piece := CountParts(q, bucket, ranked[other], parts);
      if piece.Ok? || piece.error != OutOfMemory { return piece; }
      parts := parts * 8;
    }
    return Failed(OutOfMemory);
  }

  /** Counts a bucket, refining it as long as it does not fit, by the same class first and then
      by another one. */
  method ExecuteCountSliceWithinMemory(q: Query, data: Data, slice: nat, slices: nat, secondKey: bool) returns (r: Outcome<nat>)
    requires Posed(q, data) && slice < slices
    ensures slices > 1 && ChosenKey(q.graph, q.plan.steps) == [] ==> r == Failed(NoSliceKey)
    ensures r == Failed(NoSliceKey) ==> ChosenKey(q.graph, q.plan.steps) == []
    ensures r == Failed(NoPlan) <==> !NoKeyFor(q, slices) && !q.plan.complete
    ensures r == Failed(Malformed) <==> !NoKeyFor(q, slices) && q.plan.complete && !TypesGiven(q.graph)
    ensures r.Ok? ==> FitsPlan(q) && ValidData(q.graph, data) && r.value <= |SliceRows(q, data, slice, slices)|
    ensures r.Ok? && UncutTwice(q, data, secondKey) ==> r.value == |SliceRows(q, data, slice, slices)|
    ensures r == Failed(KeyTooWide) ==> !FitsPlan(q)
    ensures r.Failed? ==> r.error in {NoSliceKey, NoPlan, Malformed, KeyTooWide, OutOfMemory, Overflow}
  {
    hide SliceRows, Planned, Covers, WidthsAgree, ValidData, ChosenKey, StepsFit, Uncut, ValidGraph, OtherKey;
    r := ExecuteCountSlice(q, data, slice, slices);
    if r.Ok? || r.error != OutOfMemory { return; }
    var factor := 8;
    while factor <= 4096
      invariant factor > 1
    {
      r := CountRefined(q, data, slice, slices, factor);
      if r.Ok? || r.error != OutOfMemory { return; }
      factor := factor * 8;
    }
    PosedTyped(q, data);
    var second := CountBySecondKey(q, data, slice, slices, secondKey);
    if second.Ok? { return second; }
    return Failed(OutOfMemory);
  }

  //
  // All buckets
  //

  /** Counts the buckets one after the other: the rows found that are in some bucket, which are all
      of them exactly if each is, and so where no row is cut. */
  method ExecuteCountSliced(q: Query, data: Data, slices: nat) returns (r: Outcome<nat>)
    requires Posed(q, data)
    ensures r == Failed(NoSliceKey) <==> slices > 1 && ChosenKey(q.graph, q.plan.steps) == []
    ensures r == Failed(NoPlan) <==> !NoKeyFor(q, slices) && !q.plan.complete
    ensures r == Failed(Malformed) <==> !NoKeyFor(q, slices) && q.plan.complete && !TypesGiven(q.graph)
    ensures r.Ok? ==> FitsPlan(q) && ValidData(q.graph, data) && r.value == |SlicedRows(q, data, slices)| <= |RowsOf(q, data)|
    ensures r.Ok? && Uncut(q, data) ==> r.value == |FoundRows(q.graph, data)|
    ensures r.Ok? && Uncut(q, data) && WidthsAgree(q.graph) ==> r.value == |JoinRows(q.graph, data)|
    ensures r == Failed(KeyTooWide) ==> !FitsPlan(q)
    ensures r.Failed? ==> r.error in {NoSliceKey, NoPlan, Malformed, KeyTooWide, OutOfMemory, Overflow}
  {
    hide FoundRows, JoinRows, Planned, Covers, WidthsAgree, ValidData, ChosenKey, StepsFit, Uncut, ValidGraph, SliceTests;
    if slices <= 1 {
      r := ExecuteCount(q, data);
      return;
    }
    ghost var b, at := RowsOf(q, data), SliceTests(q, slices);
    var total: nat := 0;
    PieceStep(b, at, 0);
    for slice := 0 to slices
      invariant total == |Pieces(b, at, slice)|
      invariant slice > 0 ==> !NoKeyFor(q, slices) && FitsPlan(q) && ValidData(q.graph, data) && q.plan.complete
    {
      var part :- ExecuteCountSlice(q, data, slice, slices);
      PieceStep(b, at, slice);
      total :- Plus(total, part);
    }
    SlicesTogether(q, data, slices);
    if WidthsAgree(q.graph) { FoundAsAsked(q.graph, data); }
    return Ok(total);
  }

  const PROBE_SLICES: nat := 16

  /** The buckets up to one, counted: at most their rows, and those where no row is cut. */
  ghost predicate Counted(q: Query, data: Data, secondKey: bool, slices: nat, n: nat, total: nat) {
    && total <= |Pieces(RowsOf(q, data), SliceTests(q, slices), n)|
    && (UncutTwice(q, data, secondKey) ==> total == |Pieces(RowsOf(q, data), SliceTests(q, slices), n)|)
  }

  lemma NoneCounted(q: Query, data: Data, secondKey: bool, slices: nat)
    ensures Counted(q, data, secondKey, slices, 0, 0)
  {}

  lemma OneMoreCounted(q: Query, data: Data, secondKey: bool, slices: nat, n: nat, total: nat, part: nat)
    requires Counted(q, data, secondKey, slices, n, total) && part <= |SliceRows(q, data, n, slices)|
    requires UncutTwice(q, data, secondKey) ==> part == |SliceRows(q, data, n, slices)|
    ensures Counted(q, data, secondKey, slices, n + 1, total + part)
  {
    hide RowsOf, SliceTests, UncutTwice;
    PieceStep(RowsOf(q, data), SliceTests(q, slices), n);
  }

  /** A count of some of the buckets is at most one of all of them, and at most the rows found. */
  lemma CountedSome(q: Query, data: Data, secondKey: bool, slices: nat, n: nat, total: nat)
    requires Counted(q, data, secondKey, slices, n, total) && n <= slices && slices > 0 && (slices > 1 ==> KeyOfQuery(q) != [])
    ensures total <= |RowsOf(q, data)|
    ensures n == slices && UncutTwice(q, data, secondKey) ==> total == |RowsOf(q, data)|
  {
    hide RowsOf, KeyOfQuery, KeyWhole;
    var b, at := RowsOf(q, data), SliceTests(q, slices);
    PiecesGrow(b, at, n, slices);
    if slices > 1 {
      SlicesTogether(q, data, slices);
    } else {
      PieceStep(b, at, 0);
      AllPass(b, at(0));
    }
  }

  /** The first `read` buckets hold enough rows, or are all there are, and fewer do not. */
  ghost predicate ReadUntil(q: Query, data: Data, limit: nat, slices: nat, read: nat)
    requires read > 0
  {
    && (read == slices || |Pieces(RowsOf(q, data), SliceTests(q, slices), read)| >= limit)
    && |Pieces(RowsOf(q, data), SliceTests(q, slices), read - 1)| < limit
  }

  lemma ReadEnough(q: Query, data: Data, secondKey: bool, limit: nat, slices: nat, read: nat, before: nat, total: nat)
    requires read > 0 && Counted(q, data, secondKey, slices, read - 1, before) && Counted(q, data, secondKey, slices, read, total)
    requires before < limit && (read == slices || total >= limit)
    ensures UncutTwice(q, data, secondKey) ==> ReadUntil(q, data, limit, slices, read)
  {
    hide RowsOf, SliceTests, UncutTwice;
  }

  /** The number of rows found, as far as the limit asks: buckets are counted until it is reached. */
  method ExecuteCountAtMost(q: Query, data: Data, limit: nat, secondKey: bool) returns (r: Outcome<nat>, read: nat)
    requires Posed(q, data)
    ensures limit == 0 ==> r == Ok(0) && read == 0
    ensures r == Failed(NoPlan) <==> limit > 0 && !q.plan.complete
    ensures r == Failed(Malformed) <==> limit > 0 && q.plan.complete && !TypesGiven(q.graph)
    ensures r == Failed(NoSliceKey) ==> ChosenKey(q.graph, q.plan.steps) == []
    ensures r.Ok? ==> r.value <= limit
    ensures r.Ok? && limit > 0 ==> FitsPlan(q) && ValidData(q.graph, data) && r.value <= |FoundRows(q.graph, data)|
    ensures r.Ok? && limit > 0 && UncutTwice(q, data, secondKey) ==>
      r.value == if |FoundRows(q.graph, data)| < limit then |FoundRows(q.graph, data)| else limit
    ensures r.Ok? && limit > 0 && UncutTwice(q, data, secondKey) && WidthsAgree(q.graph) ==>
      r.value == if |JoinRows(q.graph, data)| < limit then |JoinRows(q.graph, data)| else limit
    ensures r.Ok? && limit > 0 ==> 0 < read <= if KeyOfQuery(q) == [] then 1 else 16
    ensures r.Ok? && limit > 0 && UncutTwice(q, data, secondKey) ==> ReadUntil(q, data, limit, if KeyOfQuery(q) == [] then 1 else 16, read)
    ensures r == Failed(KeyTooWide) ==> !FitsPlan(q)
    ensures r.Failed? ==> r.error in {NoSliceKey, NoPlan, Malformed, KeyTooWide, OutOfMemory, Overflow}
  {
    hide FoundRows, JoinRows, Planned, Covers, WidthsAgree, ValidData, ChosenKey, StepsFit, UncutTwice, ValidGraph, SliceTests, Counted,
         SliceRows;
    if limit == 0 { return Ok(0), 0; }
    var key := ChooseSliceColumns(q.graph, q.plan.steps);
    var slices := if key == [] then 1 else PROBE_SLICES;
    var total: nat := 0;
    if TypesGiven(q.graph) { AskedIfAgreed(q, data); }
    NoneCounted(q, data, secondKey, slices);
    for slice := 0 to slices
      invariant Counted(q, data, secondKey, slices, slice, total) && total < limit
      invariant slice == slices && UncutTwice(q, data, secondKey) ==> ReadUntil(q, data, limit, slices, slices)
      invariant slice > 0 ==> FitsPlan(q) && ValidData(q.graph, data) && q.plan.complete
    {
      var part := ExecuteCountSliceWithinMemory(q, data, slice, slices, secondKey);
      if part.Failed? { return Failed(part.error), slice; }
      OneMoreCounted(q, data, secondKey, slices, slice, total, part.value);
      var sum := Plus(total, part.value);
      if sum.Failed? { return Failed(Overflow), slice; }
      if sum.value >= limit || slice + 1 == slices { ReadEnough(q, data, secondKey, limit, slices, slice + 1, total, sum.value); }
      total := sum.value;
      CountedSome(q, data, secondKey, slices, slice + 1, total);
      if total >= limit { return Ok(limit), slice + 1; }
    }
    CountedSome(q, data, secondKey, slices, slices, total);
    return Ok(total), slices;
  }

  lemma AskedIfAgreed(q: Query, data: Data)
    requires Posed(q, data) && TypesGiven(q.graph)
    ensures ValidData(q.graph, data) && (WidthsAgree(q.graph) ==> FoundRows(q.graph, data) == JoinRows(q.graph, data))
  {
    hide FoundRows, JoinRows, WidthsAgree;
    if WidthsAgree(q.graph) { FoundAsAsked(q.graph, data); }
  }

  /** Whether a row is found. */
  method ExecuteExists(q: Query, data: Data, secondKey: bool) returns (r: Outcome<nat>)
    requires Posed(q, data)
    ensures r == Failed(NoPlan) <==> !q.plan.complete
    ensures r == Failed(Malformed) <==> q.plan.complete && !TypesGiven(q.graph)
    ensures r == Failed(NoSliceKey) ==> ChosenKey(q.graph, q.plan.steps) == []
    ensures r.Ok? ==> FitsPlan(q) && ValidData(q.graph, data) && r.value <= 1
    ensures r.Ok? ==> (r.value == 1 ==> FoundRows(q.graph, data) != [])
    ensures r.Ok? && UncutTwice(q, data, secondKey) ==> (r.value == 1 <==> FoundRows(q.graph, data) != [])
    ensures r.Ok? && UncutTwice(q, data, secondKey) && WidthsAgree(q.graph) ==> (r.value == 1 <==> JoinRows(q.graph, data) != [])
    ensures r == Failed(KeyTooWide) ==> !FitsPlan(q)
    ensures r.Failed? ==> r.error in {NoSliceKey, NoPlan, Malformed, KeyTooWide, OutOfMemory, Overflow}
  {
    hide FoundRows, JoinRows, ValidData, Posed, UncutTwice, ChosenKey, StepsFit, WidthsAgree;
    var read;
    r, read := ExecuteCountAtMost(q, data, 1, secondKey);
  }

  const SLICE_STEPS: seq<nat> := [8, 64, 512, 4096]

  /** Counts the join whole, then in ever finer buckets, then by a second class. */
  method ExecuteCountWithinMemory(q: Query, data: Data, secondKey: bool) returns (r: Outcome<nat>)
    requires Posed(q, data)
    ensures r == Failed(NoPlan) <==> !q.plan.complete
    ensures r == Failed(Malformed) <==> q.plan.complete && !TypesGiven(q.graph)
    ensures r == Failed(NoSliceKey) ==> ChosenKey(q.graph, q.plan.steps) == []
    ensures r.Ok? ==> FitsPlan(q) && ValidData(q.graph, data) && r.value <= |FoundRows(q.graph, data)|
    ensures r.Ok? && UncutTwice(q, data, secondKey) ==> r.value == |FoundRows(q.graph, data)|
    ensures r.Ok? && UncutTwice(q, data, secondKey) && WidthsAgree(q.graph) ==> r.value == |JoinRows(q.graph, data)|
    ensures r == Failed(KeyTooWide) ==> !FitsPlan(q)
    ensures r.Failed? ==> r.error in {NoSliceKey, NoPlan, Malformed, KeyTooWide, OutOfMemory, Overflow}
  {
    hide FoundRows, JoinRows, Planned, Covers, WidthsAgree, ValidData, ChosenKey, StepsFit, Uncut, ValidGraph, SlicedRows, OtherKey, KeyWhole;
    r := ExecuteCount(q, data);
    if r.Ok? || r.error != OutOfMemory { return; }
    for i := 0 to |SLICE_STEPS| {
      var sliced := ExecuteCountSliced(q, data, SLICE_STEPS[i]);
      if sliced.Ok? || sliced.error != OutOfMemory { return sliced; }
    }
    PosedTyped(q, data);
    AllPass(RowsOf(q, data), SliceTests(q, 1)(0));
    if WidthsAgree(q.graph) { FoundAsAsked(q.graph, data); }
    var second := CountBySecondKey(q, data, 0, 1, secondKey);
    return if second.Ok? then second else Failed(OutOfMemory);
  }

  //
  // Rows, bucket by bucket
  //

  lemma WholeRowsAppend(g: QueryGraph, a: seq<Tuple>, b: seq<Tuple>)
    ensures WholeRows(g, a + b) == WholeRows(g, a) + WholeRows(g, b)
  {}

  /** A bucket's rows added: they are all of them, or the limit is reached. */
  lemma RowsAdded(g: QueryGraph, order: seq<Tuple>, found: seq<Tuple>, rest: seq<Tuple>, part: seq<Row>, limit: nat)
    requires limit != 0 ==> |order| < limit
    requires part == WholeRows(g, found)[..Enumerating.Wanted(if limit == 0 then 0 else limit - |order|, |found|)]
    ensures limit == 0 || |order| + |part| < limit ==> WholeRows(g, order) + part == WholeRows(g, order + found)
    ensures limit != 0 && |order| + |part| >= limit ==>
      |order + found| >= limit && WholeRows(g, order) + part == WholeRows(g, (order + found) + rest)[..limit]
  {
    hide WholeRows;
    WholeRowsAppend(g, order, found);
    WholeRowsAppend(g, order + found, rest);
  }

  /** What the buckets from `n` on hold. */
  function Remaining<T>(b: seq<T>, at: nat -> T -> bool, n: nat, slices: nat): seq<T>
    requires n <= slices
    decreases slices - n
  {
    if n == slices then [] else Filter(b, at(n)) + Remaining(b, at, n + 1, slices)
  }

  lemma {:induction false} WithRemaining<T>(b: seq<T>, at: nat -> T -> bool, n: nat, slices: nat)
    requires n <= slices
    ensures Pieces(b, at, n) + Remaining(b, at, n, slices) == Pieces(b, at, slices)
    decreases slices - n
  {
    if n < slices {
      WithRemaining(b, at, n + 1, slices);
      assert Pieces(b, at, n) + (Filter(b, at(n)) + Remaining(b, at, n + 1, slices))
          == (Pieces(b, at, n) + Filter(b, at(n))) + Remaining(b, at, n + 1, slices);
    } else {
      assert Pieces(b, at, n) + [] == Pieces(b, at, n);
    }
  }

  /** The rows in the order they were found are those of the buckets so far; with the remaining ones
      they are those of all buckets. */
  lemma OneMorePiece<T>(b: seq<T>, at: nat -> T -> bool, n: nat, slices: nat, order: seq<T>, found: seq<T>)
    requires n < slices && Perm(order, Pieces(b, at, n)) && Perm(found, Filter(b, at(n)))
    ensures Perm(order + found, Pieces(b, at, n + 1))
    ensures Perm((order + found) + Remaining(b, at, n + 1, slices), Pieces(b, at, slices))
  {
    AppendCong(order, Pieces(b, at, n), found, Filter(b, at(n)));
    WithRemaining(b, at, n + 1, slices);
    AppendCong(order + found, Pieces(b, at, n + 1), Remaining(b, at, n + 1, slices), Remaining(b, at, n + 1, slices));
  }

  lemma AppendCong<T>(a: seq<T>, a': seq<T>, b: seq<T>, b': seq<T>)
    requires Perm(a, a') && Perm(b, b')
    ensures Perm(a + b, a' + b')
  {}

  /** The rows of the first `n` buckets, still fewer than the limit. */
  ghost predicate SoFar(g: QueryGraph, b: seq<Tuple>, at: nat -> Tuple -> bool, n: nat, order: seq<Tuple>, rows: seq<Row>, limit: nat) {
    Perm(order, Pieces(b, at, n)) && rows == WholeRows(g, order) && (limit != 0 ==> |rows| < limit)
  }

  /** What the limit wants of the rows of all buckets. */
  ghost predicate Done(g: QueryGraph, b: seq<Tuple>, at: nat -> Tuple -> bool, slices: nat, order: seq<Tuple>, rows: seq<Row>, limit: nat) {
    Perm(order, Pieces(b, at, slices)) && rows == WholeRows(g, order)[..Enumerating.Wanted(limit, |order|)]
  }

  lemma NoneTaken(g: QueryGraph, b: seq<Tuple>, at: nat -> Tuple -> bool, limit: nat)
    ensures SoFar(g, b, at, 0, [], [], limit)
  {}

  lemma NextBucket(g: QueryGraph, b: seq<Tuple>, at: nat -> Tuple -> bool, n: nat, slices: nat, order: seq<Tuple>, rows: seq<Row>,
                   found: seq<Tuple>, part: seq<Row>, limit: nat)
    requires SoFar(g, b, at, n, order, rows, limit) && n < slices && Perm(found, Filter(b, at(n)))
    requires part == WholeRows(g, found)[..Enumerating.Wanted(if limit == 0 then 0 else limit - |rows|, |found|)]
    ensures limit == 0 || |rows + part| < limit ==> SoFar(g, b, at, n + 1, order + found, rows + part, limit)
    ensures limit != 0 && |rows + part| >= limit ==>
      Done(g, b, at, slices, (order + found) + Remaining(b, at, n + 1, slices), rows + part, limit)
  {
    hide WholeRows, Pieces, Remaining;
    RowsAdded(g, order, found, Remaining(b, at, n + 1, slices), part, limit);
    OneMorePiece(b, at, n, slices, order, found);
  }

  lemma AllTaken(g: QueryGraph, b: seq<Tuple>, at: nat -> Tuple -> bool, slices: nat, order: seq<Tuple>, rows: seq<Row>, limit: nat)
    requires SoFar(g, b, at, slices, order, rows, limit)
    ensures Done(g, b, at, slices, order, rows, limit)
  {}

  /** Collects rows bucket by bucket, each bucket supplying what the limit still wants; the
      buckets after the one that reaches it are never built. */
  method CollectSlices(q: Query, data: Data, key: KeyColumns, slices: nat, limit: nat)
    returns (r: Outcome<seq<Row>>, ghost order: seq<Tuple>)
    requires Posed(q, data) && q.plan.complete && TypesGiven(q.graph) && Separates(q.graph, key) && slices > 0
    ensures r.Ok? ==> FitsPlan(q) && |key| == RelationCount(q.graph)
    ensures r.Ok? ==>
      Done(q.graph, RowsOf(q, data), Buckets(q.graph, key, ValueHash(q), slices), slices, order, r.value, limit)
    ensures r == Failed(KeyTooWide) ==> !FitsPlan(q)
    ensures r.Failed? ==> r.error in {KeyTooWide, OutOfMemory, Overflow}
  {
    hide FoundRows, JoinRows, ValidData, Planned, Covers, WidthsAgree, Separates, WholeRows, ValueHash, Buckets, Pieces, StepsFit, ValidGraph,
         Remaining, SoFar, Done;
    PosedTyped(q, data);
    SeparatesOk(q.graph, key);
    ghost var b, at := RowsOf(q, data), Buckets(q.graph, key, ValueHash(q), slices);
    var rows: seq<Row> := [];
    order := [];
    NoneTaken(q.graph, b, at, limit);
    for slice := 0 to slices
      invariant SoFar(q.graph, b, at, slice, order, rows, limit) && (limit != 0 ==> |rows| < limit) && (slice > 0 ==> FitsPlan(q))
    {
      var bucket := BucketOf(q, data, key, slice, slices);
      var part, found := ExecuteMaterialize(q, bucket, if limit == 0 then 0 else limit - |rows|);
      if part.Failed? { return Failed(part.error), order; }
      NextBucket(q.graph, b, at, slice, slices, order, rows, found, part.value, limit);
      rows, order := rows + part.value, order + found;
      if limit != 0 && |rows| >= limit { return Ok(rows), order + Remaining(b, at, slice + 1, slices); }
    }
    AllTaken(q.graph, b, at, slices, order, rows, limit);
    return Ok(rows), order;
  }

  /** Rows in the buckets of a class are rows found, and all of them where none is cut. */
  lemma CollectedAre(q: Query, data: Data, key: KeyColumns, slices: nat, order: seq<Tuple>)
    requires Separates(q.graph, key) && slices > 0
    requires Perm(order, Pieces(RowsOf(q, data), Buckets(q.graph, key, ValueHash(q), slices), slices))
    ensures multiset(order) <= multiset(RowsOf(q, data)) && (KeyWhole(q, data, key) ==> Perm(order, RowsOf(q, data)))
  {
    hide RowsOf, KeyedIn, OneValue, Pieces;
    var b, at := RowsOf(q, data), Buckets(q.graph, key, ValueHash(q), slices);
    BucketsApart(q.graph, key, ValueHash(q), slices, slices);
    PiecesAre(b, at, slices);
    FilterSublist(b, AnyOf(at, slices));
    if KeyWhole(q, data, key) { BucketsPartition(b, q.graph, key, ValueHash(q), slices); }
  }

  /** The first `limit` rows found in some order, from ever finer buckets if the whole join does not
      fit; buckets may lose rows that they cut. */
  method ExecuteMaterializeWithinMemory(q: Query, data: Data, limit: nat) returns (r: Outcome<seq<Row>>, ghost order: seq<Tuple>)
    requires Posed(q, data)
    ensures r == Failed(NoPlan) <==> !q.plan.complete
    ensures r == Failed(Malformed) <==> q.plan.complete && !TypesGiven(q.graph)
    ensures r.Ok? ==> FitsPlan(q) && ValidData(q.graph, data) && multiset(order) <= multiset(FoundRows(q.graph, data))
    ensures r.Ok? && Uncut(q, data) ==> Perm(order, FoundRows(q.graph, data))
    ensures r.Ok? && Uncut(q, data) && WidthsAgree(q.graph) ==> Perm(order, JoinRows(q.graph, data))
    ensures r.Ok? ==> r.value == WholeRows(q.graph, order)[..Enumerating.Wanted(limit, |order|)]
    ensures r.Ok? ==> FirstOf(r.value, order, TotalAttributes(q.graph), limit)
    ensures r == Failed(KeyTooWide) ==> !FitsPlan(q)
    ensures r.Failed? ==> r.error in {NoPlan, Malformed, KeyTooWide, OutOfMemory, Overflow}
  {
    hide FoundRows, JoinRows, Planned, Covers, WidthsAgree, ValidData, Separates, WholeRows, FirstOf, ChosenKey, StepsFit, KeyWhole,
         ValidGraph, Buckets;
    r, order := ExecuteMaterialize(q, data, limit);
    if r.Ok? || r.error != OutOfMemory { return; }
    var key := ChooseSliceColumns(q.graph, q.plan.steps);
    if key == [] { return Failed(OutOfMemory), order; }
    ChosenSeparates(q.graph, q.plan.steps);
    PosedTyped(q, data);
    if WidthsAgree(q.graph) { FoundAsAsked(q.graph, data); }
    for i := 0 to |SLICE_STEPS| {
      r, order := CollectSlices(q, data, key, SLICE_STEPS[i], limit);
      if r.Ok? {
        CollectedAre(q, data, key, SLICE_STEPS[i], order);
        FoundShown(q, data, r.value, order, limit);
        return;
      }
      if r.error != OutOfMemory { return; }
    }
    return Failed(OutOfMemory), order;
  }
}
