/** Grouping a join bucket by bucket and putting the buckets' groups together. */
module GroupSlices {
  import opened Bags
  import opened FlatJoins
  import opened Filters
  import opened Checked
  import opened Outcomes
  import opened Graphs
  import opened Plans
  import opened Answering
  import opened Executing
  import opened Sums
  import opened Folds
  import opened Groups
  import opened GroupTables
  import opened Building
  import opened Slicing
  import opened SliceKeys
  import opened SliceMethods

  //
  // Ranges of join rows
  //

  ghost predicate AllInt64(b: seq<Tuple>) {
    forall t, a :: t in b && a in t ==> Int64(t[a])
  }

  lemma FoundRange(q: Query, data: Data)
    ensures AllInt64(RowsOf(q, data))
  {
    hide FoundRows, TypesIn;
    if TypesGiven(q.graph) && ValidData(q.graph, data) { RowsRanged(q.graph, data); }
  }

  lemma RangeOfPart(b: seq<Tuple>, f: Tuple -> bool)
    requires AllInt64(b)
    ensures AllInt64(Filter(b, f))
  {
    FilterMembers(b, f);
  }

  //
  // Merging
  //

  /** The entry of one group is that of the bag. */
  ghost predicate GroupAt(groups: GroupTable, k: seq<int>, b: seq<Tuple>, aggs: seq<Aggregate>, dirty: bool) {
    (k in groups <==> b != []) && (k in groups ==> RowIs(groups[k], b, aggs, dirty))
  }

  /** Two buckets' values of an aggregate, put together. */
  function MergedValue(a: Aggregate, x: int, y: int): Outcome<int> {
    if IsExtreme(a) then Ok(Better(x, y, WantsMax(a))) else PlusInt(x, y)
  }

  lemma MergedValueIs(b: seq<Tuple>, c: seq<Tuple>, a: Aggregate, dirty: bool)
    requires AllInt64(b) && AllInt64(c) && b != [] && c != []
    ensures var v := MergedValue(a, ValueOf(b, a, dirty), ValueOf(c, a, dirty));
      v.Ok? ==> v.value == ValueOf(b + c, a, dirty)
  {
    SumAppend(b, c, a.attr);
    ExtremeAppend(b, c, a.attr, WantsMax(a));
    ExtremeInRange(b, a.attr, WantsMax(a));
    ExtremeInRange(c, a.attr, WantsMax(a));
  }

  /** What several buckets' groupings have been put together into. */
  class GroupCounts {
    var ok: bool
    var groups: GroupTable

    constructor ()
      ensures !ok
    {
      ok, groups := false, map[];
    }

    /** The table holds the groups of `b`; before the first bucket there are none. */
    ghost predicate Holds(b: seq<Tuple>, keys: seq<Attr>, aggs: seq<Aggregate>, dirty: bool)
      reads this
    {
      if ok then GroupsAre(groups, b, keys, aggs, dirty) else b == []
    }

    /** Puts one group of another bucket beside these. */
    method MergeGroup(from: GroupTable, k: seq<int>, aggs: seq<Aggregate>, ghost done: set<seq<int>>, ghost a: seq<Tuple>,
                      ghost b: seq<Tuple>, ghost keys: seq<Attr>, ghost dirty: bool) returns (r: Outcome<()>)
      requires Merging(groups, done, a, b, keys, aggs, dirty) && GroupsAre(from, b, keys, aggs, dirty) && k !in done && k in from
      requires AllInt64(a) && AllInt64(b)
      modifies this`groups
      ensures r.Ok? ==> Merging(groups, done + {k}, a, b, keys, aggs, dirty)
    {
      hide GroupsAre, Merging, AllInt64, Matching, RowIs, GroupAt;
      MergingAt(groups, done, from, a, b, keys, aggs, dirty, k);
      var row :- MergedRow(groups, from, k, aggs, Matching(a, keys, k), Matching(b, keys, k), dirty);
      MergingStep(groups, done, a, b, keys, aggs, dirty, k, row);
      groups := groups[k := row];
      return Ok(());
    }

    /** Puts another bucket's groups beside these. A group's rows may be spread over buckets. */
    method MergeGroups(from: GroupTable, aggs: seq<Aggregate>, ghost a: seq<Tuple>, ghost b: seq<Tuple>, ghost keys: seq<Attr>, ghost dirty: bool)
      returns (r: Outcome<()>)
      requires Holds(a, keys, aggs, dirty) && GroupsAre(from, b, keys, aggs, dirty) && AllInt64(a) && AllInt64(b)
      modifies this
      ensures r.Ok? ==> ok && Holds(a + b, keys, aggs, dirty)
    {
      hide GroupsAre, Merging, AllInt64, Matching, RowIs, GroupAt;
      if !ok {
        ok, groups := true, from;
        assert a + b == b;
        return Ok(());
      }
      r := MergeAll(from, aggs, a, b, keys, dirty);
    }

    /** Group by group, in any order. */
    method MergeAll(from: GroupTable, aggs: seq<Aggregate>, ghost a: seq<Tuple>, ghost b: seq<Tuple>, ghost keys: seq<Attr>, ghost dirty: bool)
      returns (r: Outcome<()>)
      requires GroupsAre(groups, a, keys, aggs, dirty) && GroupsAre(from, b, keys, aggs, dirty) && AllInt64(a) && AllInt64(b)
      modifies this`groups
      ensures r.Ok? ==> GroupsAre(groups, a + b, keys, aggs, dirty)
    {
      hide GroupsAre, Merging, AllInt64, Matching, RowIs, GroupAt;
      var left := from.Keys;
      MergingStart(groups, a, b, keys, aggs, dirty);
      Gone(left, left);
      while left != {}
        invariant left <= from.Keys && Merging(groups, from.Keys - left, a, b, keys, aggs, dirty)
        decreases |left|
      {
        var k :| k in left;
        var _ :- MergeGroup(from, k, aggs, from.Keys - left, a, b, keys, dirty);
        OneGone(from.Keys, left, k);
        left := left - {k};
      }
      MergingEnd(groups, from, from.Keys - left, a, b, keys, aggs, dirty);
      return Ok(());
    }
  }

  lemma Gone<T>(all: set<T>, left: set<T>)
    requires left == all
    ensures all - left == {}
  {}

  lemma OneGone<T>(all: set<T>, left: set<T>, k: T)
    requires k in left && left <= all
    ensures all - (left - {k}) == (all - left) + {k}
  {}

  /** A group both have is merged, a new one taken over. */
  method MergedRow(into: GroupTable, from: GroupTable, k: seq<int>, aggs: seq<Aggregate>, ghost b: seq<Tuple>, ghost c: seq<Tuple>,
                   ghost dirty: bool) returns (r: Outcome<GroupRow>)
    requires GroupAt(into, k, b, aggs, dirty) && GroupAt(from, k, c, aggs, dirty) && k in from && AllInt64(b) && AllInt64(c)
    ensures c != [] && (r.Ok? ==> RowIs(r.value, b + c, aggs, dirty))
  {
    hide RowIs;
    if k in into {
      r := MergeRow(into[k], from[k], aggs, b, c, dirty);
    } else {
      assert b + c == c;
      r := Ok(from[k]);
    }
  }

  /** Midway: the groups done are those of both bags, the others still those of the first. */
  ghost predicate Merging(groups: GroupTable, done: set<seq<int>>, a: seq<Tuple>, b: seq<Tuple>, keys: seq<Attr>, aggs: seq<Aggregate>,
                          dirty: bool) {
    forall k :: GroupAt(groups, k, if k in done then Matching(a + b, keys, k) else Matching(a, keys, k), aggs, dirty)
  }

  lemma MergingStart(groups: GroupTable, a: seq<Tuple>, b: seq<Tuple>, keys: seq<Attr>, aggs: seq<Aggregate>, dirty: bool)
    requires GroupsAre(groups, a, keys, aggs, dirty)
    ensures Merging(groups, {}, a, b, keys, aggs, dirty)
  {}

  lemma MergingAt(groups: GroupTable, done: set<seq<int>>, from: GroupTable, a: seq<Tuple>, b: seq<Tuple>, keys: seq<Attr>,
                  aggs: seq<Aggregate>, dirty: bool, k: seq<int>)
    requires Merging(groups, done, a, b, keys, aggs, dirty) && GroupsAre(from, b, keys, aggs, dirty) && k !in done && k in from
    requires AllInt64(a) && AllInt64(b)
    ensures AllInt64(Matching(a, keys, k)) && AllInt64(Matching(b, keys, k))
    ensures GroupAt(groups, k, Matching(a, keys, k), aggs, dirty) && GroupAt(from, k, Matching(b, keys, k), aggs, dirty)
  {
    hide RowIs, Matching;
    MatchingRange(a, keys, k);
    MatchingRange(b, keys, k);
    assert GroupAt(groups, k, if k in done then Matching(a + b, keys, k) else Matching(a, keys, k), aggs, dirty);
  }

  lemma MergingStep(groups: GroupTable, done: set<seq<int>>, a: seq<Tuple>, b: seq<Tuple>, keys: seq<Attr>, aggs: seq<Aggregate>,
                    dirty: bool, k: seq<int>, row: GroupRow)
    requires Merging(groups, done, a, b, keys, aggs, dirty) && Matching(b, keys, k) != []
    requires RowIs(row, Matching(a, keys, k) + Matching(b, keys, k), aggs, dirty)
    ensures Merging(groups[k := row], done + {k}, a, b, keys, aggs, dirty)
  {
    hide RowIs, Matching;
    MatchingAppend(a, b, keys, k);
    forall q
      ensures GroupAt(groups[k := row], q, if q in done + {k} then Matching(a + b, keys, q) else Matching(a, keys, q), aggs, dirty)
    {
      assert GroupAt(groups, q, if q in done then Matching(a + b, keys, q) else Matching(a, keys, q), aggs, dirty);
    }
  }

  lemma MergingEnd(groups: GroupTable, from: GroupTable, done: set<seq<int>>, a: seq<Tuple>, b: seq<Tuple>, keys: seq<Attr>,
                   aggs: seq<Aggregate>, dirty: bool)
    requires Merging(groups, done, a, b, keys, aggs, dirty) && GroupsAre(from, b, keys, aggs, dirty) && done == from.Keys
    ensures GroupsAre(groups, a + b, keys, aggs, dirty)
  {
    hide RowIs, Matching;
    forall k ensures GroupAt(groups, k, Matching(a + b, keys, k), aggs, dirty) {
      assert GroupAt(groups, k, if k in done then Matching(a + b, keys, k) else Matching(a, keys, k), aggs, dirty);
      MatchingAppend(a, b, keys, k);
      if k !in done { assert Matching(a, keys, k) + [] == Matching(a, keys, k); }
    }
  }

  lemma MatchingRange(b: seq<Tuple>, keys: seq<Attr>, k: seq<int>)
    requires AllInt64(b)
    ensures AllInt64(Matching(b, keys, k))
  {
    MatchingMembers(b, keys, k);
  }

  /** One group of two buckets: the counts and sums add, the better extreme stands. */
  method MergeRow(x: GroupRow, y: GroupRow, aggs: seq<Aggregate>, ghost b: seq<Tuple>, ghost c: seq<Tuple>, ghost dirty: bool)
    returns (r: Outcome<GroupRow>)
    requires RowIs(x, b, aggs, dirty) && RowIs(y, c, aggs, dirty) && AllInt64(b) && AllInt64(c) && b != [] && c != []
    ensures r.Ok? ==> RowIs(r.value, b + c, aggs, dirty)
  {
    hide ValueOf, MergedValue;
    var values: seq<int> := [];
    for i := 0 to |aggs|
      invariant |values| == i && forall j :: 0 <= j < i ==> values[j] == ValueOf(b + c, aggs[j], dirty)
    {
      MergedValueIs(b, c, aggs[i], dirty);
      var v :- MergedValue(aggs[i], x.values[i], y.values[i]);
      values := values + [v];
    }
    var count :- Plus(x.count, y.count);
    return Ok(GroupRow(values, count));
  }

  //
  // Bucket by bucket
  //

  /** Groups of a part of the rows found answer the request for that part. */
  lemma PartAnswered(groups: GroupTable, q: Query, data: Data, f: Tuple -> bool, keys: seq<GroupKey>, aggs: seq<GroupAggregate>)
    requires Groupable(q, data, keys, aggs) && GroupedAs(groups, q, Filter(RowsOf(q, data), f), keys, aggs)
    ensures Answered(groups, q.graph, Filter(RowsOf(q, data), f), SiteKeys(q, keys), aggs, Parted(q, keys))
  {
    hide FoundRows, GroupedAs, GroupedByColumns, Answered, SiteKeys, Parted, AskedColumns;
    FilterMembers(RowsOf(q, data), f);
    GroupingAnswered(groups, q, data, Filter(RowsOf(q, data), f), keys, aggs);
  }

  /** Groups one bucket of the rows found. */
  method ExecuteGroupBySlice(q: Query, data: Data, keys: seq<GroupKey>, aggs: seq<GroupAggregate>, slice: nat, slices: nat)
    returns (r: Outcome<GroupTable>)
    requires Posed(q, data)
    ensures r == Failed(NoSliceKey) <==> slices > 1 && ChosenKey(q.graph, q.plan.steps) == []
    ensures r == Failed(NoPlan) <==> !NoKeyFor(q, slices) && !q.plan.complete
    ensures r == Failed(BadRequest) <==> !NoKeyFor(q, slices) && q.plan.complete && !RequestOk(q.graph, keys, aggs)
    ensures r == Failed(Malformed) <==>
      !NoKeyFor(q, slices) && q.plan.complete && RequestOk(q.graph, keys, aggs) && !TypesGiven(q.graph)
    ensures r.Ok? ==> Groupable(q, data, keys, aggs) && GroupedAs(r.value, q, SliceRows(q, data, slice, slices), keys, aggs)
    ensures r.Ok? && WidthsAgree(q.graph) ==> GroupedByColumns(r.value, q, SliceRows(q, data, slice, slices), keys, aggs)
    ensures r.Ok? ==> Answered(r.value, q.graph, SliceRows(q, data, slice, slices), SiteKeys(q, keys), aggs, Parted(q, keys))
    ensures r == Failed(KeyTooWide) ==> !FitsPlan(q)
    ensures r.Failed? ==> r.error in {NoSliceKey, NoPlan, BadRequest, Malformed, KeyTooWide, OutOfMemory, Overflow}
  {
    hide FoundRows, JoinRows, Planned, Covers, WidthsAgree, ValidData, GroupedAs, GroupedByColumns, Answered, ChosenKey, Buckets, StepsFit, Separates,
         RequestOk, ValidGraph;
    if slices <= 1 {
      r := GroupBy(q, data, keys, aggs);
      AllPass(RowsOf(q, data), t => true);
      if TypesGiven(q.graph) { AskedIfAgreed(q, data); }
      if r.Ok? { PartAnswered(r.value, q, data, SliceTests(q, slices)(slice), keys, aggs); }
      return;
    }
    var key := ChooseSliceColumns(q.graph, q.plan.steps);
    if key == [] { return Failed(NoSliceKey); }
    if !q.plan.complete || !TypesGiven(q.graph) {
      r := GroupBy(q, data, keys, aggs);
      return;
    }
    ChosenSeparates(q.graph, q.plan.steps);
    SeparatesOk(q.graph, key);
    PosedTyped(q, data);
    var bucket := BucketOf(q, data, key, slice, slices);
    AskedIfAgreed(q, bucket);
    r := GroupBy(q, bucket, keys, aggs);
    if r.Ok? { PartAnswered(r.value, q, data, SliceTests(q, slices)(slice), keys, aggs); }
  }

  /** The pieces in some order. */
  function InOrder<T>(b: seq<T>, at: nat -> T -> bool, order: seq<nat>): seq<T> {
    if order == [] then [] else InOrder(b, at, order[..|order| - 1]) + Filter(b, at(order[|order| - 1]))
  }

  function UpToSeq(n: nat): (s: seq<nat>)
    ensures |s| == n && forall i :: 0 <= i < n ==> s[i] == i
  {
    seq(n, i requires 0 <= i < n => i)
  }

  function PieceAt<T>(b: seq<T>, at: nat -> T -> bool): nat -> seq<T> {
    (n: nat) => Filter(b, at(n))
  }

  lemma {:induction false} InOrderIsLoop<T>(b: seq<T>, at: nat -> T -> bool, order: seq<nat>)
    ensures InOrder(b, at, order) == FlatMap(order, PieceAt(b, at))
    decreases |order|
  {
    if order != [] {
      var n := |order| - 1;
      InOrderIsLoop(b, at, order[..n]);
      assert order == order[..n] + [order[n]];
      FlatMapAppend(order[..n], [order[n]], PieceAt(b, at));
      FlatMapSingle(order[n], PieceAt(b, at));
    }
  }

  lemma {:induction false} InOrderUpTo<T>(b: seq<T>, at: nat -> T -> bool, n: nat)
    ensures InOrder(b, at, UpToSeq(n)) == Pieces(b, at, n)
  {
    hide Filter;
    if n > 0 {
      var up := UpToSeq(n);
      InOrderUpTo(b, at, n - 1);
      assert up[..|up| - 1] == UpToSeq(n - 1) && up[|up| - 1] == n - 1;
    }
  }

  /** Every piece once, in any order, is the whole. */
  lemma AnyOrder<T>(b: seq<T>, at: nat -> T -> bool, n: nat, order: seq<nat>)
    requires Perm(order, UpToSeq(n))
    ensures Perm(InOrder(b, at, order), Pieces(b, at, n))
  {
    InOrderIsLoop(b, at, order);
    InOrderIsLoop(b, at, UpToSeq(n));
    FlatMapPerm(order, UpToSeq(n), PieceAt(b, at));
    InOrderUpTo(b, at, n);
  }

  lemma InOrderStep(b: seq<Tuple>, at: nat -> Tuple -> bool, order: seq<nat>, i: nat)
    requires i < |order| && AllInt64(b)
    ensures InOrder(b, at, order[..i + 1]) == InOrder(b, at, order[..i]) + Filter(b, at(order[i]))
    ensures AllInt64(InOrder(b, at, order[..i])) && AllInt64(Filter(b, at(order[i])))
  {
    assert order[..i + 1][..i] == order[..i];
    InOrderRange(b, at, order[..i]);
    RangeOfPart(b, at(order[i]));
  }

  lemma {:induction false} InOrderRange(b: seq<Tuple>, at: nat -> Tuple -> bool, order: seq<nat>)
    requires AllInt64(b)
    ensures AllInt64(InOrder(b, at, order))
    decreases |order|
  {
    if order != [] {
      InOrderRange(b, at, order[..|order| - 1]);
      RangeOfPart(b, at(order[|order| - 1]));
    }
  }

  /** What has been put together so far are the groups of these rows; nothing, if nothing has been. */
  ghost predicate Gathers(total: GroupCounts, q: Query, data: Data, b: seq<Tuple>, keys: seq<GroupKey>, aggs: seq<GroupAggregate>)
    reads total
  {
    if total.ok then Groupable(q, data, keys, aggs) && GroupedAs(total.groups, q, b, keys, aggs) else b == []
  }

  /** One more bucket. */
  method MergeBucket(total: GroupCounts, q: Query, ghost data: Data, part: GroupTable, keys: seq<GroupKey>, aggs: seq<GroupAggregate>,
                     ghost a: seq<Tuple>, ghost b: seq<Tuple>) returns (r: Outcome<()>)
    requires Gathers(total, q, data, a, keys, aggs) && Groupable(q, data, keys, aggs) && GroupedAs(part, q, b, keys, aggs)
    requires AllInt64(a) && AllInt64(b)
    modifies total
    ensures r.Ok? ==> total.ok && Gathers(total, q, data, a + b, keys, aggs)
    ensures r.Failed? ==> r.error == Overflow
  {
    hide AllInt64, GroupsAre, SiteKeys, Parted;
    var merged := total.MergeGroups(part, AggregatesFor(q.graph, aggs), a, b, SiteKeys(q, keys), Parted(q, keys));
    r := if merged.Ok? then merged else Failed(Overflow);
  }

  /** Groups every bucket and merges them in the order they finish: whatever that order is, the
      result is the grouping of the rows in some bucket, which are all rows found where none is cut. */
  method GroupAllSlices(q: Query, data: Data, keys: seq<GroupKey>, aggs: seq<GroupAggregate>, slices: nat, order: seq<nat>)
    returns (r: Outcome<GroupTable>)
    requires Posed(q, data) && slices > 1 && Perm(order, UpToSeq(slices))
    ensures r == Failed(NoSliceKey) <==> slices > 1 && ChosenKey(q.graph, q.plan.steps) == []
    ensures r == Failed(NoPlan) <==> !NoKeyFor(q, slices) && !q.plan.complete
    ensures r == Failed(BadRequest) <==> !NoKeyFor(q, slices) && q.plan.complete && !RequestOk(q.graph, keys, aggs)
    ensures r == Failed(Malformed) <==>
      !NoKeyFor(q, slices) && q.plan.complete && RequestOk(q.graph, keys, aggs) && !TypesGiven(q.graph)
    ensures r.Ok? ==> Groupable(q, data, keys, aggs) && GroupedAs(r.value, q, SlicedRows(q, data, slices), keys, aggs)
    ensures r.Ok? ==> Answered(r.value, q.graph, SlicedRows(q, data, slices), SiteKeys(q, keys), aggs, Parted(q, keys))
    ensures r.Ok? && Uncut(q, data) ==> GroupedAs(r.value, q, FoundRows(q.graph, data), keys, aggs)
    ensures r.Ok? && Uncut(q, data) && WidthsAgree(q.graph) ==> GroupedByColumns(r.value, q, JoinRows(q.graph, data), keys, aggs)
    ensures r == Failed(KeyTooWide) ==> !FitsPlan(q)
    ensures r.Failed? ==> r.error in {NoSliceKey, NoPlan, BadRequest, Malformed, KeyTooWide, OutOfMemory, Overflow}
  {
    hide FoundRows, JoinRows, Planned, Covers, WidthsAgree, ValidData, GroupedAs, GroupedByColumns, Answered,
         ChosenKey, SliceTests, StepsFit, RequestOk,
         InOrder, AllInt64, Gathers, Groupable, Uncut, SlicedRows, ValidGraph;
    var total := new GroupCounts();
    ghost var b, at := RowsOf(q, data), SliceTests(q, slices);
    FoundRange(q, data);
    PermLength(order, UpToSeq(slices));
    NothingGathered(total, q, data, b, at, keys, aggs);
    for i := 0 to |order|
      invariant fresh(total) && Gathers(total, q, data, InOrder(b, at, order[..i]), keys, aggs)
      invariant i > 0 ==> total.ok && Groupable(q, data, keys, aggs) && !NoKeyFor(q, slices) && q.plan.complete
      invariant i > 0 ==> RequestOk(q.graph, keys, aggs) && TypesGiven(q.graph)
    {
      var part :- ExecuteGroupBySlice(q, data, keys, aggs, order[i], slices);
      InOrderStep(b, at, order, i);
      var _ :- MergeBucket(total, q, data, part, keys, aggs, InOrder(b, at, order[..i]), Filter(b, at(order[i])));
      RequestWas(q, data, keys, aggs);
    }
    assert order[..|order|] == order;
    AllGathered(total, q, data, slices, order, keys, aggs);
    SlicedAnswered(total.groups, q, data, slices, keys, aggs);
    return Ok(total.groups);
  }

  lemma SlicedAnswered(groups: GroupTable, q: Query, data: Data, slices: nat, keys: seq<GroupKey>, aggs: seq<GroupAggregate>)
    requires slices > 1 && Groupable(q, data, keys, aggs) && GroupedAs(groups, q, SlicedRows(q, data, slices), keys, aggs)
    ensures Answered(groups, q.graph, SlicedRows(q, data, slices), SiteKeys(q, keys), aggs, Parted(q, keys))
  {
    hide RowsOf, SliceTests, GroupedAs, Answered, SiteKeys, Parted;
    PartAnswered(groups, q, data, AnyOf(SliceTests(q, slices), slices), keys, aggs);
  }

  lemma NothingGathered(total: GroupCounts, q: Query, data: Data, b: seq<Tuple>, at: nat -> Tuple -> bool, keys: seq<GroupKey>,
                        aggs: seq<GroupAggregate>)
    requires !total.ok
    ensures Gathers(total, q, data, InOrder(b, at, []), keys, aggs)
  {}

  lemma RequestWas(q: Query, data: Data, keys: seq<GroupKey>, aggs: seq<GroupAggregate>)
    requires Groupable(q, data, keys, aggs)
    ensures RequestOk(q.graph, keys, aggs) && TypesGiven(q.graph) && ValidData(q.graph, data)
  {}

  /** With every bucket merged, the groups are those of the rows in some bucket. */
  lemma AllGathered(total: GroupCounts, q: Query, data: Data, slices: nat, order: seq<nat>, keys: seq<GroupKey>, aggs: seq<GroupAggregate>)
    requires Posed(q, data) && q.plan.complete && slices > 1 && Perm(order, UpToSeq(slices)) && !NoKeyFor(q, slices)
    requires total.ok && Gathers(total, q, data, InOrder(RowsOf(q, data), SliceTests(q, slices), order), keys, aggs)
    ensures Groupable(q, data, keys, aggs) && GroupedAs(total.groups, q, SlicedRows(q, data, slices), keys, aggs)
    ensures Uncut(q, data) ==> GroupedAs(total.groups, q, FoundRows(q.graph, data), keys, aggs)
    ensures Uncut(q, data) && WidthsAgree(q.graph) ==> GroupedByColumns(total.groups, q, JoinRows(q.graph, data), keys, aggs)
  {
    hide FoundRows, JoinRows, Planned, Covers, WidthsAgree, ValidData, GroupsAre, GroupedByColumns, SliceTests, InOrder, AllInt64, Uncut,
         SiteKeys, Parted, ValidGraph, ChosenKey, SitesAgree;
    var b, at := RowsOf(q, data), SliceTests(q, slices);
    FoundRange(q, data);
    InOrderRange(b, at, order);
    AnyOrder(b, at, slices, order);
    TestsApart(q, slices, slices);
    PiecesAre(b, at, slices);
    GroupsAnyOrder(total.groups, InOrder(b, at, order), SlicedRows(q, data, slices), SiteKeys(q, keys), AggregatesFor(q.graph, aggs),
                   Parted(q, keys));
    SlicesTogether(q, data, slices);
    AskedIfAgreed(q, data);
    if Uncut(q, data) && WidthsAgree(q.graph) {
      RowsAgree(q, data, keys);
      ByColumns(total.groups, q, JoinRows(q.graph, data), keys, aggs);
    }
  }

  lemma GroupsAnyOrder(groups: GroupTable, a: seq<Tuple>, b: seq<Tuple>, keys: seq<Attr>, aggs: seq<Aggregate>, dirty: bool)
    requires GroupsAre(groups, a, keys, aggs, dirty) && Perm(a, b) && AllInt64(a)
    ensures GroupsAre(groups, b, keys, aggs, dirty)
  {
    assert InRanges(a, aggs) by {
      forall i | 0 <= i < |aggs| ensures InRange64(a, aggs[i].attr) {}
    }
    GroupsPerm(groups, a, b, keys, aggs, dirty);
  }
}
