/** Reading a relation: identical rows may collapse into one record that counts them. */
module Scanning {
  import opened Bags
  import opened FReps
  import opened FTrees
  import opened Flattening
  import opened Reordering
  import opened Restructuring
  import opened Transforming
  import opened Outcomes
  import opened Ranges
  import opened Graphs
  import opened Probing

  /** A group: the record standing for it, its hash, and the row it was made from. */
  datatype Group = Group(record: nat, hash: nat, row: nat)

  type Slots = seq<Option<Group>>

  const SAMPLE_ROWS: nat := 65536
  const GROUP_BELOW_PERCENT: nat := 90
  const SLOT_BYTES: nat := 24
  const MAX_INITIAL_SLOTS: nat := 1024

  function HomesOf(slots: Slots): (homes: seq<int>)
    ensures |homes| == |slots|
  {
    seq(|slots|, i requires 0 <= i < |slots| => if slots[i].Some? then slots[i].value.hash % |slots| else -1)
  }

  /** A table that can be probed, holding `groups` groups of the rows read so far under their
      true hashes. */
  ghost predicate Table(slots: Slots, groups: nat, rows: seq<Row>, hash: Row -> nat) {
    && Probed(HomesOf(slots)) && Occupied(HomesOf(slots)) == groups < |slots|
    && forall i :: 0 <= i < |slots| && slots[i].Some? ==>
      slots[i].value.row < |rows| && slots[i].value.hash == hash(rows[slots[i].value.row])
  }

  /** The walk for a row has come this far without meeting its group or a free slot. */
  ghost predicate Walked(slots: Slots, rows: seq<Row>, hash: nat, row: Row, k: nat, at: nat) {
    && k < |slots| && at == Walk(|slots|, hash % |slots|, k)
    && forall j :: 0 <= j < k ==> Passed(slots[Walk(|slots|, hash % |slots|, j)], rows, row)
  }

  ghost predicate Passed(slot: Option<Group>, rows: seq<Row>, row: Row) {
    slot.Some? && slot.value.row < |rows| && rows[slot.value.row] != row
  }

  lemma WalkedTaken(slots: Slots, rows: seq<Row>, hash: nat, row: Row, k: nat, at: nat)
    requires Walked(slots, rows, hash, row, k, at)
    ensures Taken(HomesOf(slots), hash % |slots|, k)
  {
    forall j | 0 <= j < k ensures HomesOf(slots)[Walk(|slots|, hash % |slots|, j)] >= 0 {
      assert Passed(slots[Walk(|slots|, hash % |slots|, j)], rows, row);
    }
  }

  lemma WalkedOn(slots: Slots, groups: nat, rows: seq<Row>, hash: Row -> nat, row: Row, k: nat, at: nat)
    requires Table(slots, groups, rows, hash) && Walked(slots, rows, hash(row), row, k, at) && Passed(slots[at], rows, row)
    ensures k + 1 < |slots| && Walked(slots, rows, hash(row), row, k + 1, Next(|slots|, at))
  {
    var home := hash(row) % |slots|;
    WalkedTaken(slots, rows, hash(row), row, k, at);
    assert Taken(HomesOf(slots), home, k + 1);
    WalkEnds(HomesOf(slots), home, k + 1);
    NextStep(|slots|, home, k);
  }

  /** A walk that ends at a free slot passes every group of its row. */
  lemma NoGroup(slots: Slots, groups: nat, rows: seq<Row>, hash: Row -> nat, row: Row, k: nat, at: nat)
    requires Table(slots, groups, rows, hash) && Walked(slots, rows, hash(row), row, k, at) && slots[at].None?
    ensures forall i :: 0 <= i < |slots| && slots[i].Some? ==> rows[slots[i].value.row] != row
  {
    var home := hash(row) % |slots|;
    forall i | 0 <= i < |slots| && slots[i].Some? ensures rows[slots[i].value.row] != row {
      var d := Dist(|slots|, home, i);
      assert Walk(|slots|, home, d) == i;
      if rows[slots[i].value.row] == row { FoundBefore(HomesOf(slots), home, k, i); }
    }
  }

  lemma PutGroup(slots: Slots, groups: nat, rows: seq<Row>, hash: Row -> nat, g: Group, k: nat, at: nat)
    requires Table(slots, groups, rows, hash) && groups + 1 < |slots|
    requires g.row < |rows| && g.hash == hash(rows[g.row])
    requires k < |slots| && at == Walk(|slots|, g.hash % |slots|, k) && Taken(HomesOf(slots), g.hash % |slots|, k)
    requires slots[at].None?
    ensures Table(slots[at := Some(g)], groups + 1, rows, hash)
  {
    PutProbed(HomesOf(slots), g.hash % |slots|, k);
    OccupiedPut(HomesOf(slots), at, g.hash % |slots|);
    assert HomesOf(slots[at := Some(g)]) == HomesOf(slots)[at := g.hash % |slots|];
  }

  lemma EmptyTable(n: nat, rows: seq<Row>, hash: Row -> nat)
    requires n > 0
    ensures Table(seq(n, i => None), 0, rows, hash)
  {
    EmptyProbed(HomesOf(seq(n, i => None)));
    OccupiedNone(HomesOf(seq(n, i => None)));
  }

  /** The groups of a table. */
  function GroupsOf(slots: Slots): set<Group> {
    set i | 0 <= i < |slots| && slots[i].Some? :: slots[i].value
  }

  lemma GroupsPut(slots: Slots, at: nat, g: Group)
    requires at < |slots| && slots[at].None?
    ensures GroupsOf(slots[at := Some(g)]) == GroupsOf(slots) + {g}
  {
    var put := slots[at := Some(g)];
    forall x ensures x in GroupsOf(put) <==> x in GroupsOf(slots) || x == g {
      if x in GroupsOf(slots) {
        var i :| 0 <= i < |slots| && slots[i].Some? && slots[i].value == x;
        assert put[i] == Some(x);
      }
      if x == g { assert put[at].value == g; }
    }
  }

  lemma GroupsSnoc(slots: Slots, i: nat)
    requires i < |slots|
    ensures GroupsOf(slots[..i + 1]) == GroupsOf(slots[..i]) + if slots[i].Some? then {slots[i].value} else {}
  {
    var more: set<Group> := if slots[i].Some? then {slots[i].value} else {};
    forall x ensures x in GroupsOf(slots[..i + 1]) <==> x in GroupsOf(slots[..i]) || x in more {
      if x in GroupsOf(slots[..i]) {
        var j :| 0 <= j < i && slots[..i][j].Some? && slots[..i][j].value == x;
        assert slots[..i + 1][j] == Some(x);
      }
      if x in more { assert slots[..i + 1][i] == Some(x); }
    }
  }

  /** Nearly every row of a full sample opened a group of its own. */
  ghost predicate MostlyDistinct(seen: nat, groups: nat) {
    seen == 65536 && groups * 100 > seen * 90
  }

  /** A table of that many slots is within the budget; none is no bound. */
  ghost predicate Affords(budget: nat, slots: nat) {
    budget == 0 || slots * 24 <= budget
  }

  /** The table over the rows seen so far. Grouping may end at any row; `active` says whether it
      has. */
  class RowGrouper {
    const rows: seq<Row>
    const hash: Row -> nat
    const budget: nat
    var slots: Slots
    var probe: nat
    ghost var steps: nat
    var groups: nat
    var seen: nat
    var active: bool

    ghost predicate Valid()
      reads this
    {
      active ==> Table(slots, groups, rows, hash) && groups * 10 <= |slots| * 7 && 16 <= |slots|
    }

    constructor (rows: seq<Row>, hash: Row -> nat, expected: nat, budget: nat)
      ensures Valid() && active && GroupsOf(slots) == {}
      ensures this.rows == rows && this.hash == hash && this.budget == budget
    {
      this.rows, this.hash, this.budget := rows, hash, budget;
      var capacity := 16;
      while capacity < MAX_INITIAL_SLOTS && capacity < expected * 2
        invariant capacity >= 16
        decreases MAX_INITIAL_SLOTS - capacity
      {
        capacity := capacity * 2;
      }
      slots, probe, steps, groups, seen, active := seq(capacity, i => None), 0, 0, 0, 0, true;
      EmptyTable(capacity, rows, hash);
    }

    /** The record already standing for an identical row; otherwise `probe` is left at the free
        slot that ended the walk. */
    method Find(row: nat) returns (r: Option<nat>)
      requires Valid() && active && row < |rows|
      modifies this`probe, this`steps
      ensures Valid()
      ensures r.Some? ==> exists g :: g in GroupsOf(slots) && g.record == r.value && g.row < |rows| && rows[g.row] == rows[row]
      ensures r.None? ==> Free(row) && forall g :: g in GroupsOf(slots) ==> rows[g.row] != rows[row]
    {
      hide Table, Walked, Passed;
      TableFacts(slots, groups, rows, hash);
      probe, steps := hash(rows[row]) % |slots|, 0;
      WalkedStart(slots, rows, hash(rows[row]), rows[row]);
      while slots[probe].Some?
        invariant probe < |slots| && Walked(slots, rows, hash(rows[row]), rows[row], steps, probe)
        decreases |slots| - steps
      {
        var group := slots[probe].value;
        TableSlot(slots, groups, rows, hash, probe);
        if group.hash == hash(rows[row]) && rows[group.row] == rows[row] {
          assert group in GroupsOf(slots);
          return Some(group.record);
        }
        IsPassed(slots[probe], rows, rows[row]);
        WalkedOn(slots, groups, rows, hash, rows[row], steps, probe);
        probe, steps := Next(|slots|, probe), steps + 1;
      }
      NoGroup(slots, groups, rows, hash, rows[row], steps, probe);
      WalkedTaken(slots, rows, hash(rows[row]), rows[row], steps, probe);
      WalkedAt(slots, rows, hash(rows[row]), rows[row], steps, probe);
      return None;
    }

    /** `probe` is the free slot at the end of the walk for `row`. */
    ghost predicate Free(row: nat)
      requires row < |rows|
      reads this
    {
      && steps < |slots| && probe == Walk(|slots|, hash(rows[row]) % |slots|, steps) && slots[probe].None?
      && Taken(HomesOf(slots), hash(rows[row]) % |slots|, steps)
    }

    /** Opens a new group in the free place where the search for it ended. */
    method Added(row: nat, record: nat)
      requires Valid() && active && row < |rows| && Free(row)
      modifies this
      ensures Valid() && seen == old(seen) + 1 && groups == old(groups) + 1
      ensures active ==> GroupsOf(slots) == old(GroupsOf(slots)) + {Group(record, hash(rows[row]), row)}
      ensures active <==> !MostlyDistinct(seen, groups) && (groups * 10 > old(|slots|) * 7 ==> Affords(budget, old(|slots|) * 2))
      ensures active ==> |slots| == old(|slots|) * (if groups * 10 > old(|slots|) * 7 then 2 else 1)
    {
      hide Table, GroupsOf;
      var g := Group(record, hash(rows[row]), row);
      RoomLeft(groups, |slots|);
      PutGroup(slots, groups, rows, hash, g, steps, probe);
      GroupsPut(slots, probe, g);
      slots := slots[probe := Some(g)];
      groups := groups + 1;
      Seen();
      if active && groups * 10 > |slots| * 7 {
        Grow();
      }
    }

    /** Grouping ends, and the table goes. */
    method Abandon()
      modifies this`active, this`slots
      ensures Valid() && !active
    {
      active, slots := false, [];
    }

    /** One more row read: gives up once nearly every row of the sample was distinct. */
    method Seen()
      modifies this`seen, this`active, this`slots
      ensures seen == old(seen) + 1 && (active <==> old(active) && !MostlyDistinct(seen, groups))
      ensures active ==> slots == old(slots)
      ensures !active ==> Valid()
    {
      seen := seen + 1;
      if seen != SAMPLE_ROWS { return; }
      if groups * 100 > seen * GROUP_BELOW_PERCENT { Abandon(); }
    }

    /** Doubles the table, or gives up where the budget forbids it. */
    method Grow()
      requires active && Table(slots, groups, rows, hash) && 16 <= |slots|
      modifies this`slots, this`active
      ensures Valid() && (active ==> GroupsOf(slots) == old(GroupsOf(slots)))
      ensures active <==> Affords(budget, old(|slots|) * 2)
      ensures active ==> |slots| == old(|slots|) * 2
    {
      hide Table, GroupsOf;
      if budget != 0 && |slots| * 2 * SLOT_BYTES > budget {
        Abandon();
        return;
      }
      TableFacts(slots, groups, rows, hash);
      var bigger: Slots := seq(|slots| * 2, i => None);
      ghost var live: nat := 0;
      EmptyTable(|slots| * 2, rows, hash);
      NoGroups(slots, bigger);
      for i := 0 to |slots|
        invariant slots == old(slots) && groups == old(groups) && active
        invariant |bigger| == |slots| * 2 && Table(bigger, live, rows, hash)
        invariant live == Occupied(HomesOf(slots)[..i]) && GroupsOf(bigger) == GroupsOf(slots[..i])
      {
        GroupsSnoc(slots, i);
        OccupiedSnoc(HomesOf(slots), i);
        if slots[i].None? { continue; }
        TableSlot(slots, groups, rows, hash, i);
        bigger := PutFree(bigger, slots[i].value, live, rows, hash);
        live := live + 1;
      }
      assert slots[..|slots|] == slots && HomesOf(slots)[..|slots|] == HomesOf(slots);
      slots := bigger;
    }
  }

  /** Puts a group into the first free slot of its walk. */
  method PutFree(slots: Slots, g: Group, ghost live: nat, ghost rows: seq<Row>, ghost hash: Row -> nat) returns (put: Slots)
    requires Table(slots, live, rows, hash) && live + 1 < |slots|
    requires g.row < |rows| && g.hash == hash(rows[g.row])
    ensures |put| == |slots| && Table(put, live + 1, rows, hash) && GroupsOf(put) == GroupsOf(slots) + {g}
  {
    var home := g.hash % |slots|;
    var at: nat := home;
    ghost var k: nat := 0;
    while slots[at].Some?
      invariant k < |slots| && at == Walk(|slots|, home, k) && Taken(HomesOf(slots), home, k)
      decreases |slots| - k
    {
      WalkEnds(HomesOf(slots), home, k + 1);
      NextStep(|slots|, home, k);
      at, k := Next(|slots|, at), k + 1;
    }
    PutGroup(slots, live, rows, hash, g, k, at);
    GroupsPut(slots, at, g);
    return slots[at := Some(g)];
  }

  lemma WalkedStart(slots: Slots, rows: seq<Row>, hash: nat, row: Row)
    requires |slots| > 0
    ensures Walked(slots, rows, hash, row, 0, hash % |slots|)
  {}

  lemma WalkedAt(slots: Slots, rows: seq<Row>, hash: nat, row: Row, k: nat, at: nat)
    requires Walked(slots, rows, hash, row, k, at)
    ensures k < |slots| && at == Walk(|slots|, hash % |slots|, k)
  {}

  lemma IsPassed(slot: Option<Group>, rows: seq<Row>, row: Row)
    requires slot.Some? && slot.value.row < |rows| && rows[slot.value.row] != row
    ensures Passed(slot, rows, row)
  {}

  lemma TableFacts(slots: Slots, groups: nat, rows: seq<Row>, hash: Row -> nat)
    requires Table(slots, groups, rows, hash)
    ensures groups == Occupied(HomesOf(slots)) < |slots|
    ensures forall g :: g in GroupsOf(slots) ==> g.row < |rows|
  {}

  lemma TableSlot(slots: Slots, groups: nat, rows: seq<Row>, hash: Row -> nat, i: nat)
    requires Table(slots, groups, rows, hash) && i < |slots| && slots[i].Some?
    ensures slots[i].value.row < |rows| && slots[i].value.hash == hash(rows[slots[i].value.row])
  {}

  lemma RoomLeft(groups: nat, n: nat)
    requires groups * 10 <= n * 7 && n >= 16
    ensures groups + 1 < n
  {}

  lemma NoGroups(slots: Slots, bigger: Slots)
    requires forall i :: 0 <= i < |bigger| ==> bigger[i].None?
    ensures GroupsOf(bigger) == GroupsOf(slots[..0])
  {}

  //
  // The scan
  //

  /** Counting a record once more adds its tuple once more. */
  lemma {:induction false} CountedOnceMore(roots: seq<Rec>, r: nat)
    requires r < |roots| && roots[r].slots == []
    ensures Perm(FlatAll(roots[r := roots[r].(weight := roots[r].weight + 1)]), FlatAll(roots) + [roots[r].vals])
  {
    var old', new' := roots[r], roots[r].(weight := roots[r].weight + 1);
    var pre, post := roots[..r], roots[r + 1..];
    assert roots == pre + ([old'] + post) && roots[r := new'] == pre + ([new'] + post);
    FlatAllAppend(pre, [old'] + post);
    FlatAllAppend(pre, [new'] + post);
    assert ([old'] + post)[1..] == post && ([new'] + post)[1..] == post;
    LeafFlat(old'.vals, old'.weight);
    LeafFlat(old'.vals, new'.weight);
    assert Copies(new'.weight, old'.vals) == Copies(old'.weight, old'.vals) + [old'.vals];
  }

  lemma TupleInjective(g: QueryGraph, r: nat, a: Row, b: Row)
    requires r < RelationCount(g) && |a| == g.columnCounts[r] == |b|
    ensures TupleOf(g, r, a) == TupleOf(g, r, b) <==> a == b
  {
    if TupleOf(g, r, a) == TupleOf(g, r, b) {
      forall c | 0 <= c < |a| ensures a[c] == b[c] {
        assert TupleOf(g, r, a)[AttributeOf(g, r, c)] == a[c];
        assert TupleOf(g, r, b)[AttributeOf(g, r, c)] == b[c];
      }
    }
  }

  /** A root standing for rows of the relation. */
  ghost predicate RootOf(g: QueryGraph, r: nat, rec: Rec)
    requires TypesGiven(g) && r < RelationCount(g)
  {
    rec.slots == [] && rec.weight >= 1 && exists row :: ValidRow(g, r, row) && rec.vals == TupleOf(g, r, row)
  }

  lemma RootsFit(g: QueryGraph, r: nat, roots: seq<Rec>)
    requires TypesGiven(g) && r < RelationCount(g) && forall q :: q in roots ==> RootOf(g, r, q)
    ensures ValidRelation(FRelation(Scan(AttributesOf(g, r)), roots))
    ensures PrunedAll(roots) && RangedAll(roots, TypesIn(g))
  {
    var t := Scan(AttributesOf(g, r));
    assert AttrBag(t) == multiset(AttributesOf(g, r)) + multiset{};
    forall q | q in roots ensures Conforms(q, t) && Pruned(q) && Ranged(q, TypesIn(g)) {
      var row :| ValidRow(g, r, row) && q.vals == TupleOf(g, r, row);
      RowRanged(g, r, row);
    }
  }

  /** Every group names a root that holds its row. */
  ghost predicate Standing(groups: set<Group>, rows: seq<Row>, roots: seq<Rec>, g: QueryGraph, r: nat)
    requires r < RelationCount(g)
  {
    forall x :: x in groups ==>
      x.record < |roots| && x.row < |rows| && |rows[x.row]| == g.columnCounts[r]
      && roots[x.record].vals == TupleOf(g, r, rows[x.row])
  }

  ghost predicate InGroup(groups: set<Group>, k: nat) {
    exists x :: x in groups && x.record == k
  }

  /** While grouping lasts, every root is in a group and no two roots are alike. */
  ghost predicate Distinct(groups: set<Group>, roots: seq<Rec>) {
    && (forall k :: 0 <= k < |roots| ==> InGroup(groups, k))
    && forall i, j :: 0 <= i < j < |roots| ==> roots[i].vals != roots[j].vals
  }

  /** What a scan is. */
  ghost predicate ScanOf(out: FRelation, g: QueryGraph, data: Data, r: nat)
    requires TypesGiven(g) && ValidData(g, data) && r < RelationCount(g)
  {
    && out.tree == Scan(AttributesOf(g, r)) && ValidRelation(out)
    && PrunedAll(out.roots) && RangedAll(out.roots, TypesIn(g))
    && Perm(FlatAll(out.roots), Scanned(g, data, r))
  }

  /** The roots denote the rows read so far, and the groups stand for the roots. */
  ghost predicate ReadSoFar(grouper: RowGrouper, roots: seq<Rec>, g: QueryGraph, r: nat, bag: seq<Tuple>)
    requires TypesGiven(g) && r < RelationCount(g)
    reads grouper
  {
    && grouper.Valid() && Perm(FlatAll(roots), bag) && (forall q :: q in roots ==> RootOf(g, r, q))
    && (grouper.active ==>
          Standing(GroupsOf(grouper.slots), grouper.rows, roots, g, r) && Distinct(GroupsOf(grouper.slots), roots))
  }

  /** One row: counted by the record that stands for it, or given a record of its own. */
  method ReadRow(grouper: RowGrouper, roots: seq<Rec>, g: QueryGraph, r: nat, i: nat, ghost bag: seq<Tuple>)
    returns (more: Outcome<seq<Rec>>)
    requires TypesGiven(g) && r < RelationCount(g) && i < |grouper.rows| && ValidRow(g, r, grouper.rows[i])
    requires ReadSoFar(grouper, roots, g, r, bag)
    modifies grouper
    ensures more.Ok? ==> ReadSoFar(grouper, more.value, g, r, bag + [TupleOf(g, r, grouper.rows[i])])
    ensures grouper.active ==> old(grouper.active)
  {
    hide GroupsOf, FlatAll, RootOf, Distinct, Standing, Table;
    var t := TupleOf(g, r, grouper.rows[i]);
    if grouper.active {
      ghost var groups := GroupsOf(grouper.slots);
      var seen := grouper.Find(i);
      if seen.Some? {
        ghost var x :| x in groups && x.record == seen.value && x.row < |grouper.rows|
                           && grouper.rows[x.row] == grouper.rows[i];
        StandsFor(groups, grouper.rows, roots, g, r, x, i);
        var was := roots[seen.value];
        var weight :- Plus(was.weight, 1);
        CountedOnceMore(roots, seen.value);
        Recounted(groups, grouper.rows, roots, g, r, seen.value);
        grouper.Seen();
        return Ok(roots[seen.value := was.(weight := weight)]);
      }
      OneMoreRoot(groups, grouper.rows, roots, g, r, i, grouper.hash);
      grouper.Added(i, |roots|);
    }
    FlatAllAppend(roots, [Rec(t, 1, [])]);
    LeafOne(t);
    NewRoot(g, r, grouper.rows[i]);
    return Ok(roots + [Rec(t, 1, [])]);
  }

  /** Reads a relation into one level of records, counting identical rows for as long as grouping
      lasts; `group` is what the sample said. The records denote the bag of rows whatever the
      hash collides, whenever the table grows and wherever grouping is given up. */
  method MakeScan(g: QueryGraph, data: Data, r: nat, hash: Row -> nat, group: bool, budget: nat)
    returns (out: Outcome<FRelation>, grouped: bool)
    requires TypesGiven(g) && ValidData(g, data) && r < RelationCount(g)
    ensures out.Ok? ==> ScanOf(out.value, g, data, r)
    ensures grouped ==> group
    ensures out.Ok? && grouped ==> forall i, j :: 0 <= i < j < |out.value.roots| ==> out.value.roots[i].vals != out.value.roots[j].vals
  {
    hide GroupsOf, FlatAll, RootOf, Distinct, Standing, Table;
    grouped := false;
    var rows, roots: seq<Rec> := data[r], [];
    ghost var bag := Scanned(g, data, r);
    var grouper := new RowGrouper(rows, hash, if group then |rows| else 0, budget);
    NothingRead(grouper.slots, rows, g, r);
    if !group { grouper.Abandon(); }
    for i := 0 to |rows|
      invariant fresh(grouper) && grouper.rows == rows && ReadSoFar(grouper, roots, g, r, bag[..i]) && (grouper.active ==> group)
    {
      assert ValidRow(g, r, data[r][i]);
      roots :- ReadRow(grouper, roots, g, r, i, bag[..i]);
      assert bag[..i + 1] == bag[..i] + [bag[i]];
    }
    assert bag[..|rows|] == bag;
    RootsFit(g, r, roots);
    if grouper.active { DistinctRoots(GroupsOf(grouper.slots), roots); }
    return Ok(FRelation(Scan(AttributesOf(g, r)), roots)), grouper.active;
  }

  lemma NothingRead(slots: Slots, rows: seq<Row>, g: QueryGraph, r: nat)
    requires r < RelationCount(g)
    ensures FlatAll([]) == []
    ensures GroupsOf(slots) == {} ==> Standing(GroupsOf(slots), rows, [], g, r) && Distinct(GroupsOf(slots), [])
  {}

  lemma StandsFor(groups: set<Group>, rows: seq<Row>, roots: seq<Rec>, g: QueryGraph, r: nat, x: Group, i: nat)
    requires TypesGiven(g) && r < RelationCount(g) && Standing(groups, rows, roots, g, r) && x in groups
    requires i < |rows| && x.row < |rows| && rows[x.row] == rows[i] && |rows[i]| == g.columnCounts[r]
    requires forall q :: q in roots ==> RootOf(g, r, q)
    ensures x.record < |roots| && roots[x.record].vals == TupleOf(g, r, rows[i]) && roots[x.record].slots == []
  {
    assert roots[x.record] in roots;
  }

  lemma Recounted(groups: set<Group>, rows: seq<Row>, roots: seq<Rec>, g: QueryGraph, r: nat, k: nat)
    requires TypesGiven(g) && r < RelationCount(g) && Standing(groups, rows, roots, g, r) && Distinct(groups, roots)
    requires k < |roots| && forall q :: q in roots ==> RootOf(g, r, q)
    ensures var more := roots[k := roots[k].(weight := roots[k].weight + 1)];
            Standing(groups, rows, more, g, r) && Distinct(groups, more) && forall q :: q in more ==> RootOf(g, r, q)
  {
    assert RootOf(g, r, roots[k]) by { assert roots[k] in roots; }
    assert RootOf(g, r, roots[k].(weight := roots[k].weight + 1));
  }

  lemma OneMoreRoot(groups: set<Group>, rows: seq<Row>, roots: seq<Rec>, g: QueryGraph, r: nat, i: nat, hash: Row -> nat)
    requires TypesGiven(g) && r < RelationCount(g) && Standing(groups, rows, roots, g, r) && Distinct(groups, roots)
    requires i < |rows| && ValidRow(g, r, rows[i]) && forall q :: q in roots ==> RootOf(g, r, q)
    requires forall x :: x in groups ==> rows[x.row] != rows[i]
    ensures var more, all := roots + [Rec(TupleOf(g, r, rows[i]), 1, [])], groups + {Group(|roots|, hash(rows[i]), i)};
            Standing(all, rows, more, g, r) && Distinct(all, more) && forall q :: q in more ==> RootOf(g, r, q)
  {
    var more, all := roots + [Rec(TupleOf(g, r, rows[i]), 1, [])], groups + {Group(|roots|, hash(rows[i]), i)};
    NewRoot(g, r, rows[i]);
    forall k | 0 <= k < |more| ensures InGroup(all, k) {
      if k < |roots| {
        assert InGroup(groups, k);
        var x :| x in groups && x.record == k;
        assert x in all;
      } else {
        assert Group(|roots|, hash(rows[i]), i) in all;
      }
    }
    forall k | 0 <= k < |roots| ensures roots[k].vals != TupleOf(g, r, rows[i]) {
      assert InGroup(groups, k);
      var x :| x in groups && x.record == k;
      TupleInjective(g, r, rows[x.row], rows[i]);
    }
  }

  lemma NewRoot(g: QueryGraph, r: nat, row: Row)
    requires TypesGiven(g) && r < RelationCount(g) && ValidRow(g, r, row)
    ensures RootOf(g, r, Rec(TupleOf(g, r, row), 1, []))
  {}

  lemma DistinctRoots(groups: set<Group>, roots: seq<Rec>)
    requires Distinct(groups, roots)
    ensures forall i, j :: 0 <= i < j < |roots| ==> roots[i].vals != roots[j].vals
  {}
}
