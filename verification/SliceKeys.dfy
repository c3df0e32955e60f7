/** Which columns a join is bucketed on. */
module SliceKeys {
  import opened Bags
  import opened Filters
  import opened KeyPacking
  import opened Graphs
  import opened Equalities
  import opened Plans
  import opened Answering
  import opened OneRows
  import opened Slicing

  /** The least column of a relation, of the first `n`, whose class is `root`; -1 for none. */
  function ColumnBelow(g: QueryGraph, roots: Roots, root: nat, r: nat, n: nat): (c: int)
    requires |roots| == TotalAttributes(g) && r < RelationCount(g) && n <= g.columnCounts[r]
    ensures -1 <= c < n
  {
    if n == 0 then -1
    else
      var sooner := ColumnBelow(g, roots, root, r, n - 1);
      AttributeInjective(g, r, n - 1, r, n - 1);
      if sooner < 0 && roots[AttributeOf(g, r, n - 1)] == root then n - 1 else sooner
  }

  lemma {:induction false} ColumnBelowIs(g: QueryGraph, roots: Roots, root: nat, r: nat, n: nat)
    requires |roots| == TotalAttributes(g) && r < RelationCount(g) && n <= g.columnCounts[r]
    ensures var c := ColumnBelow(g, roots, root, r, n);
      c >= 0 ==> AttributeOf(g, r, c) < |roots| && roots[AttributeOf(g, r, c)] == root
  {
    if n > 0 {
      ColumnBelowIs(g, roots, root, r, n - 1);
      AttributeInjective(g, r, n - 1, r, n - 1);
    }
  }

  /** The columns of a class looked at before column `c` of relation `r`. */
  function PartColumns(g: QueryGraph, roots: Roots, root: nat, r: nat, c: nat): (key: KeyColumns)
    requires |roots| == TotalAttributes(g) && r < RelationCount(g) ==> c <= g.columnCounts[r]
    requires |roots| == TotalAttributes(g)
    ensures |key| == RelationCount(g)
  {
    seq(RelationCount(g), q requires 0 <= q < RelationCount(g) =>
      if q < r then ColumnBelow(g, roots, root, q, g.columnCounts[q])
      else if q == r then ColumnBelow(g, roots, root, q, c)
      else -1)
  }

  /** One column per relation the class reaches. */
  function ColumnsFor(g: QueryGraph, roots: Roots, root: nat): KeyColumns
    requires |roots| == TotalAttributes(g)
  {
    PartColumns(g, roots, root, RelationCount(g), 0)
  }

  function Reach(key: KeyColumns): nat {
    if key == [] then 0 else (if key[0] >= 0 then 1 else 0) + Reach(key[1..])
  }

  lemma {:induction false} ReachMore(key: KeyColumns, r: nat, c: int)
    requires r < |key| && key[r] < 0 && c >= 0
    ensures Reach(key[r := c]) == Reach(key) + 1
  {
    if r == 0 {
      assert key[0 := c][1..] == key[1..];
    } else {
      assert key[r := c][1..] == key[1..][r - 1 := c];
      ReachMore(key[1..], r - 1, c);
    }
  }

  lemma {:induction false} ReachSome(key: KeyColumns)
    ensures Reach(key) > 0 <==> SomeKey(key)
  {
    if key != [] {
      ReachSome(key[1..]);
      assert key == [key[0]] + key[1..];
      if SomeKey(key[1..]) {
        var r :| 0 <= r < |key[1..]| && key[1..][r] >= 0;
        assert key[r + 1] >= 0;
      }
      if SomeKey(key) && key[0] < 0 {
        var r :| 0 <= r < |key| && key[r] >= 0;
        assert key[1..][r - 1] >= 0;
      }
    }
  }

  /** The class has a column on the relation the plan starts from. */
  predicate CoversBase(key: KeyColumns, steps: seq<PlanStep>) {
    steps != [] && steps[0].relation < |key| && key[steps[0].relation] >= 0
  }

  /** Covering the base relation wins; reach breaks the tie. */
  predicate Beats(a: KeyColumns, b: KeyColumns, steps: seq<PlanStep>) {
    || (CoversBase(a, steps) && !CoversBase(b, steps))
    || (CoversBase(a, steps) == CoversBase(b, steps) && Reach(a) > Reach(b))
  }

  datatype Choice = Choice(root: nat) | NoChoice

  function BestBelow(g: QueryGraph, steps: seq<PlanStep>, roots: Roots, n: nat): Choice
    requires |roots| == TotalAttributes(g)
  {
    if n == 0 then NoChoice
    else
      var best, key := BestBelow(g, steps, roots, n - 1), ColumnsFor(g, roots, n - 1);
      if Reach(key) > 1 && (best.NoChoice? || Beats(key, ColumnsFor(g, roots, best.root), steps)) then Choice(n - 1) else best
  }

  /** The columns to bucket on; nothing when no class reaches two relations. */
  function ChosenKey(g: QueryGraph, steps: seq<PlanStep>): KeyColumns {
    var roots := After(g, g.predicates);
    var best := BestBelow(g, steps, roots, |roots|);
    if best.Choice? then ColumnsFor(g, roots, best.root) else []
  }

  /** The choice reaches two relations, and no class that does beats it. */
  lemma {:induction false} BestIs(g: QueryGraph, steps: seq<PlanStep>, roots: Roots, n: nat)
    requires |roots| == TotalAttributes(g)
    ensures var best := BestBelow(g, steps, roots, n);
      && (best.NoChoice? <==> forall root :: 0 <= root < n ==> Reach(ColumnsFor(g, roots, root)) <= 1)
      && (best.Choice? ==>
        && best.root < n && Reach(ColumnsFor(g, roots, best.root)) > 1
        && forall root :: 0 <= root < n && Reach(ColumnsFor(g, roots, root)) > 1 ==>
             !Beats(ColumnsFor(g, roots, root), ColumnsFor(g, roots, best.root), steps))
  {
    hide ColumnsFor, Reach, CoversBase;
    if n > 0 { BestIs(g, steps, roots, n - 1); }
  }

  //
  // Any class will do
  //

  lemma ClassColumnsOk(g: QueryGraph, roots: Roots, root: nat)
    requires |roots| == TotalAttributes(g)
    ensures KeyColumnsOk(g, ColumnsFor(g, roots, root))
    ensures forall r :: 0 <= r < RelationCount(g) && ColumnsFor(g, roots, root)[r] >= 0 ==>
      var a := AttributeOf(g, r, ColumnsFor(g, roots, root)[r]); a < |roots| && roots[a] == root
  {
    forall r | 0 <= r < RelationCount(g) && ColumnsFor(g, roots, root)[r] >= 0
      ensures var a := AttributeOf(g, r, ColumnsFor(g, roots, root)[r]); a < |roots| && roots[a] == root
    {
      ColumnBelowIs(g, roots, root, r, g.columnCounts[r]);
    }
  }

  /** The keyed columns are equal by the predicates between relations. */
  ghost predicate OneClass(g: QueryGraph, key: KeyColumns)
    requires KeyColumnsOk(g, key)
  {
    forall r, s :: 0 <= r < |key| && 0 <= s < |key| && key[r] >= 0 && key[s] >= 0 ==> SameRoot(g, key, r, s)
  }

  ghost predicate SameRoot(g: QueryGraph, key: KeyColumns, r: nat, s: nat)
    requires KeyColumnsOk(g, key) && r < |key| && s < |key| && key[r] >= 0 && key[s] >= 0
  {
    AttributeInjective(g, r, key[r], r, key[r]);
    AttributeInjective(g, s, key[s], s, key[s]);
    var roots := After(g, NonSelf(g.predicates));
    roots[AttributeOf(g, r, key[r])] == roots[AttributeOf(g, s, key[s])]
  }

  /** The keyed columns are all of one width. */
  predicate OneWidth(g: QueryGraph, key: KeyColumns)
    requires TypesGiven(g) && KeyColumnsOk(g, key)
  {
    forall r, s :: 0 <= r < |key| && 0 <= s < |key| && key[r] >= 0 && key[s] >= 0 ==> g.columnTypes[r][key[r]] == g.columnTypes[s][key[s]]
  }

  /** A choice of columns that every row found holds one value in. */
  ghost predicate Coherent(g: QueryGraph, key: KeyColumns) {
    TypesGiven(g) && KeyColumnsOk(g, key) && OneClass(g, key) && OneWidth(g, key)
  }

  /** Two columns of one class have the same bits in every row found. */
  lemma ClassHoldsBits(g: QueryGraph, data: Data, key: KeyColumns, t: Tuple, r: nat, s: nat)
    requires TypesGiven(g) && ValidGraph(g) && ValidData(g, data) && KeyColumnsOk(g, key) && t in FoundRows(g, data)
    requires r < |key| && s < |key| && key[r] >= 0 && key[s] >= 0 && SameRoot(g, key, r, s)
    ensures AttributeOf(g, r, key[r]) in t && AttributeOf(g, s, key[s]) in t
    ensures var u := Worded(t, TypesIn(g)); u[AttributeOf(g, r, key[r])] == u[AttributeOf(g, s, key[s])]
  {
    hide After, ValidData, CrossSeq, AttributesOf, SatAll, Worded, TypesIn;
    var ps := NonSelf(g.predicates);
    NonSelfMembers(g.predicates);
    FilterMembers(CrossSeq(ScansOf(g, data, Relations(g))), SameWords(g, ps));
    CrossKeys(g, data, Relations(g));
    RelationsBelow(g);
    EveryAttribute(g, r, key[r]);
    EveryAttribute(g, s, key[s]);
    WordedKeys(t, TypesIn(g));
    if AttributeOf(g, r, key[r]) != AttributeOf(g, s, key[s]) {
      ClassesHold(g, ps, Worded(t, TypesIn(g)), AttributeOf(g, r, key[r]), AttributeOf(g, s, key[s]));
    }
  }

  /** Every row found holds one value in columns of one width that are equal by the predicates the
      joins apply. */
  lemma RowHoldsOneValue(g: QueryGraph, data: Data, key: KeyColumns, t: Tuple)
    requires ValidGraph(g) && Coherent(g, key) && ValidData(g, data) && t in FoundRows(g, data)
    ensures OneValue(t, g, key)
  {
    hide FoundRows, ValidData, TypesIn, Unsigned, InRange;
    RowsRanged(g, data);
    forall r | 0 <= r < |key| && key[r] >= 0 ensures AttributeOf(g, r, key[r]) in t { ClassHoldsBits(g, data, key, t, r, r); }
    forall r, s | 0 <= r < |key| && 0 <= s < |key| && key[r] >= 0 && key[s] >= 0
      ensures t[AttributeOf(g, r, key[r])] == t[AttributeOf(g, s, key[s])]
    {
      ClassHoldsBits(g, data, key, t, r, s);
      TypeOfColumn(g, r, key[r]);
      TypeOfColumn(g, s, key[s]);
      UnsignedInjective(g.columnTypes[r][key[r]], t[AttributeOf(g, r, key[r])], t[AttributeOf(g, s, key[s])]);
    }
  }

  /** Columns a join may be bucketed on. */
  ghost predicate Separates(g: QueryGraph, key: KeyColumns) {
    && KeyColumnsOk(g, key) && SomeKey(key)
    && exists root :: key == ColumnsFor(g, After(g, g.predicates), root)
  }

  lemma ChosenSeparates(g: QueryGraph, steps: seq<PlanStep>)
    requires ChosenKey(g, steps) != []
    ensures Separates(g, ChosenKey(g, steps))
  {
    var roots := After(g, g.predicates);
    BestIs(g, steps, roots, |roots|);
    ReachSome(ChosenKey(g, steps));
    ClassColumnsOk(g, roots, BestBelow(g, steps, roots, |roots|).root);
  }

  lemma CoherentRows(g: QueryGraph, data: Data, key: KeyColumns)
    requires ValidGraph(g) && Coherent(g, key) && ValidData(g, data)
    ensures forall t :: t in FoundRows(g, data) ==> OneValue(t, g, key)
  {
    forall t | t in FoundRows(g, data) ensures OneValue(t, g, key) { RowHoldsOneValue(g, data, key, t); }
  }

  //
  // Finding the columns
  //

  /** Class by class, the columns found so far and how many relations they reach. */
  ghost predicate Gathered(g: QueryGraph, roots: Roots, columns: map<nat, KeyColumns>, reach: map<nat, nat>, r: nat, c: nat)
    requires |roots| == TotalAttributes(g) && (r < RelationCount(g) ==> c <= g.columnCounts[r])
  {
    && columns.Keys == reach.Keys
    && forall root :: ClassAt(g, roots, columns, reach, r, c, root)
  }

  ghost predicate ClassAt(g: QueryGraph, roots: Roots, columns: map<nat, KeyColumns>, reach: map<nat, nat>, r: nat, c: nat, root: nat)
    requires |roots| == TotalAttributes(g) && (r < RelationCount(g) ==> c <= g.columnCounts[r])
  {
    ClassGathered(columns, reach, root, PartColumns(g, roots, root, r, c))
  }

  ghost predicate ClassGathered(columns: map<nat, KeyColumns>, reach: map<nat, nat>, root: nat, key: KeyColumns) {
    if root in columns then columns[root] == key && root in reach && reach[root] == Reach(key)
    else forall r :: 0 <= r < |key| ==> key[r] < 0
  }

  lemma {:induction false} ReachNothing(key: KeyColumns)
    requires forall r :: 0 <= r < |key| ==> key[r] < 0
    ensures Reach(key) == 0
  {
    if key != [] {
      assert forall r :: 0 <= r < |key[1..]| ==> key[1..][r] == key[r + 1];
      ReachNothing(key[1..]);
    }
  }

  lemma GatherOne(g: QueryGraph, roots: Roots, columns: map<nat, KeyColumns>, reach: map<nat, nat>, r: nat, c: nat, root: nat)
    requires |roots| == TotalAttributes(g) && r < RelationCount(g) && c < g.columnCounts[r] && Gathered(g, roots, columns, reach, r, c)
    requires AttributeOf(g, r, c) < |roots| && roots[AttributeOf(g, r, c)] == root
    ensures var key := PartColumns(g, roots, root, r, c);
      && (root in columns ==> columns[root] == key && root in reach && reach[root] == Reach(key))
      && (root !in columns ==> Reach(key) == 0 && key == seq(RelationCount(g), q => -1))
      && Gathered(g, roots, columns[root := if key[r] < 0 then key[r := c] else key],
                  reach[root := if key[r] < 0 then Reach(key) + 1 else Reach(key)], r, c + 1)
  {
    var key, next := PartColumns(g, roots, root, r, c), c + 1;
    assert ClassAt(g, roots, columns, reach, r, c, root);
    var columns' := columns[root := if key[r] < 0 then key[r := c] else key];
    var reach' := reach[root := if key[r] < 0 then Reach(key) + 1 else Reach(key)];
    if root !in columns {
      ReachNothing(key);
      assert forall q :: 0 <= q < |key| ==> key[q] == -1;
    }
    if key[r] < 0 { ReachMore(key, r, c); }
    forall other ensures ClassAt(g, roots, columns', reach', r, next, other) {
      assert ClassAt(g, roots, columns, reach, r, c, other);
      if other == root {
        assert PartColumns(g, roots, root, r, next) == if key[r] < 0 then key[r := c] else key;
      } else {
        assert PartColumns(g, roots, other, r, next) == PartColumns(g, roots, other, r, c);
      }
    }
  }

  lemma GatherNext(g: QueryGraph, roots: Roots, columns: map<nat, KeyColumns>, reach: map<nat, nat>, r: nat)
    requires |roots| == TotalAttributes(g) && r < RelationCount(g) && Gathered(g, roots, columns, reach, r, g.columnCounts[r])
    ensures Gathered(g, roots, columns, reach, r + 1, 0)
  {
    var next := r + 1;
    forall root ensures ClassAt(g, roots, columns, reach, next, 0, root) {
      assert ClassAt(g, roots, columns, reach, r, g.columnCounts[r], root);
      assert PartColumns(g, roots, root, next, 0) == PartColumns(g, roots, root, r, g.columnCounts[r]);
    }
  }

  /** One pass over all columns. */
  method GatherColumns(g: QueryGraph) returns (columns: map<nat, KeyColumns>, reach: map<nat, nat>)
    requires ValidGraph(g)
    ensures Gathered(g, After(g, g.predicates), columns, reach, RelationCount(g), 0)
  {
    hide LeadTo, ColumnBelow, Gathered, PartColumns, After;
    var classes := new EquivalenceClasses.Closed(g);
    columns, reach := map[], map[];
    GatheredStart(g);
    for relation := 0 to RelationCount(g)
      invariant classes.Valid() && classes.roots == After(g, g.predicates)
      invariant Gathered(g, classes.roots, columns, reach, relation, 0)
    {
      for column := 0 to g.columnCounts[relation]
        invariant classes.Valid() && classes.roots == After(g, g.predicates)
        invariant Gathered(g, classes.roots, columns, reach, relation, column)
      {
        AttributeInjective(g, relation, column, relation, column);
        var root := classes.Find(AttributeOf(g, relation, column));
        GatherOne(g, classes.roots, columns, reach, relation, column, root);
        var found, reached: nat := seq(RelationCount(g), q => -1), 0;
        if root in columns { found, reached := columns[root], reach[root]; }
        if found[relation] < 0 {
          found, reached := found[relation := column], reached + 1;
        }
        columns, reach := columns[root := found], reach[root := reached];
      }
      GatherNext(g, classes.roots, columns, reach, relation);
    }
  }

  lemma GatheredStart(g: QueryGraph)
    ensures |After(g, g.predicates)| == TotalAttributes(g) && Gathered(g, After(g, g.predicates), map[], map[], 0, 0)
  {}

  lemma GatheredClass(g: QueryGraph, roots: Roots, columns: map<nat, KeyColumns>, reach: map<nat, nat>, root: nat)
    requires |roots| == TotalAttributes(g) && Gathered(g, roots, columns, reach, RelationCount(g), 0)
    ensures root in columns ==> columns[root] == ColumnsFor(g, roots, root) && root in reach && reach[root] == Reach(columns[root])
    ensures root !in columns ==> root !in reach && Reach(ColumnsFor(g, roots, root)) == 0
  {
    assert ClassAt(g, roots, columns, reach, RelationCount(g), 0, root);
    if root !in columns { ReachNothing(ColumnsFor(g, roots, root)); }
  }

  method ChooseSliceColumns(g: QueryGraph, steps: seq<PlanStep>) returns (key: KeyColumns)
    requires ValidGraph(g)
    ensures key == ChosenKey(g, steps)
  {
    hide Gathered, Reach, CoversBase, ColumnsFor, After;
    var columns, reach := GatherColumns(g);
    ghost var roots := After(g, g.predicates);
    var best := NoChoice;
    for root := 0 to TotalAttributes(g)
      invariant best == BestBelow(g, steps, roots, root) && (best.Choice? ==> best.root in columns)
    {
      GatheredClass(g, roots, columns, reach, root);
      if best.Choice? { GatheredClass(g, roots, columns, reach, best.root); }
      if root !in reach || reach[root] <= 1 { continue; }
      if best.NoChoice? || Beats(columns[root], columns[best.root], steps) { best := Choice(root); }
    }
    if best.Choice? { GatheredClass(g, roots, columns, reach, best.root); }
    key := if best.Choice? then columns[best.root] else [];
  }

  /** Wider reach first, then the smaller class. */
  predicate Before(g: QueryGraph, roots: Roots, a: nat, b: nat)
    requires |roots| == TotalAttributes(g)
  {
    var x, y := Reach(ColumnsFor(g, roots, a)), Reach(ColumnsFor(g, roots, b));
    x > y || (x == y && a < b)
  }

  ghost predicate Ranked(g: QueryGraph, roots: Roots, ranked: seq<nat>, n: nat)
    requires |roots| == TotalAttributes(g)
  {
    && (forall root :: root in ranked <==> 0 <= root < n && Reach(ColumnsFor(g, roots, root)) > 1)
    && forall i, j :: 0 <= i < j < |ranked| ==> Before(g, roots, ranked[i], ranked[j])
  }

  /** Every class reaching two relations, widest first. */
  method RankSliceColumns(g: QueryGraph) returns (out: seq<KeyColumns>, ghost ranked: seq<nat>)
    requires ValidGraph(g)
    ensures Ranked(g, After(g, g.predicates), ranked, TotalAttributes(g)) && |out| == |ranked|
    ensures forall i :: 0 <= i < |out| ==> out[i] == ColumnsFor(g, After(g, g.predicates), ranked[i])
  {
    hide Gathered, Reach, ColumnsFor, After;
    var columns, reach := GatherColumns(g);
    ghost var roots := After(g, g.predicates);
    ranked, out := [], [];
    for root := 0 to TotalAttributes(g)
      invariant Ranked(g, roots, ranked, root) && |out| == |ranked|
      invariant forall i :: 0 <= i < |out| ==> out[i] == ColumnsFor(g, roots, ranked[i])
    {
      GatheredClass(g, roots, columns, reach, root);
      if root !in reach || reach[root] <= 1 { continue; }
      var at := Position(out, reach[root]);
      RankedInsert(g, roots, ranked, root, at);
      out, ranked := out[..at] + [columns[root]] + out[at..], ranked[..at] + [root] + ranked[at..];
    }
  }

  /** Behind everything at least as wide. */
  method Position(out: seq<KeyColumns>, reach: nat) returns (at: nat)
    ensures at <= |out| && (at > 0 ==> Reach(out[at - 1]) >= reach) && forall i :: at <= i < |out| ==> Reach(out[i]) < reach
  {
    at := |out|;
    while at > 0 && Reach(out[at - 1]) < reach
      invariant at <= |out| && forall i :: at <= i < |out| ==> Reach(out[i]) < reach
    {
      at := at - 1;
    }
  }

  lemma RankedInsert(g: QueryGraph, roots: Roots, ranked: seq<nat>, root: nat, at: nat)
    requires |roots| == TotalAttributes(g) && Ranked(g, roots, ranked, root) && at <= |ranked|
    requires Reach(ColumnsFor(g, roots, root)) > 1
    requires forall i :: at <= i < |ranked| ==> Reach(ColumnsFor(g, roots, ranked[i])) < Reach(ColumnsFor(g, roots, root))
    requires at > 0 ==> Reach(ColumnsFor(g, roots, ranked[at - 1])) >= Reach(ColumnsFor(g, roots, root))
    ensures Ranked(g, roots, ranked[..at] + [root] + ranked[at..], root + 1)
  {
    hide Reach, ColumnsFor;
    var more := ranked[..at] + [root] + ranked[at..];
    forall x ensures x in more <==> x in ranked || x == root {
      assert ranked == ranked[..at] + ranked[at..];
    }
    forall i | 0 <= i < at ensures Before(g, roots, ranked[i], root) {
      assert ranked[i] in ranked;
      if i < at - 1 { assert Before(g, roots, ranked[i], ranked[at - 1]); }
    }
    forall i, j | 0 <= i < j < |more| ensures Before(g, roots, more[i], more[j]) {
      if j < at { assert Before(g, roots, ranked[i], ranked[j]); }
      if i > at { assert Before(g, roots, ranked[i - 1], ranked[j - 1]); }
      if i < at < j { assert Before(g, roots, ranked[i], ranked[j - 1]); }
    }
  }

  lemma RankedSeparates(g: QueryGraph, ranked: seq<nat>, i: nat)
    requires Ranked(g, After(g, g.predicates), ranked, TotalAttributes(g)) && i < |ranked|
    ensures Separates(g, ColumnsFor(g, After(g, g.predicates), ranked[i]))
  {
    assert ranked[i] in ranked;
    ReachSome(ColumnsFor(g, After(g, g.predicates), ranked[i]));
    ClassColumnsOk(g, After(g, g.predicates), ranked[i]);
  }
}
