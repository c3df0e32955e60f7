/** Reducing a join tree from the leaves: which rows of the root take part in the join. */
module Reduction {
  import opened Bags
  import opened Filters
  import opened Graphs
  import opened Checked
  import opened KeyPacking
  import opened Plans
  import opened Answering
  import opened Sums
  import opened Restructuring

  /** One relation of the tree: where its parent stands in the order, and the two columns that
      must agree. The root is its own parent. */
  datatype Link = Link(relation: nat, up: nat, ownColumn: nat, parentColumn: nat)

  type Tree = seq<Link>

  ghost predicate TreeOk(g: QueryGraph, tree: Tree) {
    && tree != [] && (forall i :: 0 <= i < |tree| ==> tree[i].relation < RelationCount(g))
    && (forall i, j :: 0 <= i < j < |tree| ==> tree[i].relation != tree[j].relation)
    && forall i :: 0 < i < |tree| ==> LinkOk(g, tree, i)
  }

  ghost predicate LinkOk(g: QueryGraph, tree: Tree, i: nat)
    requires i < |tree|
  {
    && tree[i].relation < RelationCount(g) && tree[i].up < i && tree[tree[i].up].relation < RelationCount(g)
    && tree[i].ownColumn < g.columnCounts[tree[i].relation]
    && tree[i].parentColumn < g.columnCounts[tree[tree[i].up].relation]
  }

  ghost predicate DataOk(g: QueryGraph, data: Data) {
    |data| == RelationCount(g) && forall r, i :: 0 <= r < |data| && 0 <= i < |data[r]| ==> |data[r][i]| == g.columnCounts[r]
  }

  function RowsAt(data: Data, tree: Tree, i: nat): seq<Row>
    requires i < |tree| && tree[i].relation < |data|
  {
    data[tree[i].relation]
  }

  /** Row `z` of relation `j` matches row `y` of its parent. */
  ghost predicate Linked(g: QueryGraph, data: Data, tree: Tree, j: nat, y: nat, z: nat)
    requires DataOk(g, data) && j < |tree| && LinkOk(g, tree, j)
    requires y < |RowsAt(data, tree, tree[j].up)| && z < |RowsAt(data, tree, j)|
  {
    RowsAt(data, tree, tree[j].up)[y][tree[j].parentColumn] == RowsAt(data, tree, j)[z][tree[j].ownColumn]
  }

  /** The row has partners in every child, which have partners in theirs, down to the leaves. */
  ghost predicate Survives(g: QueryGraph, data: Data, tree: Tree, i: nat, y: nat)
    requires TreeOk(g, tree) && DataOk(g, data) && i < |tree|
    decreases |tree| - i, 1
  {
    y < |RowsAt(data, tree, i)| &&
    forall j :: i < j < |tree| && tree[j].up == i && LinkOk(g, tree, j) ==> HasPartner(g, data, tree, j, y)
  }

  ghost predicate HasPartner(g: QueryGraph, data: Data, tree: Tree, j: nat, y: nat)
    requires TreeOk(g, tree) && DataOk(g, data) && 0 < j < |tree| && LinkOk(g, tree, j) && y < |RowsAt(data, tree, tree[j].up)|
    decreases |tree| - j, 2
  {
    exists z: nat :: z < |RowsAt(data, tree, j)| && Linked(g, data, tree, j, y, z) && Survives(g, data, tree, j, z)
  }

  /** One row per relation, every child's matching its parent's. */
  ghost predicate Matches(g: QueryGraph, data: Data, tree: Tree, ch: seq<nat>, k: nat)
    requires TreeOk(g, tree) && DataOk(g, data) && k <= |tree|
  {
    && |ch| == k && (forall i :: 0 <= i < k ==> ch[i] < |RowsAt(data, tree, i)|)
    && forall j :: 0 < j < k ==> MatchesAt(g, data, tree, ch, j)
  }

  ghost predicate MatchesAt(g: QueryGraph, data: Data, tree: Tree, ch: seq<nat>, j: nat)
    requires TreeOk(g, tree) && DataOk(g, data) && 0 < j < |tree| && j < |ch|
    requires forall i :: 0 <= i < |ch| ==> i < |tree| && ch[i] < |RowsAt(data, tree, i)|
  {
    assert LinkOk(g, tree, j);
    Linked(g, data, tree, j, ch[tree[j].up], ch[j])
  }

  /** A surviving root row is extended relation by relation into a whole match. */
  lemma {:induction false} Extends(g: QueryGraph, data: Data, tree: Tree, x: nat, k: nat) returns (ch: seq<nat>)
    requires TreeOk(g, tree) && DataOk(g, data) && Survives(g, data, tree, 0, x) && 0 < k <= |tree|
    ensures Matches(g, data, tree, ch, k) && ch[0] == x
    ensures forall i :: 0 <= i < k ==> Survives(g, data, tree, i, ch[i])
  {
    if k == 1 {
      ch := [x];
    } else {
      var before := Extends(g, data, tree, x, k - 1);
      ch := ExtendsOne(g, data, tree, before, k - 1);
    }
  }

  lemma ExtendsOne(g: QueryGraph, data: Data, tree: Tree, before: seq<nat>, j: nat) returns (ch: seq<nat>)
    requires TreeOk(g, tree) && DataOk(g, data) && 0 < j < |tree| && Matches(g, data, tree, before, j)
    requires forall i :: 0 <= i < j ==> Survives(g, data, tree, i, before[i])
    ensures Matches(g, data, tree, ch, j + 1) && ch[..j] == before
    ensures forall i :: 0 <= i <= j ==> Survives(g, data, tree, i, ch[i])
  {
    assert LinkOk(g, tree, j);
    var up := tree[j].up;
    assert Survives(g, data, tree, up, before[up]) && HasPartner(g, data, tree, j, before[up]);
    hide Survives;
    var z: nat :| z < |RowsAt(data, tree, j)| && Linked(g, data, tree, j, before[up], z) && Survives(g, data, tree, j, z);
    ch := before + [z];
    forall m | 0 < m < j + 1 ensures MatchesAt(g, data, tree, ch, m) {
      assert LinkOk(g, tree, m);
      if m < j { assert MatchesAt(g, data, tree, before, m); }
    }
  }

  /** Every row of a match survives. */
  lemma {:induction false} MatchedSurvive(g: QueryGraph, data: Data, tree: Tree, ch: seq<nat>, i: nat)
    requires TreeOk(g, tree) && DataOk(g, data) && Matches(g, data, tree, ch, |tree|) && i < |tree|
    ensures Survives(g, data, tree, i, ch[i])
    decreases |tree| - i
  {
    forall j | i < j < |tree| && tree[j].up == i ensures HasPartner(g, data, tree, j, ch[i]) {
      MatchedSurvive(g, data, tree, ch, j);
      assert LinkOk(g, tree, j) && MatchesAt(g, data, tree, ch, j);
      assert Linked(g, data, tree, j, ch[i], ch[j]);
    }
  }

  //
  // Join rows are matches
  //

  /** The link applies the predicate. */
  ghost predicate Applies(tree: Tree, j: nat, p: Predicate)
    requires j < |tree| && tree[j].up < |tree|
  {
    var child, parent := tree[j].relation, tree[tree[j].up].relation;
    || (p.left == parent && p.leftColumn == tree[j].parentColumn && p.right == child && p.rightColumn == tree[j].ownColumn)
    || (p.right == parent && p.rightColumn == tree[j].parentColumn && p.left == child && p.leftColumn == tree[j].ownColumn)
  }

  /** The links are the predicates, and every relation is in the tree. */
  ghost predicate Spans(g: QueryGraph, tree: Tree) {
    && TreeOk(g, tree) && |tree| == RelationCount(g)
    && (forall j :: 0 < j < |tree| ==> LinkApplies(g, tree, j))
    && forall p :: p in g.predicates ==> AppliedBySome(g, tree, p)
  }

  ghost predicate LinkApplies(g: QueryGraph, tree: Tree, j: nat)
    requires TreeOk(g, tree) && 0 < j < |tree|
  {
    assert LinkOk(g, tree, j);
    exists p :: p in g.predicates && Applies(tree, j, p)
  }

  ghost predicate AppliedBySome(g: QueryGraph, tree: Tree, p: Predicate)
    requires TreeOk(g, tree)
  {
    exists j: nat :: 0 < j < |tree| && LinkOk(g, tree, j) && Applies(tree, j, p)
  }

  type Pick = map<nat, nat>

  ghost predicate PickOk(data: Data, rs: seq<nat>, pick: Pick) {
    forall r :: r in rs ==> r < |data| && r in pick && pick[r] < |data[r]|
  }

  /** The tuple of one chosen row per relation. */
  ghost function TupleFor(g: QueryGraph, data: Data, rs: seq<nat>, pick: Pick): Tuple
    requires DataOk(g, data) && PickOk(data, rs, pick)
  {
    if rs == [] then map[]
    else
      assert rs[0] in rs && forall r :: r in rs[1..] ==> r in rs;
      TupleOf(g, rs[0], data[rs[0]][pick[rs[0]]]) + TupleFor(g, data, rs[1..], pick)
  }

  lemma ValidIsOk(g: QueryGraph, data: Data)
    requires TypesGiven(g) && ValidData(g, data)
    ensures DataOk(g, data)
  {
    forall r, i | 0 <= r < |data| && 0 <= i < |data[r]| ensures |data[r][i]| == g.columnCounts[r] { assert ValidRow(g, r, data[r][i]); }
  }

  lemma {:induction false} TupleForKeys(g: QueryGraph, data: Data, rs: seq<nat>, pick: Pick)
    requires DataOk(g, data) && PickOk(data, rs, pick) && forall r :: r in rs ==> r < RelationCount(g)
    ensures TupleFor(g, data, rs, pick).Keys == AttrsJoined(g, rs)
  {
    if rs == [] {
      assert AttrsJoined(g, rs) == {};
    } else {
      assert rs[0] in rs && forall r :: r in rs[1..] ==> r in rs;
      TupleForKeys(g, data, rs[1..], pick);
      forall a ensures a in AttrsJoined(g, rs) <==> a in AttributesOf(g, rs[0]) || a in AttrsJoined(g, rs[1..]) {
        if a in AttrsJoined(g, rs) {
          var r :| r in rs && a in AttributesOf(g, r);
          assert r == rs[0] || r in rs[1..];
        }
      }
    }
  }

  lemma {:induction false} TupleForAt(g: QueryGraph, data: Data, rs: seq<nat>, pick: Pick, r: nat, c: nat)
    requires DataOk(g, data) && PickOk(data, rs, pick) && Distinct(rs) && (forall q :: q in rs ==> q < RelationCount(g))
    requires r in rs && r < RelationCount(g) && c < g.columnCounts[r]
    ensures var t := TupleFor(g, data, rs, pick); AttributeOf(g, r, c) in t && t[AttributeOf(g, r, c)] == data[r][pick[r]][c]
  {
    var rest := rs[1..];
    assert rs[0] in rs && forall q :: q in rest ==> q in rs;
    AttributeInjective(g, r, c, r, c);
    TupleForKeys(g, data, rest, pick);
    if r in rest {
      TupleForAt(g, data, rest, pick, r, c);
    } else {
      assert r == rs[0];
      if AttributeOf(g, r, c) in AttrsJoined(g, rest) {
        var q :| q in rest && AttributeOf(g, r, c) in AttributesOf(g, q);
        RelationsApart(g, r, q);
      }
    }
  }

  lemma {:induction false} TupleForSame(g: QueryGraph, data: Data, rs: seq<nat>, pick: Pick, other: Pick)
    requires DataOk(g, data) && PickOk(data, rs, pick) && PickOk(data, rs, other) && forall r :: r in rs ==> pick[r] == other[r]
    ensures TupleFor(g, data, rs, pick) == TupleFor(g, data, rs, other)
  {
    if rs != [] {
      assert rs[0] in rs && forall r :: r in rs[1..] ==> r in rs;
      TupleForSame(g, data, rs[1..], pick, other);
    }
  }

  /** A choice of rows is in the product. */
  lemma {:induction false} PickedInCross(g: QueryGraph, data: Data, rs: seq<nat>, pick: Pick)
    requires TypesGiven(g) && ValidData(g, data) && DataOk(g, data) && PickOk(data, rs, pick)
    requires forall r :: r in rs ==> r < RelationCount(g)
    ensures TupleFor(g, data, rs, pick) in CrossSeq(ScansOf(g, data, rs))
  {
    if rs != [] {
      assert rs[0] in rs && forall r :: r in rs[1..] ==> r in rs;
      PickedInCross(g, data, rs[1..], pick);
      assert ScansOf(g, data, rs)[1..] == ScansOf(g, data, rs[1..]);
      var row := TupleOf(g, rs[0], data[rs[0]][pick[rs[0]]]);
      assert Scanned(g, data, rs[0])[pick[rs[0]]] == row && row in Scanned(g, data, rs[0]);
      CrossMembers(Scanned(g, data, rs[0]), CrossSeq(ScansOf(g, data, rs[1..])), TupleFor(g, data, rs, pick));
    }
  }

  lemma CrossFront(g: QueryGraph, data: Data, rs: seq<nat>)
    requires TypesGiven(g) && ValidData(g, data) && rs != [] && forall r :: r in rs ==> r < RelationCount(g)
    requires forall r :: r in rs[1..] ==> r < RelationCount(g)
    ensures rs[0] in rs && CrossSeq(ScansOf(g, data, rs)) == Cross(Scanned(g, data, rs[0]), CrossSeq(ScansOf(g, data, rs[1..])))
  {
    assert ScansOf(g, data, rs)[1..] == ScansOf(g, data, rs[1..]);
  }

  lemma NothingPicked(g: QueryGraph, data: Data, t: Tuple)
    requires TypesGiven(g) && ValidData(g, data) && DataOk(g, data) && t in CrossSeq(ScansOf(g, data, []))
    ensures t == map[] && PickOk(data, [], map[]) && TupleFor(g, data, [], map[]) == map[]
  {}

  /** Every tuple of the product is a choice of rows. */
  lemma {:induction false} CrossPicks(g: QueryGraph, data: Data, rs: seq<nat>, t: Tuple) returns (pick: Pick)
    requires TypesGiven(g) && ValidData(g, data) && DataOk(g, data) && Distinct(rs) && forall r :: r in rs ==> r < RelationCount(g)
    requires t in CrossSeq(ScansOf(g, data, rs))
    ensures PickOk(data, rs, pick) && t == TupleFor(g, data, rs, pick)
  {
    hide ValidData, TupleOf, Cross, CrossSeq;
    if rs == [] {
      NothingPicked(g, data, t);
      pick := map[];
    } else {
      var r0, rest := rs[0], rs[1..];
      assert r0 in rs && forall r :: r in rest ==> r in rs;
      assert Distinct(rest);
      hide PickOk, TupleFor, Distinct;
      CrossFront(g, data, rs);
      CrossMembers(Scanned(g, data, r0), CrossSeq(ScansOf(g, data, rest)), t);
      var x, y :| x in Scanned(g, data, r0) && y in CrossSeq(ScansOf(g, data, rest)) && t == x + y;
      var later := CrossPicks(g, data, rest, y);
      var i: nat :| i < |data[r0]| && x == TupleOf(g, r0, data[r0][i]);
      pick := later[r0 := i];
      PickMore(g, data, rs, later, i);
    }
  }

  lemma PickMore(g: QueryGraph, data: Data, rs: seq<nat>, later: Pick, i: nat)
    requires DataOk(g, data) && Distinct(rs) && rs != [] && PickOk(data, rs[1..], later)
    requires rs[0] < |data| && i < |data[rs[0]]|
    ensures PickOk(data, rs, later[rs[0] := i])
    ensures TupleFor(g, data, rs, later[rs[0] := i]) == TupleOf(g, rs[0], data[rs[0]][i]) + TupleFor(g, data, rs[1..], later)
  {
    var r0, rest := rs[0], rs[1..];
    assert rs == [r0] + rest;
    assert forall r :: r in rest ==> r != r0;
    TupleForSame(g, data, rest, later, later[r0 := i]);
  }

  /** The positions of the tree as a choice of rows. */
  ghost function PickOf(tree: Tree, ch: seq<nat>): Pick
    requires |ch| == |tree|
  {
    if tree == [] then map[]
    else
      var n := |tree| - 1;
      PickOf(tree[..n], ch[..n])[tree[n].relation := ch[n]]
  }

  lemma {:induction false} PickOfAt(tree: Tree, ch: seq<nat>, i: nat)
    requires |ch| == |tree| && i < |tree| && forall a, b :: 0 <= a < b < |tree| ==> tree[a].relation != tree[b].relation
    ensures tree[i].relation in PickOf(tree, ch) && PickOf(tree, ch)[tree[i].relation] == ch[i]
    decreases |tree|
  {
    var n := |tree| - 1;
    if i < n { PickOfAt(tree[..n], ch[..n], i); }
  }

  //
  // The root's rows
  //

  /** A tuple carries this row of the root. */
  ghost predicate RootRow(g: QueryGraph, data: Data, tree: Tree, t: Tuple, y: nat)
    requires TreeOk(g, tree) && DataOk(g, data) && y < |RowsAt(data, tree, 0)|
  {
    forall c :: 0 <= c < g.columnCounts[tree[0].relation] ==>
      AttributeOf(g, tree[0].relation, c) in t && t[AttributeOf(g, tree[0].relation, c)] == RowsAt(data, tree, 0)[y][c]
  }

  ghost predicate Carries(g: QueryGraph, data: Data, tree: Tree, t: Tuple, ch: seq<nat>)
    requires TreeOk(g, tree) && DataOk(g, data) && |ch| == |tree| && forall i :: 0 <= i < |ch| ==> ch[i] < |RowsAt(data, tree, i)|
  {
    forall i, c :: 0 <= i < |tree| && 0 <= c < g.columnCounts[tree[i].relation] ==>
      AttributeOf(g, tree[i].relation, c) in t && t[AttributeOf(g, tree[i].relation, c)] == RowsAt(data, tree, i)[ch[i]][c]
  }

  lemma DistinctRelationList(g: QueryGraph)
    ensures Distinct(Relations(g)) && forall r :: 0 <= r < RelationCount(g) ==> r in Relations(g)
  {
    forall r | 0 <= r < RelationCount(g) ensures r in Relations(g) { assert Relations(g)[r] == r; }
  }

  lemma PickCarries(g: QueryGraph, data: Data, tree: Tree, pick: Pick, ch: seq<nat>)
    requires TreeOk(g, tree) && DataOk(g, data) && PickOk(data, Relations(g), pick) && |ch| == |tree|
    requires forall i :: 0 <= i < |tree| ==> tree[i].relation in pick && ch[i] == pick[tree[i].relation] && ch[i] < |RowsAt(data, tree, i)|
    ensures Carries(g, data, tree, TupleFor(g, data, Relations(g), pick), ch)
  {
    hide TupleFor, AttributesOf;
    DistinctRelationList(g);
    var t := TupleFor(g, data, Relations(g), pick);
    forall i, c | 0 <= i < |tree| && 0 <= c < g.columnCounts[tree[i].relation]
      ensures AttributeOf(g, tree[i].relation, c) in t
      ensures t[AttributeOf(g, tree[i].relation, c)] == RowsAt(data, tree, i)[ch[i]][c]
    {
      TupleForAt(g, data, Relations(g), pick, tree[i].relation, c);
    }
  }

  /** On the rows a tuple carries, a predicate says what its link says. */
  lemma AppliedMeans(g: QueryGraph, data: Data, tree: Tree, t: Tuple, ch: seq<nat>, j: nat, p: Predicate)
    requires TreeOk(g, tree) && DataOk(g, data) && |ch| == |tree| && (forall i :: 0 <= i < |ch| ==> ch[i] < |RowsAt(data, tree, i)|)
    requires Carries(g, data, tree, t, ch) && 0 < j < |tree| && LinkOk(g, tree, j) && Applies(tree, j, p)
    ensures Sat(t, g, p) <==> MatchesAt(g, data, tree, ch, j)
  {}

  /** A join row picks matching rows. */
  lemma JoinRowMatches(g: QueryGraph, data: Data, tree: Tree, t: Tuple) returns (ch: seq<nat>)
    requires TypesGiven(g) && ValidData(g, data) && DataOk(g, data) && Spans(g, tree) && t in FlatJoin(g, data, g.predicates)
    ensures Matches(g, data, tree, ch, |tree|) && Carries(g, data, tree, t, ch)
  {
    hide TupleFor, CrossSeq, Carries, ValidData, Sat, Applies;
    var rs := Relations(g);
    DistinctRelationList(g);
    FilterMembers(CrossSeq(ScansOf(g, data, rs)), Satisfies(g, g.predicates));
    var pick := CrossPicks(g, data, rs, t);
    ch := seq(|tree|, i requires 0 <= i < |tree| => pick[tree[i].relation]);
    PickCarries(g, data, tree, pick, ch);
    forall j | 0 < j < |tree| ensures MatchesAt(g, data, tree, ch, j) {
      assert LinkOk(g, tree, j) && LinkApplies(g, tree, j);
      var p :| p in g.predicates && Applies(tree, j, p);
      AppliedMeans(g, data, tree, t, ch, j, p);
    }
  }

  /** Matching rows make a join row. */
  lemma MatchIsJoinRow(g: QueryGraph, data: Data, tree: Tree, ch: seq<nat>) returns (t: Tuple)
    requires TypesGiven(g) && ValidData(g, data) && DataOk(g, data) && Spans(g, tree) && Matches(g, data, tree, ch, |tree|)
    ensures t in FlatJoin(g, data, g.predicates) && Carries(g, data, tree, t, ch)
  {
    hide TupleFor, CrossSeq, Carries, ValidData, Sat, Applies, Linked;
    var rs, pick := Relations(g), PickOf(tree, ch);
    forall i | 0 <= i < |tree| ensures tree[i].relation in pick && ch[i] == pick[tree[i].relation] { PickOfAt(tree, ch, i); }
    forall r | r in rs ensures r < |data| && r in pick && pick[r] < |data[r]| {
      var i := RelationIn(g, tree, r);
    }
    t := TupleFor(g, data, rs, pick);
    PickedInCross(g, data, rs, pick);
    PickCarries(g, data, tree, pick, ch);
    forall p | p in g.predicates ensures Sat(t, g, p) {
      assert AppliedBySome(g, tree, p);
      var j: nat :| 0 < j < |tree| && LinkOk(g, tree, j) && Applies(tree, j, p);
      AppliedMeans(g, data, tree, t, ch, j, p);
    }
    FilterMembers(CrossSeq(ScansOf(g, data, rs)), Satisfies(g, g.predicates));
  }

  /** As many different relations as there are: every one is in the tree. */
  lemma RelationIn(g: QueryGraph, tree: Tree, r: nat) returns (i: nat)
    requires TreeOk(g, tree) && |tree| == RelationCount(g) && r < RelationCount(g)
    ensures i < |tree| && tree[i].relation == r
  {
    var rs: seq<nat> := seq(|tree|, k requires 0 <= k < |tree| => tree[k].relation);
    forall a, b | 0 <= a < b < |rs| ensures rs[a] != rs[b] {}
    DistinctSize(rs);
    assert SetOf(rs) <= UpTo(RelationCount(g));
    SubsetSize(SetOf(rs), UpTo(RelationCount(g)));
    assert r in UpTo(RelationCount(g)) && SetOf(rs) == UpTo(RelationCount(g));
    assert r in SetOf(rs) && r in rs;
    i :| 0 <= i < |rs| && rs[i] == r;
  }

  /** The surviving root rows are the root rows of the join. */
  lemma SurvivorsAreJoined(g: QueryGraph, data: Data, tree: Tree, y: nat)
    requires TypesGiven(g) && ValidData(g, data) && DataOk(g, data) && Spans(g, tree) && Survives(g, data, tree, 0, y)
    ensures exists t :: t in FlatJoin(g, data, g.predicates) && RootRow(g, data, tree, t, y)
  {
    var ch := Extends(g, data, tree, y, |tree|);
    var t := MatchIsJoinRow(g, data, tree, ch);
  }

  lemma JoinedSurvive(g: QueryGraph, data: Data, tree: Tree, t: Tuple) returns (y: nat)
    requires TypesGiven(g) && ValidData(g, data) && DataOk(g, data) && Spans(g, tree) && t in FlatJoin(g, data, g.predicates)
    ensures Survives(g, data, tree, 0, y) && RootRow(g, data, tree, t, y)
  {
    var ch := JoinRowMatches(g, data, tree, t);
    MatchedSurvive(g, data, tree, ch, 0);
    y := ch[0];
  }

  /** A value held by some surviving root row and beaten by none. */
  ghost predicate BestSurvivor(g: QueryGraph, data: Data, tree: Tree, column: nat, any: bool, value: int, wantMax: bool)
    requires TreeOk(g, tree) && DataOk(g, data) && column < g.columnCounts[tree[0].relation]
  {
    && (any <==> exists y: nat :: Survives(g, data, tree, 0, y))
    && (any ==> exists y: nat :: Survives(g, data, tree, 0, y) && RowsAt(data, tree, 0)[y][column] == value)
    && forall y: nat :: Survives(g, data, tree, 0, y) ==> NoBetter(RowsAt(data, tree, 0)[y][column], value, wantMax)
  }

  predicate NoBetter(x: int, best: int, wantMax: bool) {
    if wantMax then x <= best else best <= x
  }

  lemma ColumnRange(g: QueryGraph, data: Data, tree: Tree, column: nat)
    requires TypesGiven(g) && ValidData(g, data) && DataOk(g, data) && Spans(g, tree) && column < g.columnCounts[tree[0].relation]
    ensures InRange64(FlatJoin(g, data, g.predicates), AttributeOf(g, tree[0].relation, column))
  {
    var a, r := AttributeOf(g, tree[0].relation, column), tree[0].relation;
    forall t | t in FlatJoin(g, data, g.predicates) && a in t ensures Int64(t[a]) {
      var y := JoinedSurvive(g, data, tree, t);
      assert ValidRow(g, r, data[r][y]);
      assert InRange(g.columnTypes[r][column], data[r][y][column]);
    }
  }

  /** Some row carries the value, and none a greater one, or none a lesser one. */
  ghost predicate AttainedBound(b: seq<Tuple>, a: Attr, value: int, greatest: bool) {
    && (exists t :: t in b && a in t && t[a] == value)
    && forall t :: t in b && a in t ==> if greatest then t[a] <= value else value <= t[a]
  }

  /** The best survivor is the extreme of the column over the join. */
  lemma BestIsExtreme(g: QueryGraph, data: Data, tree: Tree, column: nat, any: bool, value: int, wantMax: bool)
    requires TypesGiven(g) && ValidData(g, data) && DataOk(g, data) && Spans(g, tree) && column < g.columnCounts[tree[0].relation]
    requires BestSurvivor(g, data, tree, column, any, value, wantMax)
    ensures any <==> FlatJoin(g, data, g.predicates) != []
    ensures any ==> value == ExtremeOf(FlatJoin(g, data, g.predicates), AttributeOf(g, tree[0].relation, column), wantMax)
    ensures any ==> AttainedBound(FlatJoin(g, data, g.predicates), AttributeOf(g, tree[0].relation, column), value, wantMax)
  {
    hide FlatJoin;
    var b, a := FlatJoin(g, data, g.predicates), AttributeOf(g, tree[0].relation, column);
    if b != [] {
      assert b[0] in b;
      var y := JoinedSurvive(g, data, tree, b[0]);
    }
    if any {
      ColumnRange(g, data, tree, column);
      ExtremeIs(b, a, wantMax);
      var y: nat :| Survives(g, data, tree, 0, y) && RowsAt(data, tree, 0)[y][column] == value;
      SurvivorsAreJoined(g, data, tree, y);
      var t :| t in b && RootRow(g, data, tree, t, y);
      assert a in t && t[a] == value;
      var u :| u in b && a in u && u[a] == ExtremeOf(b, a, wantMax);
      var z := JoinedSurvive(g, data, tree, u);
      assert NoBetter(RowsAt(data, tree, 0)[z][column], value, wantMax);
    }
  }
}
