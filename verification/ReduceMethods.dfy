/** A minimum or maximum over a join that is a tree, from the inputs alone: every relation is
    reduced to the keys that reach the leaves below it, and the root's surviving rows decide. */
module ReduceMethods {
  import opened Outcomes
  import opened Restructuring
  import opened Graphs
  import opened Plans
  import opened Answering
  import opened Sums
  import opened Acyclic
  import opened Reduction
  import opened KeySets
  import opened ShardedSets

  //
  // Reducing one relation
  //

  /** Where a child's keys are asked for: a column of the parent, and the child's keys. */
  datatype Probe = Probe(column: nat, keys: ShardedKeySet)

  /** The row has a partner in every child. */
  predicate Passes(row: Row, columns: seq<nat>, sets: seq<set<int>>)
    requires |columns| == |sets|
  {
    forall i :: 0 <= i < |columns| ==> columns[i] < |row| && row[columns[i]] in sets[i]
  }

  /** The keys of the rows of a stretch that pass. */
  function KeysBetween(rows: seq<Row>, from: nat, to: nat, columns: seq<nat>, sets: seq<set<int>>, key: nat): set<int>
    requires |columns| == |sets| && to <= |rows|
  {
    if to <= from then {}
    else
      KeysBetween(rows, from, to - 1, columns, sets, key)
        + if Passes(rows[to - 1], columns, sets) && key < |rows[to - 1]| then {rows[to - 1][key]} else {}
  }

  lemma {:induction false} KeysJoin(rows: seq<Row>, from: nat, mid: nat, to: nat, columns: seq<nat>, sets: seq<set<int>>, key: nat)
    requires |columns| == |sets| && from <= mid <= to <= |rows|
    ensures KeysBetween(rows, from, to, columns, sets, key)
         == KeysBetween(rows, from, mid, columns, sets, key) + KeysBetween(rows, mid, to, columns, sets, key)
  {
    if mid < to { KeysJoin(rows, from, mid, to - 1, columns, sets, key); }
  }

  predicate SomeRowHas(rows: seq<Row>, to: nat, columns: seq<nat>, sets: seq<set<int>>, key: nat, k: int)
    requires |columns| == |sets| && to <= |rows|
  {
    exists y :: 0 <= y < to && Passes(rows[y], columns, sets) && key < |rows[y]| && rows[y][key] == k
  }

  lemma {:induction false} KeysBetweenAre(rows: seq<Row>, to: nat, columns: seq<nat>, sets: seq<set<int>>, key: nat)
    requires |columns| == |sets| && to <= |rows|
    ensures forall k :: k in KeysBetween(rows, 0, to, columns, sets, key) <==> SomeRowHas(rows, to, columns, sets, key, k)
  {
    if to > 0 { KeysBetweenAre(rows, to - 1, columns, sets, key); }
  }

  ghost function ProbeTables(probes: seq<Probe>): set<KeySet> {
    set p, t | p in probes && t in p.keys.tables :: t
  }

  ghost predicate HoldsKeys(keys: ShardedKeySet, kept: set<int>)
    reads keys.tables, set t | t in keys.tables :: t.slots
  {
    keys.Valid() && keys.Sorted() && keys.Keys() == kept
  }

  ghost predicate ProbesOk(probes: seq<Probe>, columns: seq<nat>, sets: seq<set<int>>)
    reads ProbeTables(probes), set t | t in ProbeTables(probes) :: t.slots
  {
    && |columns| == |probes| == |sets|
    && forall i :: 0 <= i < |probes| ==>
         assert probes[i] in probes;
         assert forall t :: t in probes[i].keys.tables ==> t in ProbeTables(probes);
         columns[i] == probes[i].column && HoldsKeys(probes[i].keys, sets[i])
  }

  method RowPasses(row: Row, probes: seq<Probe>, ghost columns: seq<nat>, ghost sets: seq<set<int>>) returns (ok: bool)
    requires ProbesOk(probes, columns, sets) && forall p :: p in probes ==> p.column < |row|
    ensures |columns| == |sets| && ok == Passes(row, columns, sets)
  {
    for i := 0 to |probes|
      invariant forall j :: 0 <= j < i ==> columns[j] < |row| && row[columns[j]] in sets[j]
    {
      assert probes[i] in probes;
      var found := probes[i].keys.Contains(row[probes[i].column]);
      if !found { return false; }
    }
    return true;
  }

  ghost predicate WideEnough(rows: seq<Row>, probes: seq<Probe>, column: nat) {
    forall i :: 0 <= i < |rows| ==> RowWide(rows[i], probes, column)
  }

  ghost predicate RowWide(row: Row, probes: seq<Probe>, column: nat) {
    column < |row| && forall p :: p in probes ==> p.column < |row|
  }

  /** One worker's bucket for a shard holds its keys that belong there. */
  ghost predicate BucketIs(bucket: seq<Bucket>, keys: set<int>, mix: int -> nat, shards: nat)
    requires shards > 0
  {
    |bucket| == shards && forall s, k :: 0 <= s < shards ==> (k in bucket[s] <==> k in keys && ShardOf(mix(k), shards) == s)
  }

  /** First round: one worker probes its stretch of rows and sorts the keys it keeps by shard. It
      only reads the children's tables. */
  method ProbeSpan(rows: seq<Row>, from: nat, to: nat, probes: seq<Probe>, key: nat, mix: int -> nat, shards: nat,
                   ghost columns: seq<nat>, ghost sets: seq<set<int>>) returns (bucket: seq<Bucket>)
    requires from <= to <= |rows| && shards > 0 && ProbesOk(probes, columns, sets) && WideEnough(rows, probes, key)
    ensures |columns| == |sets| && BucketIs(bucket, KeysBetween(rows, from, to, columns, sets, key), mix, shards)
  {
    hide Passes;
    ProbesSame(probes, columns, sets);
    bucket := seq(shards, s => []);
    for row := from to to
      invariant ProbesOk(probes, columns, sets)
      invariant BucketIs(bucket, KeysBetween(rows, from, row, columns, sets, key), mix, shards)
    {
      assert RowWide(rows[row], probes, key);
      var ok := RowPasses(rows[row], probes, columns, sets);
      if !ok { continue; }
      var k := rows[row][key];
      var s := ShardOf(mix(k), shards);
      bucket := bucket[s := bucket[s] + [k]];
    }
  }

  lemma ProbesSame(probes: seq<Probe>, columns: seq<nat>, sets: seq<set<int>>)
    requires ProbesOk(probes, columns, sets)
    ensures |columns| == |sets| == |probes|
  {}

  lemma PoolMore(buckets: seq<seq<Bucket>>, keys: set<int>, bucket: seq<Bucket>, more: set<int>, mix: int -> nat, shards: nat)
    requires shards > 0 && Shaped(buckets, shards) && Pooled(buckets, keys, mix, shards) && BucketIs(bucket, more, mix, shards)
    ensures Shaped(buckets + [bucket], shards) && Pooled(buckets + [bucket], keys + more, mix, shards)
  {
    forall s | 0 <= s < shards ensures PooledAt(buckets + [bucket], keys + more, mix, shards, s) {
      assert PooledAt(buckets, keys, mix, shards, s);
      PouredPrefix(buckets, bucket, s, |buckets|);
    }
  }

  lemma PoolNothing(mix: int -> nat, shards: nat)
    requires shards > 0
    ensures Shaped([], shards) && Pooled([], {}, mix, shards)
  {
    forall s | 0 <= s < shards ensures PooledAt([], {}, mix, shards, s) {}
  }

  const ROW_FLOOR: nat := 65536

  /** A power of two, at most the threads and at most 64. */
  method ParallelWorkers(threads: nat) returns (workers: nat)
    ensures 0 < workers <= 64 && (workers <= threads || workers == 1)
    ensures workers in {1, 2, 4, 8, 16, 32, 64} && (workers * 2 > threads || workers == 64)
  {
    workers := 1;
    while workers * 2 <= threads && workers < 64
      invariant workers in {1, 2, 4, 8, 16, 32, 64} && (workers <= threads || workers == 1)
      decreases 64 - workers
    {
      workers := workers * 2;
    }
  }

  function Cut(i: nat, span: nat, rows: nat): (c: nat)
    ensures c <= rows
  {
    if i * span < rows then i * span else rows
  }

  lemma Cuts(rows: nat, workers: nat, span: nat)
    requires workers > 0 && span == (rows + workers - 1) / workers
    ensures Cut(0, span, rows) == 0 && Cut(workers, span, rows) == rows
  {
    CeilingCovers(rows, workers, span);
  }

  lemma CutsOrdered(rows: nat, span: nat, i: nat)
    ensures Cut(i, span, rows) <= Cut(i + 1, span, rows)
  {
    Scaled(i, i + 1, span);
  }

  lemma Scaled(i: nat, j: nat, s: nat)
    requires i <= j
    ensures i * s <= j * s
  {}

  lemma CeilingCovers(rows: nat, workers: nat, span: nat)
    requires workers > 0 && span == (rows + workers - 1) / workers
    ensures workers * span >= rows
  {
    var r := (rows + workers - 1) % workers;
    assert rows + workers - 1 == workers * span + r && r < workers;
  }

  /** The keys of the rows with a partner in every child, found in two rounds over the rows. */
  method ReduceKeys(rows: seq<Row>, probes: seq<Probe>, key: nat, mix: int -> nat, threads: nat,
                    ghost columns: seq<nat>, ghost sets: seq<set<int>>) returns (r: Outcome<ShardedKeySet>)
    requires ProbesOk(probes, columns, sets) && WideEnough(rows, probes, key)
    ensures |columns| == |sets| && (r.Failed? ==> r.error == OutOfMemory)
    ensures r.Ok? ==> HoldsKeys(r.value, KeysBetween(rows, 0, |rows|, columns, sets, key))
  {
    hide Pooled, BucketIs, Shaped, KeysBetween, WideEnough;
    ProbesSame(probes, columns, sets);
    var workers := 1;
    if |rows| >= ROW_FLOOR { workers := ParallelWorkers(threads); }
    var span := (|rows| + workers - 1) / workers;
    Cuts(|rows|, workers, span);
    var buckets: seq<seq<Bucket>> := [];
    PoolNothing(mix, workers);
    NoKeys(rows, columns, sets, key);
    for worker := 0 to workers
      invariant ProbesOk(probes, columns, sets) && Shaped(buckets, workers)
      invariant Pooled(buckets, KeysBetween(rows, 0, Cut(worker, span, |rows|), columns, sets, key), mix, workers)
    {
      var from, to := Cut(worker, span, |rows|), Cut(worker + 1, span, |rows|);
      CutsOrdered(|rows|, span, worker);
      var bucket := ProbeSpan(rows, from, to, probes, key, mix, workers, columns, sets);
      PoolMore(buckets, KeysBetween(rows, 0, from, columns, sets, key), bucket, KeysBetween(rows, from, to, columns, sets, key), mix, workers);
      KeysJoin(rows, 0, from, to, columns, sets, key);
      buckets := buckets + [bucket];
    }
    if * { return Failed(OutOfMemory); }
    var keys := new ShardedKeySet(mix, workers);
    keys.Fill(buckets, KeysBetween(rows, 0, |rows|, columns, sets, key));
    if * { return Failed(OutOfMemory); }
    return Ok(keys);
  }

  lemma NoKeys(rows: seq<Row>, columns: seq<nat>, sets: seq<set<int>>, key: nat)
    requires |columns| == |sets|
    ensures KeysBetween(rows, 0, 0, columns, sets, key) == {}
  {}

  //
  // The root
  //

  /** A passing row of the stretch holds the value, none a better one. */
  ghost predicate BestIn(rows: seq<Row>, from: nat, to: nat, columns: seq<nat>, sets: seq<set<int>>, column: nat, any: bool, value: int,
                         wantMax: bool)
    requires |columns| == |sets| && to <= |rows|
  {
    && (any ==> exists y :: from <= y < to && Held(rows[y], columns, sets, column, value))
    && (!any ==> forall y :: from <= y < to ==> !Passes(rows[y], columns, sets))
    && forall y :: from <= y < to && Passes(rows[y], columns, sets) && column < |rows[y]| ==> NoBetter(rows[y][column], value, wantMax)
  }

  predicate Held(row: Row, columns: seq<nat>, sets: seq<set<int>>, column: nat, value: int)
    requires |columns| == |sets|
  {
    Passes(row, columns, sets) && column < |row| && row[column] == value
  }

  datatype Best = Best(any: bool, value: int)

  /** The better of two stretches. */
  function BetterOf(a: Best, b: Best, wantMax: bool): Best {
    if !b.any then a
    else if !a.any || (if wantMax then b.value > a.value else b.value < a.value) then b
    else a
  }

  lemma BestJoin(rows: seq<Row>, from: nat, mid: nat, to: nat, columns: seq<nat>, sets: seq<set<int>>, column: nat, a: Best, b: Best,
                 wantMax: bool)
    requires |columns| == |sets| && from <= mid <= to <= |rows|
    requires BestIn(rows, from, mid, columns, sets, column, a.any, a.value, wantMax)
    requires BestIn(rows, mid, to, columns, sets, column, b.any, b.value, wantMax)
    ensures var c := BetterOf(a, b, wantMax); BestIn(rows, from, to, columns, sets, column, c.any, c.value, wantMax)
  {
    hide Passes;
    var c := BetterOf(a, b, wantMax);
    if c.any {
      if c == b && b.any {
        var y :| mid <= y < to && Held(rows[y], columns, sets, column, b.value);
      } else {
        var y :| from <= y < mid && Held(rows[y], columns, sets, column, a.value);
      }
    }
  }

  method BestSpan(rows: seq<Row>, from: nat, to: nat, probes: seq<Probe>, column: nat, wantMax: bool,
                  ghost columns: seq<nat>, ghost sets: seq<set<int>>) returns (best: Best)
    requires from <= to <= |rows| && ProbesOk(probes, columns, sets) && WideEnough(rows, probes, column)
    ensures |columns| == |sets| && BestIn(rows, from, to, columns, sets, column, best.any, best.value, wantMax)
  {
    hide Passes;
    ProbesSame(probes, columns, sets);
    best := Best(false, 0);
    for row := from to to
      invariant ProbesOk(probes, columns, sets)
      invariant BestIn(rows, from, row, columns, sets, column, best.any, best.value, wantMax)
    {
      assert RowWide(rows[row], probes, column);
      var ok := RowPasses(rows[row], probes, columns, sets);
      if !ok { continue; }
      var value := rows[row][column];
      assert Held(rows[row], columns, sets, column, value);
      if !best.any || (if wantMax then value > best.value else value < best.value) { best := Best(true, value); }
    }
  }

  /** The best value among the root's surviving rows, from the workers' bests. */
  method ReduceRoot(rows: seq<Row>, probes: seq<Probe>, column: nat, wantMax: bool, threads: nat,
                    ghost columns: seq<nat>, ghost sets: seq<set<int>>) returns (r: Outcome<Best>)
    requires ProbesOk(probes, columns, sets) && WideEnough(rows, probes, column)
    ensures |columns| == |sets| && (r.Failed? ==> r.error == OutOfMemory)
    ensures r.Ok? ==> BestIn(rows, 0, |rows|, columns, sets, column, r.value.any, r.value.value, wantMax)
  {
    hide BestIn, WideEnough, BetterOf;
    ProbesSame(probes, columns, sets);
    var workers := 1;
    if |rows| >= ROW_FLOOR { workers := ParallelWorkers(threads); }
    var span := (|rows| + workers - 1) / workers;
    Cuts(|rows|, workers, span);
    var best := Best(false, 0);
    NoBest(rows, columns, sets, column, wantMax);
    for worker := 0 to workers
      invariant ProbesOk(probes, columns, sets)
      invariant BestIn(rows, 0, Cut(worker, span, |rows|), columns, sets, column, best.any, best.value, wantMax)
    {
      var from, to := Cut(worker, span, |rows|), Cut(worker + 1, span, |rows|);
      CutsOrdered(|rows|, span, worker);
      var mine := BestSpan(rows, from, to, probes, column, wantMax, columns, sets);
      BestJoin(rows, 0, from, to, columns, sets, column, best, mine, wantMax);
      best := BetterOf(best, mine, wantMax);
    }
    if * { return Failed(OutOfMemory); }
    return Ok(best);
  }

  lemma NoBest(rows: seq<Row>, columns: seq<nat>, sets: seq<set<int>>, column: nat, wantMax: bool)
    requires |columns| == |sets|
    ensures BestIn(rows, 0, 0, columns, sets, column, false, 0, wantMax)
  {}

  //
  // The tree
  //

  /** A relation below the root: who it hangs from, and on which columns. */
  datatype ReductionNode = ReductionNode(parent: nat, ownColumn: nat, parentColumn: nat)

  ghost predicate NodeIs(tree: Tree, order: seq<nat>, node: seq<ReductionNode>, j: nat)
    requires j < |tree| == |order| && tree[j].up < |order| && order[j] < |node|
  {
    node[order[j]] == ReductionNode(order[tree[j].up], tree[j].ownColumn, tree[j].parentColumn)
  }

  ghost predicate ChildrenAre(tree: Tree, order: seq<nat>, children: seq<seq<nat>>, a: nat)
    requires a < |tree| == |order| && order[a] < |children|
  {
    forall c :: c in children[order[a]] <==> exists j: nat :: IsChild(tree, a, j, c)
  }

  ghost predicate IsChild(tree: Tree, a: nat, j: nat, c: nat) {
    0 < j < |tree| && tree[j].up == a && tree[j].relation == c
  }

  /** Which predicate each link came from; none twice. */
  ghost predicate FromPredicates(g: QueryGraph, tree: Tree, edges: seq<nat>, used: set<nat>)
    requires TreeOk(g, tree)
  {
    && |edges| == |tree|
    && (forall j :: 0 < j < |tree| ==> LinkOk(g, tree, j) && edges[j] < |g.predicates| && Applies(tree, j, g.predicates[edges[j]]))
    && (forall i, j :: 0 < i < j < |tree| ==> edges[i] != edges[j])
    && forall e :: e in used <==> exists j :: 0 < j < |edges| && edges[j] == e
  }

  /** The walk so far: the order, the nodes, the children, and the links they make. */
  ghost predicate Growing(g: QueryGraph, order: seq<nat>, node: seq<ReductionNode>, children: seq<seq<nat>>, tree: Tree, edges: seq<nat>,
                          used: set<nat>) {
    && TreeOk(g, tree) && |order| == |tree| && |node| == |children| == RelationCount(g)
    && (forall i :: 0 <= i < |tree| ==> order[i] == tree[i].relation)
    && (forall j :: 0 < j < |tree| ==> LinkOk(g, tree, j) && NodeIs(tree, order, node, j))
    && (forall a :: 0 <= a < |tree| ==> ChildrenAre(tree, order, children, a))
    && (forall r :: 0 <= r < |children| && r !in order ==> children[r] == [])
    && FromPredicates(g, tree, edges, used)
  }

  lemma GrowTree(g: QueryGraph, tree: Tree, link: Link)
    requires TreeOk(g, tree) && link.relation < RelationCount(g) && (forall i :: 0 <= i < |tree| ==> tree[i].relation != link.relation)
    requires link.up < |tree| && link.ownColumn < g.columnCounts[link.relation]
    requires link.parentColumn < g.columnCounts[tree[link.up].relation]
    ensures TreeOk(g, tree + [link])
    ensures forall j :: 0 < j < |tree| + 1 ==> LinkOk(g, tree + [link], j)
  {
    forall j | 0 < j < |tree| + 1 ensures LinkOk(g, tree + [link], j) {
      if j < |tree| { assert LinkOk(g, tree, j); }
    }
  }

  /** One more child. */
  lemma Grow(g: QueryGraph, order: seq<nat>, node: seq<ReductionNode>, children: seq<seq<nat>>, tree: Tree, edges: seq<nat>, used: set<nat>,
             head: nat, child: nat, own: nat, par: nat, e: nat)
    requires Growing(g, order, node, children, tree, edges, used) && head < |order| && child < RelationCount(g) && child !in order
    requires own < g.columnCounts[child] && order[head] < RelationCount(g) && par < g.columnCounts[order[head]]
    requires e < |g.predicates| && e !in used
    requires var p := g.predicates[e];
      || (p.left == order[head] && p.leftColumn == par && p.right == child && p.rightColumn == own)
      || (p.right == order[head] && p.rightColumn == par && p.left == child && p.leftColumn == own)
    ensures Growing(g, order + [child], node[child := ReductionNode(order[head], own, par)],
                    children[order[head] := children[order[head]] + [child]],
                    tree + [Link(child, head, own, par)], edges + [e], used + {e})
  {
    var link := Link(child, head, own, par);
    var tree', order', edges' := tree + [link], order + [child], edges + [e];
    var node', children' := node[child := ReductionNode(order[head], own, par)], children[order[head] := children[order[head]] + [child]];
    forall i | 0 <= i < |tree| ensures tree[i].relation != child { assert order[i] in order; }
    GrowTree(g, tree, link);
    forall i | 0 <= i < |tree'| ensures order'[i] == tree'[i].relation {}
    forall j | 0 < j < |tree| ensures tree[j].up < j { assert LinkOk(g, tree, j); }
    forall j | 0 < j < |tree'| ensures tree'[j].up < j && order'[j] < |node'| { assert LinkOk(g, tree', j); }
    forall j | 0 < j < |tree'| ensures NodeIs(tree', order', node', j) {
      if j < |tree| { assert NodeIs(tree, order, node, j) && order[j] != child; }
    }
    GrowChildren(tree, order, children, link, tree', order', children');
    GrowEdges(g, tree, edges, used, link, e);
    forall r | 0 <= r < |children'| && r !in order' ensures children'[r] == [] { assert order[head] in order; }
  }

  lemma GrowChildren(tree: Tree, order: seq<nat>, children: seq<seq<nat>>, link: Link,
                     tree': Tree, order': seq<nat>, children': seq<seq<nat>>)
    requires |tree| == |order| && tree != [] && link.up < |tree| && link.relation < |children| && link.relation !in order
    requires (forall i :: 0 <= i < |order| ==> order[i] < |children|) && children[link.relation] == []
    requires forall i, j :: 0 <= i < j < |order| ==> order[i] != order[j]
    requires forall j :: 0 < j < |tree| ==> tree[j].up < j
    requires forall a :: 0 <= a < |tree| ==> ChildrenAre(tree, order, children, a)
    requires tree' == tree + [link] && order' == order + [link.relation]
    requires children' == children[order[link.up] := children[order[link.up]] + [link.relation]]
    ensures forall a :: 0 <= a < |tree'| ==> ChildrenAre(tree', order', children', a)
  {
    var n := |tree|;
    forall a | 0 <= a < |tree'| ensures ChildrenAre(tree', order', children', a) {
      assert IsChild(tree', link.up, n, link.relation);
      forall j: nat, c: nat ensures IsChild(tree', a, j, c) <==> IsChild(tree, a, j, c) || (a == link.up && j == n && c == link.relation) {}
      if a < n {
        assert ChildrenAre(tree, order, children, a);
        assert order[a] in order && (a != link.up ==> order[a] != order[link.up]);
      }
    }
  }

  lemma GrowEdges(g: QueryGraph, tree: Tree, edges: seq<nat>, used: set<nat>, link: Link, e: nat)
    requires TreeOk(g, tree) && TreeOk(g, tree + [link]) && FromPredicates(g, tree, edges, used)
    requires (forall j :: 0 < j < |tree| + 1 ==> LinkOk(g, tree + [link], j)) && e < |g.predicates| && e !in used
    requires link.up < |tree| && Applies(tree + [link], |tree|, g.predicates[e])
    ensures FromPredicates(g, tree + [link], edges + [e], used + {e})
  {
    var edges', tree' := edges + [e], tree + [link];
    forall j | 0 < j < |tree'| ensures tree'[j].up < |tree'| { assert LinkOk(g, tree', j); }
    forall j | 0 < j < |tree'| ensures edges'[j] < |g.predicates| && Applies(tree', j, g.predicates[edges'[j]]) {
      if j < |tree| { assert LinkOk(g, tree, j) && Applies(tree, j, g.predicates[edges[j]]); }
    }
    forall x ensures x in used + {e} <==> exists j :: 0 < j < |edges'| && edges'[j] == x {
      if x == e { assert edges'[|edges|] == e; }
      if x in used {
        var j :| 0 < j < |edges| && edges[j] == x;
        assert edges'[j] == x;
      }
    }
  }

  /** A walk that places every relation has used every predicate. */
  lemma WholeTree(g: QueryGraph, order: seq<nat>, node: seq<ReductionNode>, children: seq<seq<nat>>, tree: Tree, edges: seq<nat>, used: set<nat>)
    requires Growing(g, order, node, children, tree, edges, used) && |order| == RelationCount(g) == |g.predicates| + 1
    ensures Spans(g, tree)
  {
    AllUsed(edges, |g.predicates|);
    forall j | 0 < j < |tree| ensures LinkApplies(g, tree, j) {
      assert LinkOk(g, tree, j) && Applies(tree, j, g.predicates[edges[j]]) && g.predicates[edges[j]] in g.predicates;
    }
    forall p | p in g.predicates ensures AppliedBySome(g, tree, p) {
      var e: nat :| e < |g.predicates| && g.predicates[e] == p;
      assert HasEdge(edges, e);
      var j: nat :| 0 < j < |edges| && edges[j] == e;
      assert LinkOk(g, tree, j) && Applies(tree, j, p);
    }
  }

  predicate HasEdge(edges: seq<nat>, e: nat) {
    exists j :: 0 < j < |edges| && edges[j] == e
  }

  lemma AllUsed(edges: seq<nat>, n: nat)
    requires |edges| == n + 1 && (forall j :: 0 < j < |edges| ==> edges[j] < n)
    requires forall i, j :: 0 < i < j < |edges| ==> edges[i] != edges[j]
    ensures forall e: nat :: e < n ==> HasEdge(edges, e)
  {
    var rs: seq<nat> := edges[1..];
    forall a, b | 0 <= a < b < |rs| ensures rs[a] != rs[b] { assert rs[a] == edges[a + 1] && rs[b] == edges[b + 1]; }
    DistinctSize(rs);
    assert SetOf(rs) <= UpTo(n);
    SubsetSize(SetOf(rs), UpTo(n));
    assert SetOf(rs) == UpTo(n);
    forall e: nat | e < n ensures HasEdge(edges, e) {
      assert e in SetOf(rs) && e in rs;
      var k :| 0 <= k < |rs| && rs[k] == e;
      assert edges[k + 1] == e;
    }
  }

  /** Where the predicate leads from the relation has been met. */
  predicate Followed(p: Predicate, r: nat, order: seq<nat>) {
    (p.left == r ==> p.right in order) && (p.right == r ==> p.left in order)
  }

  /** Every predicate has been followed from the first `head` relations met. */
  ghost predicate Explored(g: QueryGraph, order: seq<nat>, head: nat) {
    forall h, i :: 0 <= h < head && h < |order| && 0 <= i < |g.predicates| ==> Followed(g.predicates[i], order[h], order)
  }

  lemma UsedMet(g: QueryGraph, order: seq<nat>, node: seq<ReductionNode>, children: seq<seq<nat>>, tree: Tree, edges: seq<nat>,
                used: set<nat>, e: nat)
    requires Growing(g, order, node, children, tree, edges, used) && e in used
    ensures e < |g.predicates| && g.predicates[e].left in order && g.predicates[e].right in order
  {
    var j :| 0 < j < |edges| && edges[j] == e;
    assert LinkOk(g, tree, j) && Applies(tree, j, g.predicates[e]);
    assert order[j] in order && order[tree[j].up] in order;
  }

  lemma ExploredMore(g: QueryGraph, order: seq<nat>, child: nat, head: nat)
    requires Explored(g, order, head) && head <= |order|
    ensures Explored(g, order + [child], head)
  {
    forall h, i | 0 <= h < head && 0 <= i < |g.predicates| ensures Followed(g.predicates[i], (order + [child])[h], order + [child]) {
      assert Followed(g.predicates[i], order[h], order);
    }
  }

  /** Once every relation met has been explored, no predicate leads out. */
  lemma ExploredCloses(g: QueryGraph, order: seq<nat>)
    requires Explored(g, order, |order|)
    ensures Closed(g, SetOf(order))
  {
    forall p | p in g.predicates ensures p.left in SetOf(order) <==> p.right in SetOf(order) {
      var i: nat :| i < |g.predicates| && g.predicates[i] == p;
      if p.left in order { var h: nat :| h < |order| && order[h] == p.left; assert Followed(g.predicates[i], order[h], order); }
      if p.right in order { var h: nat :| h < |order| && order[h] == p.right; assert Followed(g.predicates[i], order[h], order); }
    }
  }

  /** A closed set with the first relation has every relation met. */
  lemma {:induction false} ClosedHolds(g: QueryGraph, order: seq<nat>, node: seq<ReductionNode>, children: seq<seq<nat>>, tree: Tree,
                                       edges: seq<nat>, used: set<nat>, joined: set<nat>, i: nat)
    requires Growing(g, order, node, children, tree, edges, used) && i < |order| && Closed(g, joined) && order[0] in joined
    ensures order[i] in joined
    decreases i
  {
    if i > 0 {
      assert LinkOk(g, tree, i) && Applies(tree, i, g.predicates[edges[i]]) && g.predicates[edges[i]] in g.predicates;
      ClosedHolds(g, order, node, children, tree, edges, used, joined, tree[i].up);
    }
  }

  /** Relations that no predicate leads out of, the given one among them, but not all. */
  ghost predicate Severed(g: QueryGraph, relation: nat, joined: set<nat>) {
    relation in joined && Closed(g, joined) && exists r :: 0 <= r < RelationCount(g) && r !in joined
  }

  /** The walk reaches every relation exactly if none is severed from where it starts. */
  lemma AllMetIff(g: QueryGraph, order: seq<nat>, node: seq<ReductionNode>, children: seq<seq<nat>>, tree: Tree, edges: seq<nat>, used: set<nat>)
    requires Growing(g, order, node, children, tree, edges, used) && order != [] && Closed(g, SetOf(order))
    ensures |order| == RelationCount(g) <==> !exists joined :: Severed(g, order[0], joined)
  {
    GrowingFacts(g, order, node, children, tree, edges, used, 0);
    DistinctSize(order);
    if |order| == RelationCount(g) {
      assert SetOf(order) <= UpTo(RelationCount(g));
      SubsetSize(SetOf(order), UpTo(RelationCount(g)));
      forall joined: set<nat> ensures !Severed(g, order[0], joined) {
        if Severed(g, order[0], joined) {
          var r :| 0 <= r < RelationCount(g) && r !in joined;
          assert r in UpTo(RelationCount(g));
          assert r in SetOf(order);
          var i: nat :| i < |order| && order[i] == r;
          ClosedHolds(g, order, node, children, tree, edges, used, joined, i);
        }
      }
    } else {
      assert order[0] in order;
      assert SetOf(order) <= UpTo(RelationCount(g)) && SetOf(order) != UpTo(RelationCount(g));
      assert Severed(g, order[0], SetOf(order));
    }
  }

  /** Walks outwards from the relation, breadth first, placing each neighbour below the relation
      it is first met from. */
  method SpanTree(g: QueryGraph, relation: nat)
    returns (order: seq<nat>, node: seq<ReductionNode>, children: seq<seq<nat>>, ghost tree: Tree, ghost edges: seq<nat>, ghost used: set<nat>)
    requires ValidGraph(g) && relation < RelationCount(g)
    ensures Growing(g, order, node, children, tree, edges, used) && order != [] && order[0] == tree[0].relation == relation
    ensures Closed(g, SetOf(order))
  {
    hide Growing, Closed, Explored;
    NothingExplored(g, [relation]);
    node := seq(RelationCount(g), r => ReductionNode(0, 0, 0));
    children := seq(RelationCount(g), r => []);
    order := [relation];
    var taken: set<nat> := {};
    tree, edges, used := [Link(relation, 0, 0, 0)], [0], {};
    Rooted(g, relation, node, children);
    var head: nat := 0;
    while head < |order|
      invariant head <= |order| && Growing(g, order, node, children, tree, edges, used) && taken == used
      invariant tree != [] && order != [] && order[0] == tree[0].relation == relation && |order| <= RelationCount(g)
      invariant Explored(g, order, head)
      decreases RelationCount(g) - head
    {
      var parent := order[head];
      for i := 0 to |g.predicates|
        invariant head < |order| && order[head] == parent && Growing(g, order, node, children, tree, edges, used) && taken == used
        invariant tree != [] && order != [] && order[0] == tree[0].relation == relation && |order| <= RelationCount(g)
        invariant Explored(g, order, head) && forall j :: 0 <= j < i ==> Followed(g.predicates[j], parent, order)
      {
        if i in taken {
          UsedMet(g, order, node, children, tree, edges, used, i);
          continue;
        }
        var p := g.predicates[i];
        assert p in g.predicates && PredicateIn(g, p);
        GrowingFacts(g, order, node, children, tree, edges, used, head);
        var child, own, par := 0, 0, 0;
        if p.left == parent && p.right !in order {
          child, own, par := p.right, p.rightColumn, p.leftColumn;
        } else if p.right == parent && p.left !in order {
          child, own, par := p.left, p.leftColumn, p.rightColumn;
        } else {
          continue;
        }
        Grow(g, order, node, children, tree, edges, used, head, child, own, par, i);
        PlacedRoom(g, order, child);
        ExploredMore(g, order, child, head);
        node := node[child := ReductionNode(parent, own, par)];
        children := children[parent := children[parent] + [child]];
        tree, edges, used := tree + [Link(child, head, own, par)], edges + [i], used + {i};
        order, taken := order + [child], taken + {i};
      }
      OneExplored(g, order, head);
      head := head + 1;
    }
    ExploredCloses(g, order);
  }

  lemma NothingExplored(g: QueryGraph, order: seq<nat>)
    ensures Explored(g, order, 0)
  {}

  lemma OneExplored(g: QueryGraph, order: seq<nat>, head: nat)
    requires Explored(g, order, head) && head < |order|
    requires forall j :: 0 <= j < |g.predicates| ==> Followed(g.predicates[j], order[head], order)
    ensures Explored(g, order, head + 1)
  {}

  lemma Rooted(g: QueryGraph, relation: nat, node: seq<ReductionNode>, children: seq<seq<nat>>)
    requires relation < RelationCount(g) == |node| == |children| && forall r :: 0 <= r < |children| ==> children[r] == []
    ensures Growing(g, [relation], node, children, [Link(relation, 0, 0, 0)], [0], {})
  {
    var tree := [Link(relation, 0, 0, 0)];
    assert ChildrenAre(tree, [relation], children, 0);
  }

  lemma GrowingFacts(g: QueryGraph, order: seq<nat>, node: seq<ReductionNode>, children: seq<seq<nat>>, tree: Tree, edges: seq<nat>,
                     used: set<nat>, head: nat)
    requires Growing(g, order, node, children, tree, edges, used) && head < |order|
    ensures order[head] < RelationCount(g) == |node| == |children| && |tree| == |order|
    ensures (forall i :: 0 <= i < |order| ==> order[i] < RelationCount(g)) && forall i, j :: 0 <= i < j < |order| ==> order[i] != order[j]
  {}

  /** Different relations below the count: there is room for one not among them. */
  lemma PlacedRoom(g: QueryGraph, order: seq<nat>, child: nat)
    requires (forall i :: 0 <= i < |order| ==> order[i] < RelationCount(g)) && child < RelationCount(g) && child !in order
    requires forall i, j :: 0 <= i < j < |order| ==> order[i] != order[j]
    ensures |order| + 1 <= RelationCount(g)
  {
    var rs: seq<nat> := order + [child];
    forall a, b | 0 <= a < b < |rs| ensures rs[a] != rs[b] {
      assert rs[a] in order;
    }
    DistinctSize(rs);
    assert SetOf(rs) <= UpTo(RelationCount(g));
    SubsetSize(SetOf(rs), UpTo(RelationCount(g)));
  }

  //
  // The reduction
  //

  /** The keys by which the parent probes a relation: those of its surviving rows. */
  ghost function SurvivingKeys(g: QueryGraph, data: Data, tree: Tree, j: nat): set<int>
    requires TreeOk(g, tree) && DataOk(g, data) && 0 < j < |tree|
  {
    assert LinkOk(g, tree, j);
    set y: nat | y < |RowsAt(data, tree, j)| && Survives(g, data, tree, j, y) :: RowsAt(data, tree, j)[y][tree[j].ownColumn]
  }

  /** The places of a relation's children in the order. */
  ghost predicate ChildPlaces(tree: Tree, i: nat, js: seq<nat>) {
    forall j :: j in js <==> 0 < j < |tree| && tree[j].up == i
  }

  /** Probing for the children's columns: one per child. */
  ghost predicate Probing(g: QueryGraph, data: Data, tree: Tree, js: seq<nat>, columns: seq<nat>, sets: seq<set<int>>)
    requires TreeOk(g, tree) && DataOk(g, data)
  {
    |js| == |columns| == |sets| && forall x :: 0 <= x < |js| ==>
      0 < js[x] < |tree| && columns[x] == tree[js[x]].parentColumn && sets[x] == SurvivingKeys(g, data, tree, js[x])
  }

  /** A row passes all its probes just when it survives. */
  lemma PassIsSurvive(g: QueryGraph, data: Data, tree: Tree, i: nat, y: nat, js: seq<nat>, columns: seq<nat>, sets: seq<set<int>>)
    requires TreeOk(g, tree) && DataOk(g, data) && i < |tree| && y < |RowsAt(data, tree, i)|
    requires ChildPlaces(tree, i, js) && Probing(g, data, tree, js, columns, sets)
    ensures Passes(RowsAt(data, tree, i)[y], columns, sets) <==> Survives(g, data, tree, i, y)
  {
    var row := RowsAt(data, tree, i)[y];
    forall x | 0 <= x < |js|
      ensures tree[js[x]].up == i && i < js[x] && LinkOk(g, tree, js[x]) && columns[x] < |row|
      ensures row[columns[x]] in sets[x] <==> HasPartner(g, data, tree, js[x], y)
    {
      assert js[x] in js && LinkOk(g, tree, js[x]);
      PartnerIsKey(g, data, tree, js[x], y);
    }
    if Passes(row, columns, sets) {
      forall j | i < j < |tree| && tree[j].up == i && LinkOk(g, tree, j) ensures HasPartner(g, data, tree, j, y) {
        assert j in js;
        var x :| 0 <= x < |js| && js[x] == j;
      }
    }
  }

  lemma PartnerIsKey(g: QueryGraph, data: Data, tree: Tree, j: nat, y: nat)
    requires TreeOk(g, tree) && DataOk(g, data) && 0 < j < |tree| && LinkOk(g, tree, j) && y < |RowsAt(data, tree, tree[j].up)|
    ensures RowsAt(data, tree, tree[j].up)[y][tree[j].parentColumn] in SurvivingKeys(g, data, tree, j)
      <==> HasPartner(g, data, tree, j, y)
  {
    hide Survives;
    var k := RowsAt(data, tree, tree[j].up)[y][tree[j].parentColumn];
    if k in SurvivingKeys(g, data, tree, j) {
      var z: nat :| z < |RowsAt(data, tree, j)| && Survives(g, data, tree, j, z) && RowsAt(data, tree, j)[z][tree[j].ownColumn] == k;
      assert Linked(g, data, tree, j, y, z);
    }
    if HasPartner(g, data, tree, j, y) {
      var z: nat :| z < |RowsAt(data, tree, j)| && Linked(g, data, tree, j, y, z) && Survives(g, data, tree, j, z);
      assert RowsAt(data, tree, j)[z][tree[j].ownColumn] in SurvivingKeys(g, data, tree, j);
    }
  }

  /** The keys the reduction keeps are the surviving rows' keys. */
  lemma KeptAreSurviving(g: QueryGraph, data: Data, tree: Tree, i: nat, js: seq<nat>, columns: seq<nat>, sets: seq<set<int>>)
    requires TreeOk(g, tree) && DataOk(g, data) && 0 < i < |tree| && ChildPlaces(tree, i, js) && Probing(g, data, tree, js, columns, sets)
    ensures KeysBetween(RowsAt(data, tree, i), 0, |RowsAt(data, tree, i)|, columns, sets, tree[i].ownColumn) == SurvivingKeys(g, data, tree, i)
  {
    hide Passes, Survives;
    assert LinkOk(g, tree, i);
    var rows, own := RowsAt(data, tree, i), tree[i].ownColumn;
    KeysBetweenAre(rows, |rows|, columns, sets, own);
    forall y: nat | y < |rows| ensures own < |rows[y]| && (Passes(rows[y], columns, sets) <==> Survives(g, data, tree, i, y)) {
      PassIsSurvive(g, data, tree, i, y, js, columns, sets);
    }
    forall k ensures k in KeysBetween(rows, 0, |rows|, columns, sets, own) <==> k in SurvivingKeys(g, data, tree, i) {
      if SomeRowHas(rows, |rows|, columns, sets, own, k) {
        var y: nat :| y < |rows| && Passes(rows[y], columns, sets) && own < |rows[y]| && rows[y][own] == k;
      }
      if k in SurvivingKeys(g, data, tree, i) {
        var y: nat :| y < |rows| && Survives(g, data, tree, i, y) && rows[y][own] == k;
      }
    }
  }

  /** A relation without surviving keys empties the join. */
  lemma EmptyRelationEmptiesJoin(g: QueryGraph, data: Data, tree: Tree, i: nat)
    requires TypesGiven(g) && ValidData(g, data) && DataOk(g, data) && Spans(g, tree) && 0 < i < |tree|
    requires SurvivingKeys(g, data, tree, i) == {}
    ensures FlatJoin(g, data, g.predicates) == []
  {
    hide FlatJoin, Survives;
    var b := FlatJoin(g, data, g.predicates);
    if b != [] {
      assert b[0] in b;
      var ch := JoinRowMatches(g, data, tree, b[0]);
      MatchedSurvive(g, data, tree, ch, i);
      assert LinkOk(g, tree, i);
      SurvivorHasKey(g, data, tree, i, ch[i]);
    }
  }

  lemma SurvivorHasKey(g: QueryGraph, data: Data, tree: Tree, i: nat, y: nat)
    requires TreeOk(g, tree) && DataOk(g, data) && 0 < i < |tree| && y < |RowsAt(data, tree, i)| && Survives(g, data, tree, i, y)
    ensures SurvivingKeys(g, data, tree, i) != {}
  {
    hide Survives;
    assert LinkOk(g, tree, i);
    assert RowsAt(data, tree, i)[y][tree[i].ownColumn] in SurvivingKeys(g, data, tree, i);
  }

  lemma RootBest(g: QueryGraph, data: Data, tree: Tree, column: nat, js: seq<nat>, columns: seq<nat>, sets: seq<set<int>>, best: Best,
                 wantMax: bool)
    requires TreeOk(g, tree) && DataOk(g, data) && column < g.columnCounts[tree[0].relation]
    requires ChildPlaces(tree, 0, js) && Probing(g, data, tree, js, columns, sets)
    requires BestIn(RowsAt(data, tree, 0), 0, |RowsAt(data, tree, 0)|, columns, sets, column, best.any, best.value, wantMax)
    ensures BestSurvivor(g, data, tree, column, best.any, best.value, wantMax)
  {
    hide Passes;
    var rows := RowsAt(data, tree, 0);
    forall y: nat | y < |rows| ensures column < |rows[y]| && (Passes(rows[y], columns, sets) <==> Survives(g, data, tree, 0, y)) {
      PassIsSurvive(g, data, tree, 0, y, js, columns, sets);
    }
    hide Survives;
    SurvivorsExist(g, data, tree);
    if best.any {
      var y: nat :| y < |rows| && Held(rows[y], columns, sets, column, best.value);
      assert Survives(g, data, tree, 0, y);
    }
  }

  lemma SurvivorsExist(g: QueryGraph, data: Data, tree: Tree)
    requires TreeOk(g, tree) && DataOk(g, data)
    ensures forall y: nat :: Survives(g, data, tree, 0, y) ==> y < |RowsAt(data, tree, 0)|
  {}

  ghost function KeptTables(surviving: map<nat, ShardedKeySet>): set<KeySet> {
    set r, t | r in surviving && t in surviving[r].tables :: t
  }

  /** The surviving keys of every relation from `i` on in the order. */
  ghost predicate Reduced(g: QueryGraph, data: Data, tree: Tree, order: seq<nat>, surviving: map<nat, ShardedKeySet>, i: nat)
    requires TreeOk(g, tree) && DataOk(g, data) && |order| == |tree|
    reads KeptTables(surviving), set t | t in KeptTables(surviving) :: t.slots
  {
    forall j :: i <= j < |tree| && 0 < j ==>
      && order[j] in surviving
      && assert forall t :: t in surviving[order[j]].tables ==> t in KeptTables(surviving);
         HoldsKeys(surviving[order[j]], SurvivingKeys(g, data, tree, j))
  }

  lemma NoneReduced(g: QueryGraph, data: Data, tree: Tree, order: seq<nat>, surviving: map<nat, ShardedKeySet>)
    requires TreeOk(g, tree) && DataOk(g, data) && |order| == |tree|
    ensures Reduced(g, data, tree, order, surviving, |order|)
  {}

  lemma ReducedMore(g: QueryGraph, data: Data, tree: Tree, order: seq<nat>, surviving: map<nat, ShardedKeySet>, i: nat, keys: ShardedKeySet)
    requires TreeOk(g, tree) && DataOk(g, data) && |order| == |tree| && 0 < i < |order|
    requires forall j :: 0 <= j < |tree| ==> order[j] == tree[j].relation
    requires Reduced(g, data, tree, order, surviving, i + 1) && HoldsKeys(keys, SurvivingKeys(g, data, tree, i))
    ensures Reduced(g, data, tree, order, surviving[order[i] := keys], i)
  {
    hide HoldsKeys;
    var more := surviving[order[i] := keys];
    forall j | i <= j < |tree| && 0 < j ensures order[j] in more && HoldsKeys(more[order[j]], SurvivingKeys(g, data, tree, j)) {
      if j > i { assert order[j] != order[i]; }
    }
  }

  /** A relation's probes: its children's keys, asked for by its own columns. */
  method MakeProbes(g: QueryGraph, data: Data, order: seq<nat>, node: seq<ReductionNode>, children: seq<seq<nat>>,
                    surviving: map<nat, ShardedKeySet>, i: nat, ghost tree: Tree, ghost edges: seq<nat>, ghost used: set<nat>)
    returns (probes: seq<Probe>, ghost js: seq<nat>, ghost columns: seq<nat>, ghost sets: seq<set<int>>)
    requires Growing(g, order, node, children, tree, edges, used) && DataOk(g, data) && i < |order|
    requires Reduced(g, data, tree, order, surviving, i + 1)
    ensures ProbesOk(probes, columns, sets) && ChildPlaces(tree, i, js) && Probing(g, data, tree, js, columns, sets)
    ensures forall p :: p in probes ==> p.column < g.columnCounts[order[i]]
  {
    hide FromPredicates, Survives;
    probes, js, columns, sets := [], [], [], [];
    var kids := children[order[i]];
    assert ChildrenAre(tree, order, children, i);
    for x := 0 to |kids|
      invariant ProbesOk(probes, columns, sets) && Probing(g, data, tree, js, columns, sets)
      invariant Reduced(g, data, tree, order, surviving, i + 1)
      invariant |js| == x && forall y :: 0 <= y < x ==> IsChild(tree, i, js[y], kids[y])
      invariant forall p :: p in probes ==> p.column < g.columnCounts[order[i]]
    {
      var child := kids[x];
      assert child in kids;
      ghost var j: nat :| IsChild(tree, i, j, child);
      assert LinkOk(g, tree, j) && NodeIs(tree, order, node, j);
      probes := probes + [Probe(node[child].parentColumn, surviving[child])];
      js, columns, sets := js + [j], columns + [tree[j].parentColumn], sets + [SurvivingKeys(g, data, tree, j)];
    }
    AllPlaces(g, tree, order, children, i, js);
  }

  lemma AllPlaces(g: QueryGraph, tree: Tree, order: seq<nat>, children: seq<seq<nat>>, i: nat, js: seq<nat>)
    requires TreeOk(g, tree) && |order| == |tree| && i < |order| && order[i] < |children| && ChildrenAre(tree, order, children, i)
    requires |js| == |children[order[i]]| && forall y :: 0 <= y < |js| ==> IsChild(tree, i, js[y], children[order[i]][y])
    ensures ChildPlaces(tree, i, js)
  {
    var kids := children[order[i]];
    forall j: nat ensures j in js <==> 0 < j < |tree| && tree[j].up == i {
      if 0 < j < |tree| && tree[j].up == i {
        assert IsChild(tree, i, j, tree[j].relation);
        assert tree[j].relation in kids;
        var y :| 0 <= y < |kids| && kids[y] == tree[j].relation;
        assert IsChild(tree, i, js[y], kids[y]) && js[y] == j;
      }
      if j in js {
        var y :| 0 <= y < |js| && js[y] == j;
        assert IsChild(tree, i, js[y], kids[y]);
      }
    }
  }

  datatype Extreme = Extreme(any: bool, value: int)

  /** One predicate fewer than relations, and acyclic. */
  ghost predicate Reducible(g: QueryGraph) {
    |g.predicates| + 1 == RelationCount(g) && RelationsInRange(g) && Emptied(HyperOf(g))
  }

  /** A join that is a tree of predicates: one fewer than relations, and acyclic. */
  method ReducibleByExtremeReduction(g: QueryGraph) returns (ok: bool)
    requires (forall p :: p in g.predicates ==> p.left < |g.columnCounts| && p.right < |g.columnCounts|) ==> ValidGraph(g)
    ensures ok <==> Reducible(g)
    ensures ValidGraph(g) ==> forall h :: IsHyper(g, h) ==> (ok <==> |g.predicates| + 1 == |g.columnCounts| && Emptied(h))
  {
    hide Emptied, IsHyper;
    if |g.predicates| + 1 != RelationCount(g) { return false; }
    ok := IsAcyclic(g);
  }

  /** The minimum or maximum of a column over the join, and whether the join has a row at all. */
  method ExecuteExtremeReduced(g: QueryGraph, data: Data, relation: nat, column: nat, wantMin: bool, threads: nat, mix: int -> nat)
    returns (r: Outcome<Extreme>)
    requires (forall p :: p in g.predicates ==> p.left < |g.columnCounts| && p.right < |g.columnCounts|) ==> ValidGraph(g)
    requires TypesGiven(g) && ValidData(g, data)
    ensures r == Failed(BadRequest) <==> relation >= |g.columnCounts| || column >= g.columnCounts[relation]
    ensures r == Failed(NotReducible) <==> relation < |g.columnCounts| && column < g.columnCounts[relation] && !Reducible(g)
    ensures ValidGraph(g) ==> forall h :: IsHyper(g, h) ==>
      (r == Failed(NotReducible)
       <==> r != Failed(BadRequest) && !(|g.predicates| + 1 == |g.columnCounts| && Emptied(h)))
    ensures r == Failed(Disconnected)
      <==> r != Failed(BadRequest) && r != Failed(NotReducible) && exists joined :: Severed(g, relation, joined)
    ensures r.Failed? ==> r.error in {BadRequest, NotReducible, Disconnected, OutOfMemory}
    ensures r.Ok? ==> (r.value.any <==> FlatJoin(g, data, g.predicates) != [])
    ensures r.Ok? && r.value.any ==> relation < |g.columnCounts| && column < g.columnCounts[relation]
    ensures r.Ok? && r.value.any ==>
      r.value.value == ExtremeOf(FlatJoin(g, data, g.predicates), AttributeOf(g, relation, column), !wantMin)
    ensures r.Ok? && r.value.any ==>
      AttainedBound(FlatJoin(g, data, g.predicates), AttributeOf(g, relation, column), r.value.value, !wantMin)
  {
    hide Emptied, IsHyper, FlatJoin, Growing, Survives, ValidData, Severed, Closed;
    if relation >= RelationCount(g) || column >= g.columnCounts[relation] { return Failed(BadRequest); }
    var reducible := ReducibleByExtremeReduction(g);
    if !reducible { return Failed(NotReducible); }
    ValidIsOk(g, data);
    var order, node, children;
    ghost var tree, edges, used;
    order, node, children, tree, edges, used := SpanTree(g, relation);
    AllMetIff(g, order, node, children, tree, edges, used);
    if |order| != RelationCount(g) { return Failed(Disconnected); }
    WholeTree(g, order, node, children, tree, edges, used);
    GrowingFacts(g, order, node, children, tree, edges, used, 0);
    r := Reduce(g, data, column, wantMin, threads, mix, order, node, children, tree, edges, used);
  }

  method HoldsNone(keys: ShardedKeySet, ghost kept: set<int>) returns (none: bool)
    requires HoldsKeys(keys, kept)
    ensures none <==> kept == {}
  {
    none := keys.Empty();
  }

  /** Reduces one relation, its children reduced before it. */
  method ReduceOne(g: QueryGraph, data: Data, threads: nat, mix: int -> nat, order: seq<nat>, node: seq<ReductionNode>,
                   children: seq<seq<nat>>, surviving: map<nat, ShardedKeySet>, i: nat,
                   ghost tree: Tree, ghost edges: seq<nat>, ghost used: set<nat>) returns (r: Outcome<ShardedKeySet>)
    requires DataOk(g, data) && Growing(g, order, node, children, tree, edges, used) && 0 < i < |order|
    requires Reduced(g, data, tree, order, surviving, i + 1)
    ensures r.Failed? ==> r.error == OutOfMemory
    ensures r.Ok? ==> HoldsKeys(r.value, SurvivingKeys(g, data, tree, i))
    ensures r.Ok? ==> Reduced(g, data, tree, order, surviving[order[i] := r.value], i)
  {
    hide Survives, FromPredicates, Passes;
    var probes;
    ghost var js, columns, sets;
    probes, js, columns, sets := MakeProbes(g, data, order, node, children, surviving, i, tree, edges, used);
    assert LinkOk(g, tree, i) && NodeIs(tree, order, node, i);
    Wide(g, data, order[i], probes, tree[i].ownColumn);
    r := ReduceKeys(data[order[i]], probes, node[order[i]].ownColumn, mix, threads, columns, sets);
    if r.Failed? { return; }
    KeptAreSurviving(g, data, tree, i, js, columns, sets);
    ReducedMore(g, data, tree, order, surviving, i, r.value);
  }

  /** Children before parents. */
  method Reduce(g: QueryGraph, data: Data, column: nat, wantMin: bool, threads: nat, mix: int -> nat,
                order: seq<nat>, node: seq<ReductionNode>, children: seq<seq<nat>>, ghost tree: Tree, ghost edges: seq<nat>, ghost used: set<nat>)
    returns (r: Outcome<Extreme>)
    requires TypesGiven(g) && ValidData(g, data) && DataOk(g, data) && Growing(g, order, node, children, tree, edges, used) && Spans(g, tree)
    requires column < g.columnCounts[tree[0].relation]
    ensures r.Failed? ==> r.error == OutOfMemory
    ensures r.Ok? ==> (r.value.any <==> FlatJoin(g, data, g.predicates) != [])
    ensures r.Ok? && r.value.any ==>
      r.value.value == ExtremeOf(FlatJoin(g, data, g.predicates), AttributeOf(g, tree[0].relation, column), !wantMin)
    ensures r.Ok? && r.value.any ==>
      AttainedBound(FlatJoin(g, data, g.predicates), AttributeOf(g, tree[0].relation, column), r.value.value, !wantMin)
  {
    hide FlatJoin, Survives, ValidData, FromPredicates, BestIn, BestSurvivor, Passes;
    var surviving: map<nat, ShardedKeySet> := map[];
    var i: nat := |order|;
    NoneReduced(g, data, tree, order, surviving);
    while i > 1
      invariant 0 < i <= |order| && Reduced(g, data, tree, order, surviving, i)
      decreases i
    {
      i := i - 1;
      var keys :- ReduceOne(g, data, threads, mix, order, node, children, surviving, i, tree, edges, used);
      var none := HoldsNone(keys, SurvivingKeys(g, data, tree, i));
      if none {
        EmptyRelationEmptiesJoin(g, data, tree, i);
        return Ok(Extreme(false, 0));
      }
      surviving := surviving[order[i] := keys];
    }
    var probes;
    ghost var js, columns, sets;
    probes, js, columns, sets := MakeProbes(g, data, order, node, children, surviving, 0, tree, edges, used);
    Wide(g, data, order[0], probes, column);
    var best := ReduceRoot(data[order[0]], probes, column, !wantMin, threads, columns, sets);
    if best.Failed? { return Failed(best.error); }
    RootBest(g, data, tree, column, js, columns, sets, best.value, !wantMin);
    BestIsExtreme(g, data, tree, column, best.value.any, best.value.value, !wantMin);
    return Ok(Extreme(best.value.any, best.value.value));
  }

  lemma Wide(g: QueryGraph, data: Data, r: nat, probes: seq<Probe>, column: nat)
    requires DataOk(g, data) && r < RelationCount(g) && column < g.columnCounts[r]
    requires forall p :: p in probes ==> p.column < g.columnCounts[r]
    ensures WideEnough(data[r], probes, column)
  {}
}
