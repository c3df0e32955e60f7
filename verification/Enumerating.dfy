/** Flat tuples out of an f-representation, one at a time and on demand. */
module Enumerating {
  import opened Bags
  import opened FReps
  import opened FTrees
  import opened Flattening
  import opened Reordering
  import opened Restructuring
  import opened Transforming
  import opened Joins
  import opened FRepMethods
  import opened Sums
  import opened Folds

  /** An output column: which attribute it shows, and in which place. */
  datatype TupleColumn = TupleColumn(attribute: Attr, position: nat)

  type Row = seq<int>

  /** What to do once a subtree is fixed: finish the slots of a record from `slot` on. A whole
      continuation is the stack of those, innermost first; when it is empty the tuple is complete. */
  datatype Frame = Frame(record: Address, slot: nat, node: FNode)

  type Stack = seq<Frame>

  //
  // Work left
  //

  function Nodes(n: FNode): nat
    decreases n
  {
    1 + NodesAll(n.children)
  }

  function NodesAll(ns: seq<FNode>): nat
    decreases ns
  {
    if ns == [] then 0 else Nodes(ns[0]) + NodesAll(ns[1..])
  }

  /** How many nodes the stack still has to fix. */
  ghost function Todo(next: Stack): nat {
    if next == [] then 0 else NodesAll(Left(next[0])) + Todo(next[1..])
  }

  ghost function Left(f: Frame): seq<FNode> {
    if f.slot <= |f.node.children| then f.node.children[f.slot..] else []
  }

  /** The attributes still to be fixed. */
  ghost function Missing(next: Stack): multiset<Attr> {
    if next == [] then multiset{} else AttrBagAll(Left(next[0])) + Missing(next[1..])
  }

  /** The attributes fixed and those to come are the tree's, each once. */
  ghost predicate Placed(t: Tuple, missing: multiset<Attr>, attrs: set<Attr>) {
    AtMostOnce(multiset(t.Keys) + missing) && forall a :: a in attrs <==> a in t || a in missing
  }

  lemma PlacedRecord(t: Tuple, vals: Tuple, below: multiset<Attr>, rest: multiset<Attr>, attrs: set<Attr>)
    requires Placed(t, (multiset(vals.Keys) + below) + rest, attrs)
    ensures Placed(t + vals, below + rest, attrs) && t.Keys !! vals.Keys
  {
    forall a | a in t.Keys ensures a !in vals.Keys {
      assert (multiset(t.Keys) + ((multiset(vals.Keys) + below) + rest))[a] <= 1;
    }
    MultisetUnion(t.Keys, vals.Keys);
    assert (t + vals).Keys == t.Keys + vals.Keys;
    assert multiset((t + vals).Keys) + (below + rest) == multiset(t.Keys) + ((multiset(vals.Keys) + below) + rest);
  }

  lemma PlacedSame(t: Tuple, a: multiset<Attr>, b: multiset<Attr>, attrs: set<Attr>)
    requires Placed(t, a, attrs) && a == b
    ensures Placed(t, b, attrs)
  {}

  //
  // Rows
  //

  /** The attribute that lands at a position. */
  function AttrAt(columns: seq<TupleColumn>, p: nat): Found {
    if columns == [] then Nothing
    else if columns[0].position == p then Here(columns[0].attribute)
    else AttrAt(columns[1..], p)
  }

  datatype Found = Here(attribute: Attr) | Nothing

  /** The tuple as the caller sees it; a column nothing stores reads zero. */
  function RowOf(t: Tuple, columns: seq<TupleColumn>): (r: Row)
    ensures |r| == |columns|
  {
    seq(|columns|, p requires 0 <= p < |columns| => Cell(t, AttrAt(columns, p)))
  }

  function Cell(t: Tuple, f: Found): int {
    if f.Here? && f.attribute in t then t[f.attribute] else 0
  }

  function RowsOf(b: seq<Tuple>, columns: seq<TupleColumn>): (r: seq<Row>)
    ensures |r| == |b| && forall i :: 0 <= i < |b| ==> r[i] == RowOf(b[i], columns)
  {
    seq(|b|, i requires 0 <= i < |b| => RowOf(b[i], columns))
  }

  ghost predicate ColumnsOk(columns: seq<TupleColumn>) {
    && (forall i :: 0 <= i < |columns| ==> columns[i].position < |columns|)
    && forall i, j :: 0 <= i < j < |columns| ==> columns[i].position != columns[j].position
  }

  lemma {:induction false} AttrAtIs(columns: seq<TupleColumn>, i: nat)
    requires i < |columns| && forall i, j :: 0 <= i < j < |columns| ==> columns[i].position != columns[j].position
    ensures AttrAt(columns, columns[i].position) == Here(columns[i].attribute)
  {
    if i > 0 {
      var rest := columns[1..];
      assert forall i, j :: 0 <= i < j < |rest| ==> rest[i] == columns[i + 1] && rest[j] == columns[j + 1];
      assert columns[0].position != columns[i].position;
      AttrAtIs(rest, i - 1);
    }
  }

  lemma {:induction false} AttrAtSome(columns: seq<TupleColumn>, p: nat)
    requires AttrAt(columns, p).Here?
    ensures exists i :: 0 <= i < |columns| && columns[i].position == p && columns[i].attribute == AttrAt(columns, p).attribute
  {
    if columns[0].position != p {
      AttrAtSome(columns[1..], p);
      var i :| 0 <= i < |columns[1..]| && columns[1..][i].position == p && columns[1..][i].attribute == AttrAt(columns, p).attribute;
      assert columns[i + 1].position == p;
    }
  }

  /** The buffer shows the tuple fixed so far: nothing is said about the columns still to come,
      which may hold leftovers of earlier tuples. */
  ghost predicate Shows(values: Row, t: Tuple, columns: seq<TupleColumn>, attrs: set<Attr>) {
    |values| == |columns| && forall p :: 0 <= p < |columns| ==> CellShows(values[p], AttrAt(columns, p), t, attrs)
  }

  ghost predicate CellShows(v: int, f: Found, t: Tuple, attrs: set<Attr>) {
    match f
    case Nothing => v == 0
    case Here(a) => (a in t ==> v == t[a]) && (a !in attrs ==> v == 0)
  }

  lemma ShownWhole(values: Row, t: Tuple, columns: seq<TupleColumn>, attrs: set<Attr>)
    requires Shows(values, t, columns, attrs) && attrs == t.Keys
    ensures values == RowOf(t, columns)
  {
    forall p | 0 <= p < |columns| ensures values[p] == RowOf(t, columns)[p] {
      assert CellShows(values[p], AttrAt(columns, p), t, attrs);
    }
  }

  lemma ShownPart(values: Row, t: Tuple, u: Tuple, columns: seq<TupleColumn>, attrs: set<Attr>)
    requires Shows(values, t + u, columns, attrs) && t.Keys !! u.Keys
    ensures Shows(values, t, columns, attrs)
  {
    forall p | 0 <= p < |columns| ensures CellShows(values[p], AttrAt(columns, p), t, attrs) {
      assert CellShows(values[p], AttrAt(columns, p), t + u, attrs);
    }
  }

  /** The buffer after the first `i` columns have been looked at for a record. */
  ghost function Written(values: Row, vals: Tuple, columns: seq<TupleColumn>, i: nat): (r: Row)
    requires i <= |columns| == |values| && forall j :: 0 <= j < |columns| ==> columns[j].position < |columns|
    ensures |r| == |values|
  {
    if i == 0 then values
    else
      var w, c := Written(values, vals, columns, i - 1), columns[i - 1];
      if c.attribute in vals then w[c.position := vals[c.attribute]] else w
  }

  lemma {:induction false} WrittenAt(values: Row, vals: Tuple, columns: seq<TupleColumn>, i: nat, p: nat)
    requires ColumnsOk(columns) && i <= |columns| == |values| && p < |columns|
    ensures var w := Written(values, vals, columns, i)[p];
      && (forall j :: 0 <= j < i && columns[j].position == p && columns[j].attribute in vals ==> w == vals[columns[j].attribute])
      && ((forall j :: 0 <= j < i && columns[j].position == p ==> columns[j].attribute !in vals) ==> w == values[p])
  {
    if i > 0 { WrittenAt(values, vals, columns, i - 1, p); }
  }

  lemma WrittenShows(values: Row, t: Tuple, vals: Tuple, columns: seq<TupleColumn>, attrs: set<Attr>)
    requires ColumnsOk(columns) && Shows(values, t, columns, attrs) && t.Keys !! vals.Keys && vals.Keys <= attrs
    ensures Shows(Written(values, vals, columns, |columns|), t + vals, columns, attrs)
  {
    var w := Written(values, vals, columns, |columns|);
    forall p | 0 <= p < |columns| ensures CellShows(w[p], AttrAt(columns, p), t + vals, attrs) {
      assert CellShows(values[p], AttrAt(columns, p), t, attrs);
      WrittenAt(values, vals, columns, |columns|, p);
      if AttrAt(columns, p).Here? { AttrAtSome(columns, p); }
      forall j | 0 <= j < |columns| && columns[j].position == p ensures AttrAt(columns, p) == Here(columns[j].attribute) {
        AttrAtIs(columns, j);
      }
    }
  }

  //
  // What was emitted
  //

  /** From `before` on, the rows of `expected` came out in order: all of them unless stopped. */
  ghost predicate Came(before: seq<Row>, after: seq<Row>, expected: seq<Row>, stopped: bool) {
    && |before| <= |after| <= |before| + |expected|
    && after == before + expected[..|after| - |before|]
    && (!stopped ==> |after| == |before| + |expected|)
  }

  lemma CameNone(rows: seq<Row>, expected: seq<Row>, stopped: bool)
    requires stopped || expected == []
    ensures Came(rows, rows, expected, stopped)
  {}

  lemma CameThen(before: seq<Row>, mid: seq<Row>, after: seq<Row>, first: seq<Row>, second: seq<Row>, stopped: bool, later: bool)
    requires Came(before, mid, first, stopped) && Came(mid, after, second, later) && (stopped ==> later && after == mid)
    ensures Came(before, after, first + second, later)
  {}

  lemma RowsAppend(a: seq<Tuple>, b: seq<Tuple>, columns: seq<TupleColumn>)
    ensures RowsOf(a + b, columns) == RowsOf(a, columns) + RowsOf(b, columns)
  {}

  /** One more copy of a record. */
  lemma OneMoreCopy(t: Tuple, vals: Tuple, copy: nat, b: seq<Tuple>)
    ensures Prefix(t, Cross(Copies(copy + 1, vals), b)) == Prefix(t, Cross(Copies(copy, vals), b)) + Prefix(t + vals, b)
  {
    assert Copies(copy + 1, vals) == Copies(copy, vals) + [vals];
    CrossAppendLeft(Copies(copy, vals), [vals], b);
    assert [vals][1..] == [] && Cross([vals], b) == Prefix(vals, b);
    PrefixAppend(t, Cross(Copies(copy, vals), b), Prefix(vals, b));
    PrefixPrefix(t, vals, b);
  }

  /** One more alternative of a slot. */
  lemma OneMoreChild(t: Tuple, recs: seq<Rec>, i: nat, b: seq<Tuple>)
    requires i < |recs|
    ensures Prefix(t, Cross(FlatAll(recs[..i + 1]), b)) == Prefix(t, Cross(FlatAll(recs[..i]), b)) + Prefix(t, Cross(Flat(recs[i]), b))
  {
    FlatAllSnoc(recs, i);
    CrossAppendLeft(FlatAll(recs[..i]), Flat(recs[i]), b);
    PrefixAppend(t, Cross(FlatAll(recs[..i]), b), Cross(Flat(recs[i]), b));
  }

  /** Walks the tuples of a representation, writing each into one shared buffer. */
  class TupleWalker {
    const rep: FRepresentation
    const columns: seq<TupleColumn>
    const limit: nat
    /** The caller takes every tuple it is shown. */
    const willing: bool
    const values: array<int>
    var emitted: nat
    var stopped: bool
    /** What the caller keeps of the tuples it is shown, and whether it has turned one away. */
    var rows: seq<Row>
    var refused: bool
    ghost const attrs: set<Attr>

    constructor (rep: FRepresentation, columns: seq<TupleColumn>, limit: nat, willing: bool, ghost attrs: set<Attr>)
      ensures this.rep == rep && this.columns == columns && this.limit == limit && this.willing == willing && this.attrs == attrs
      ensures rows == [] && fresh(values)
      ensures emitted == 0 && !stopped && !refused && values.Length == |columns| && forall i :: 0 <= i < |columns| ==> values[i] == 0
    {
      this.rep, this.columns, this.limit, this.willing, this.attrs := rep, columns, limit, willing, attrs;
      this.emitted, this.stopped, this.rows, this.refused := 0, false, [], false;
      this.values := new int[|columns|](i => 0);
    }

    /** Emission has stopped exactly when the caller turned a tuple away or has enough. */
    ghost predicate Valid()
      reads this, values, rep
    {
      && rep.Valid() && ColumnsOk(columns) && values.Length == |columns| && emitted == |rows|
      && (stopped <==> refused || (limit != 0 && emitted >= limit)) && (limit != 0 ==> emitted <= limit)
      && (willing ==> !refused)
    }

    ghost predicate FrameOk(f: Frame)
      reads rep
    {
      Exists(rep.roots, f.record) && Shaped(RecAt(rep.roots, f.record), f.node) && f.slot <= |f.node.children|
    }

    ghost predicate StackOk(next: Stack)
      reads rep
    {
      forall f :: f in next ==> FrameOk(f)
    }

    /** The tuples a stack completes a tuple with. */
    ghost function Pending(next: Stack): seq<Tuple>
      requires StackOk(next)
      reads rep
    {
      if next == [] then [map[]]
      else
        assert next[0] in next && forall f :: f in next[1..] ==> f in next;
        Cross(FlatSlots(RecAt(rep.roots, next[0].record).slots[next[0].slot..]), Pending(next[1..]))
    }

    ghost function Rows(b: seq<Tuple>): seq<Row> {
      RowsOf(b, columns)
    }

    /** Writes the record's attributes into the tuple under construction, then enumerates the
        combinations of its children, once per tuple the record stands for. */
    method EnumerateRecord(a: Address, n: FNode, next: Stack, ghost t: Tuple)
      requires Valid() && Exists(rep.roots, a) && Shaped(RecAt(rep.roots, a), n) && StackOk(next)
      requires Placed(t, AttrBag(n) + Missing(next), attrs) && Shows(values[..], t, columns, attrs)
      modifies this`emitted, this`stopped, this`rows, this`refused, values
      ensures Valid() && Shows(values[..], t, columns, attrs) && (old(stopped) ==> stopped && rows == old(rows))
      ensures Came(old(rows), rows, Rows(Prefix(t, Cross(Flat(RecAt(rep.roots, a)), Pending(next)))), stopped)
      decreases Nodes(n) + Todo(next), 0, 0, 0
    {
      hide Flat, FlatSlots, Shows, Placed, Conforms, Cross, Came, Pending, RowsOf, Shaped, Faithful, Settled, AttrBag;
      var rec := RecAt(rep.roots, a);
      ghost var below := Cross(FlatSlots(rec.slots), Pending(next));
      ghost var expected := Prefix(t, Cross(Flat(rec), Pending(next)));
      if stopped {
        CameNone(rows, Rows(expected), true);
        return;
      }
      ghost var before := values[..];
      for i := 0 to |columns|
        invariant Valid() && !stopped && rows == old(rows) && values[..] == Written(before, rec.vals, columns, i)
      {
        var c := columns[i];
        if c.attribute in rec.vals { values[c.position] := rec.vals[c.attribute]; }
      }
      RecordPlaced(rec, n, next, t);
      ghost var u := t + rec.vals;
      WrittenShows(before, t, rec.vals, columns, attrs);
      NoCopies(t, rec.vals, below);
      CameNone(rows, Rows([]), false);
      for copy := 0 to rec.weight
        invariant Valid() && Shows(values[..], u, columns, attrs)
        invariant Came(old(rows), rows, Rows(Prefix(t, Cross(Copies(copy, rec.vals), below))), stopped)
      {
        var wasStopped, mid := stopped, rows;
        EnumerateSlots(a, 0, n, next, u);
        OneMoreCopy(t, rec.vals, copy, below);
        RowsAppend(Prefix(t, Cross(Copies(copy, rec.vals), below)), Prefix(u, below), columns);
        assert rec.slots[0..] == rec.slots;
        CameThen(old(rows), mid, rows, Rows(Prefix(t, Cross(Copies(copy, rec.vals), below))), Rows(Prefix(u, below)), wasStopped, stopped);
      }
      FlatCopies(rec, Pending(next));
      ShownPart(values[..], t, rec.vals, columns, attrs);
    }

    lemma NoCopies(t: Tuple, vals: Tuple, b: seq<Tuple>)
      ensures Prefix(t, Cross(Copies(0, vals), b)) == []
    {}

    lemma FlatCopies(rec: Rec, p: seq<Tuple>)
      ensures Cross(Flat(rec), p) == Cross(Copies(rec.weight, rec.vals), Cross(FlatSlots(rec.slots), p))
    {
      assert Own(rec) == Copies(rec.weight, rec.vals);
      CrossAssoc(Own(rec), FlatSlots(rec.slots), p);
    }

    lemma RecordPlaced(rec: Rec, n: FNode, next: Stack, t: Tuple)
      requires Shaped(rec, n) && Placed(t, AttrBag(n) + Missing(next), attrs)
      ensures Placed(t + rec.vals, AttrBagAll(n.children[0..]) + Missing(next), attrs)
      ensures t.Keys !! rec.vals.Keys && rec.vals.Keys <= attrs && |rec.slots| == |n.children|
      ensures NodesAll(n.children[0..]) + 1 == Nodes(n)
    {
      assert n.children[0..] == n.children;
      PlacedRecord(t, rec.vals, AttrBagAll(n.children), Missing(next), attrs);
      forall x | x in rec.vals ensures x in attrs { assert x in AttrBag(n) + Missing(next); }
    }

    /** The product over one record's child slots. A slot without children iterates nothing. */
    method EnumerateSlots(a: Address, s: nat, n: FNode, next: Stack, ghost t: Tuple)
      requires Valid() && FrameOk(Frame(a, s, n)) && StackOk(next)
      requires Placed(t, AttrBagAll(n.children[s..]) + Missing(next), attrs) && Shows(values[..], t, columns, attrs)
      modifies this`emitted, this`stopped, this`rows, this`refused, values
      ensures Valid() && Shows(values[..], t, columns, attrs) && (old(stopped) ==> stopped && rows == old(rows))
      ensures Came(old(rows), rows, Rows(Prefix(t, Cross(FlatSlots(RecAt(rep.roots, a).slots[s..]), Pending(next)))), stopped)
      decreases NodesAll(n.children[s..]) + Todo(next), 1, |next|, 1
    {
      hide Flat, FlatSlots, FlatAll, Shows, Placed, Conforms, Cross, Came, Pending, RowsOf, Faithful, Settled, AttrBag, AttrBagAll,
           Missing, Todo, NodesAll, Shaped, Prefix;
      var rec := RecAt(rep.roots, a);
      SlotCount(a, n);
      ghost var expected := Prefix(t, Cross(FlatSlots(rec.slots[s..]), Pending(next)));
      if stopped {
        CameNone(rows, Rows(expected), true);
        return;
      }
      if s == |rec.slots| {
        LastSlot(rec.slots, s, Pending(next));
        NoneLeft(n.children, s, next, t);
        Resume(next, t);
        return;
      }
      var recs, after := rec.slots[s].recs, [Frame(a, s + 1, n)] + next;
      PushFrame(a, s, n, next, t);
      ghost var rest := Pending(after);
      NoChild(t, rest);
      CameNone(rows, Rows([]), false);
      for i := 0 to |recs|
        invariant Valid() && Shows(values[..], t, columns, attrs)
        invariant Came(old(rows), rows, Rows(Prefix(t, Cross(FlatAll(recs[..i]), rest))), stopped)
      {
        var c, wasStopped, mid := Child(a, s, i), stopped, rows;
        OneMoreChild(t, recs, i, rest);
        RowsAppend(Prefix(t, Cross(FlatAll(recs[..i]), rest)), Prefix(t, Cross(Flat(recs[i]), rest)), columns);
        if rep.IsPruned(c) {
          PrunedIsEmpty(rep.roots, rep.cache, c);
          EmptyFlat(recs[i]);
          NoChild(t, rest);
          CameNone(rows, Rows([]), stopped);
        } else {
          ShapedChild(rec, n, s, i);
          EnumerateRecord(c, n.children[s], after, t);
        }
        CameThen(old(rows), mid, rows, Rows(Prefix(t, Cross(FlatAll(recs[..i]), rest))), Rows(Prefix(t, Cross(Flat(recs[i]), rest))),
                 wasStopped, stopped);
      }
      assert recs[..|recs|] == recs;
      AllChildren(rec.slots, s, next, a, n);
    }

    lemma NoChild(t: Tuple, b: seq<Tuple>)
      ensures FlatAll([]) == [] && Prefix(t, Cross([], b)) == []
    {}

    lemma LastSlot(slots: seq<Slot>, s: nat, p: seq<Tuple>)
      requires s == |slots|
      ensures Cross(FlatSlots(slots[s..]), p) == p
    {
      CrossUnit(p);
    }

    lemma NoneLeft(ns: seq<FNode>, s: nat, next: Stack, t: Tuple)
      requires s == |ns| && Placed(t, AttrBagAll(ns[s..]) + Missing(next), attrs)
      ensures Placed(t, Missing(next), attrs)
    {
      PlacedSame(t, AttrBagAll(ns[s..]) + Missing(next), Missing(next), attrs);
    }

    lemma AllChildren(slots: seq<Slot>, s: nat, next: Stack, a: Address, n: FNode)
      requires FrameOk(Frame(a, s, n)) && StackOk(next) && s < |slots| && slots == RecAt(rep.roots, a).slots
      requires StackOk([Frame(a, s + 1, n)] + next)
      ensures Cross(FlatAll(slots[s].recs), Pending([Frame(a, s + 1, n)] + next)) == Cross(FlatSlots(slots[s..]), Pending(next))
    {
      var after := [Frame(a, s + 1, n)] + next;
      assert after[0] == Frame(a, s + 1, n) && after[1..] == next;
      assert slots[s..][0] == slots[s] && slots[s..][1..] == slots[s + 1..];
      CrossAssoc(FlatAll(slots[s].recs), FlatSlots(slots[s + 1..]), Pending(next));
    }

    lemma PushFrame(a: Address, s: nat, n: FNode, next: Stack, t: Tuple)
      requires FrameOk(Frame(a, s, n)) && StackOk(next) && s < |RecAt(rep.roots, a).slots|
      requires Placed(t, AttrBagAll(n.children[s..]) + Missing(next), attrs)
      ensures s < |n.children| && StackOk([Frame(a, s + 1, n)] + next)
      ensures Placed(t, AttrBag(n.children[s]) + Missing([Frame(a, s + 1, n)] + next), attrs)
      ensures Nodes(n.children[s]) + Todo([Frame(a, s + 1, n)] + next) == NodesAll(n.children[s..]) + Todo(next)
    {
      hide Conforms;
      SlotCount(a, n);
      var after := [Frame(a, s + 1, n)] + next;
      assert after[0] == Frame(a, s + 1, n) && after[1..] == next && Left(after[0]) == n.children[s + 1..];
      assert n.children[s..][0] == n.children[s] && n.children[s..][1..] == n.children[s + 1..];
      PlacedSame(t, AttrBagAll(n.children[s..]) + Missing(next), AttrBag(n.children[s]) + Missing(after), attrs);
      forall f | f in after ensures FrameOk(f) { assert f == after[0] || f in next; }
    }

    lemma SlotCount(a: Address, n: FNode)
      requires Exists(rep.roots, a) && Shaped(RecAt(rep.roots, a), n)
      ensures |RecAt(rep.roots, a).slots| == |n.children|
    {}

    /** Everything at hand is fixed: the innermost frame goes on, or the tuple is shown. */
    method Resume(next: Stack, ghost t: Tuple)
      requires Valid() && !stopped && StackOk(next) && Placed(t, Missing(next), attrs) && Shows(values[..], t, columns, attrs)
      modifies this`emitted, this`stopped, this`rows, this`refused, values
      ensures Valid() && Shows(values[..], t, columns, attrs)
      ensures Came(old(rows), rows, Rows(Prefix(t, Pending(next))), stopped)
      decreases Todo(next), 1, |next|, 0
    {
      if next == [] {
        CompleteTuple(t);
        ShownWhole(values[..], t, columns, attrs);
        var accepted: bool := *;
        if !accepted && !willing {
          stopped, refused := true, true;
          return;
        }
        rows, emitted := rows + [values[..]], emitted + 1;
        if limit != 0 && emitted >= limit { stopped := true; }
        return;
      }
      hide Flat, FlatSlots, Shows, Placed, Conforms, Cross, Came, RowsOf, Faithful, Settled, AttrBag, AttrBagAll;
      assert next[0] in next && forall f :: f in next[1..] ==> f in next;
      EnumerateSlots(next[0].record, next[0].slot, next[0].node, next[1..], t);
    }

    lemma CompleteTuple(t: Tuple)
      requires Placed(t, Missing([]), attrs)
      ensures t.Keys == attrs && Rows(Prefix(t, Pending([]))) == [RowOf(t, columns)]
    {
      var unit: Tuple := map[];
      assert t + unit == t;
      assert Prefix(t, Pending([])) == [t];
    }
  }

  /** How many of `n` tuples a limit asks for; 0 is no limit. */
  function Wanted(limit: nat, n: nat): (w: nat)
    ensures w <= n
  {
    if limit == 0 || n < limit then n else limit
  }

  /** Shows the tuples to the caller, in the order of the nested loops over the representation,
      until the caller turns one away or has had `limit` of them (0 is no limit). */
  method Enumerate(rep: FRepresentation, tree: FNode, columns: seq<TupleColumn>, limit: nat, willing: bool)
    returns (rows: seq<Row>, emitted: nat, refused: bool)
    requires rep.Valid() && ConformsAll(rep.roots, tree) && AtMostOnce(AttrBag(tree)) && ColumnsOk(columns)
    ensures (willing ==> !refused) && emitted == |rows| && (limit != 0 ==> emitted <= limit)
    ensures rows <= RowsOf(FlatAll(rep.roots), columns)
    ensures !refused ==> emitted == Wanted(limit, |FlatAll(rep.roots)|)
    ensures !refused ==> emitted == if limit == 0 || |FlatAll(rep.roots)| < limit then |FlatAll(rep.roots)| else limit
  {
    hide Flat, FlatAll, Shows, Placed, Conforms, Cross, Came, RowsOf, Faithful, Settled, AttrBag;
    var w := new TupleWalker(rep, columns, limit, willing, AttrSet(tree));
    ghost var unit: Tuple := map[];
    Blank(w.values[..], columns, w.attrs);
    NoTuple(columns);
    CameNone([], RowsOf([], columns), false);
    for i := 0 to |rep.roots|
      invariant w.Valid() && Shows(w.values[..], unit, columns, w.attrs)
      invariant Came([], w.rows, RowsOf(FlatAll(rep.roots[..i]), columns), w.stopped)
    {
      FlatAllSnoc(rep.roots, i);
      RowsAppend(FlatAll(rep.roots[..i]), Flat(rep.roots[i]), columns);
      var wasStopped, mid := w.stopped, w.rows;
      if rep.IsPruned(Root(i)) {
        PrunedIsEmpty(rep.roots, rep.cache, Root(i));
        EmptyFlat(rep.roots[i]);
        CameNone(w.rows, RowsOf([], columns), w.stopped);
      } else {
        RootPlaced(rep.roots, tree, i);
        w.EnumerateRecord(Root(i), tree, [], unit);
        AloneRoot(rep.roots[i]);
      }
      CameThen([], mid, w.rows, RowsOf(FlatAll(rep.roots[..i]), columns), RowsOf(Flat(rep.roots[i]), columns), wasStopped, w.stopped);
    }
    assert rep.roots[..|rep.roots|] == rep.roots;
    rows, emitted, refused := w.rows, w.emitted, w.refused;
    Finished(rows, RowsOf(FlatAll(rep.roots), columns), w.stopped);
  }

  lemma Blank(values: Row, columns: seq<TupleColumn>, attrs: set<Attr>)
    requires |values| == |columns| && forall i :: 0 <= i < |columns| ==> values[i] == 0
    ensures Shows(values, map[], columns, attrs)
  {}

  lemma NoTuple(columns: seq<TupleColumn>)
    ensures FlatAll([]) == [] && RowsOf([], columns) == []
  {}

  lemma RootPlaced(roots: seq<Rec>, tree: FNode, i: nat)
    requires ConformsAll(roots, tree) && AtMostOnce(AttrBag(tree)) && i < |roots|
    ensures Shaped(roots[i], tree) && Placed(map[], AttrBag(tree) + Missing([]), AttrSet(tree))
  {
    assert roots[i] in roots;
    AttrSetIsBag(tree);
    assert AttrBag(tree) + Missing([]) == AttrBag(tree);
    var unit: Tuple := map[];
    assert multiset(unit.Keys) + AttrBag(tree) == AttrBag(tree);
  }

  lemma AloneRoot(r: Rec)
    ensures Prefix(map[], Cross(Flat(r), [map[]])) == Flat(r)
  {
    CrossUnit(Flat(r));
    var unit: Tuple := map[];
    assert forall t: Tuple :: unit + t == t;
  }

  lemma Finished(rows: seq<Row>, all: seq<Row>, stopped: bool)
    requires Came([], rows, all, stopped)
    ensures rows <= all && (!stopped ==> rows == all)
  {}
}
