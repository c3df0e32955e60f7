/** GROUP BY on an f-representation: every combination of key values with its count, sums and
    extremes, whichever nodes hold the keys, and exactly when the extremes are right. */
module GroupFolds {
  import opened Bags
  import opened FReps
  import opened FTrees
  import opened Flattening
  import opened FlatJoins
  import opened Reordering
  import opened Restructuring
  import opened Transforming
  import opened Joins
  import opened Checked
  import opened Outcomes
  import opened Ranges
  import opened FRepMethods
  import opened Sums
  import opened Folds
  import opened Groups
  import CountJoins

  type Out = map<seq<int>, Fold>

  /** The table holds exactly the rows some tuple writes, each with the numbers of its tuples. */
  ghost predicate OutIs(out: Out, bags: seq<int> -> seq<Tuple>, dirty: bool, aggs: seq<Aggregate>) {
    forall k :: EntryIs(out, bags(k), k, dirty, aggs)
  }

  ghost predicate EntryIs(out: Out, b: seq<Tuple>, k: seq<int>, dirty: bool, aggs: seq<Aggregate>) {
    && (k in out <==> b != []) && InRanges(b, aggs)
    && (k in out ==> FoldIs(out[k], b, dirty, aggs))
  }

  /** Every row's bag with its share of `inc` beside `b` added. */
  function AddedTo(bags: seq<int> -> seq<Tuple>, inc: seq<Tuple>, b: seq<Tuple>, row: seq<int>, keys: seq<Attr>): seq<int> -> seq<Tuple>
    requires |row| == |keys|
  {
    k => bags(k) + Cross(inc, Group(b, row, keys, k))
  }

  ghost predicate SameBags(a: seq<int> -> seq<Tuple>, b: seq<int> -> seq<Tuple>) {
    forall k :: Perm(a(k), b(k))
  }

  lemma OutSame(out: Out, a: seq<int> -> seq<Tuple>, b: seq<int> -> seq<Tuple>, dirty: bool, aggs: seq<Aggregate>)
    requires OutIs(out, a, dirty, aggs) && SameBags(a, b)
    ensures OutIs(out, b, dirty, aggs)
  {
    forall k ensures EntryIs(out, b(k), k, dirty, aggs) {
      assert EntryIs(out, a(k), k, dirty, aggs) && Perm(a(k), b(k));
      PermLength(a(k), b(k));
      InRangesPerm(a(k), b(k), aggs);
      if k in out { FoldPerm(out[k], a(k), b(k), dirty, aggs); }
    }
  }

  lemma InRangesPerm(a: seq<Tuple>, b: seq<Tuple>, aggs: seq<Aggregate>)
    requires InRanges(a, aggs) && Perm(a, b)
    ensures InRanges(b, aggs)
  {
    PermMembers(a, b);
  }

  lemma AddedNothing(bags: seq<int> -> seq<Tuple>, inc: seq<Tuple>, b: seq<Tuple>, row: seq<int>, keys: seq<Attr>)
    requires |row| == |keys| && (inc == [] || b == [])
    ensures SameBags(bags, AddedTo(bags, inc, b, row, keys))
  {
    forall k ensures Perm(bags(k), AddedTo(bags, inc, b, row, keys)(k)) {
      CrossEmptyRight(inc);
      assert bags(k) + [] == bags(k);
    }
  }

  /** Adding in two steps. */
  lemma AddedTwice(bags: seq<int> -> seq<Tuple>, inc: seq<Tuple>, b1: seq<Tuple>, b2: seq<Tuple>, b: seq<Tuple>, row: seq<int>, keys: seq<Attr>)
    requires |row| == |keys| && Perm(b, b1 + b2)
    ensures SameBags(AddedTo(AddedTo(bags, inc, b1, row, keys), inc, b2, row, keys), AddedTo(bags, inc, b, row, keys))
  {
    forall k ensures Perm(AddedTo(AddedTo(bags, inc, b1, row, keys), inc, b2, row, keys)(k), AddedTo(bags, inc, b, row, keys)(k)) {
      var g1, g2, g := Group(b1, row, keys, k), Group(b2, row, keys, k), Group(b, row, keys, k);
      GroupPerm(b, b1 + b2, row, keys, k);
      GroupAppend(b1, b2, row, keys, k);
      CrossCongRight(inc, g, g1 + g2);
      CrossAppendRight(inc, g1, g2);
      AddedThree(bags(k), Cross(inc, g1), Cross(inc, g2), Cross(inc, g));
    }
  }

  lemma AddedThree<T>(a: seq<T>, x: seq<T>, y: seq<T>, z: seq<T>)
    requires Perm(z, x + y)
    ensures Perm((a + x) + y, a + z)
  {}

  lemma SameTrans(a: seq<int> -> seq<Tuple>, b: seq<int> -> seq<Tuple>, c: seq<int> -> seq<Tuple>)
    requires SameBags(a, b) && SameBags(b, c)
    ensures SameBags(a, c)
  {
    forall k ensures Perm(a(k), c(k)) { assert Perm(a(k), b(k)) && Perm(b(k), c(k)); }
  }

  //
  // Which nodes carry keys
  //

  /** A key is stored at or below the node. */
  predicate Carries(n: FNode, keys: seq<Attr>) {
    exists k :: k in keys && k in AttrSet(n)
  }

  predicate CarriesAt(n: FNode, i: nat, keys: seq<Attr>) {
    i < |n.children| && Carries(n.children[i], keys)
  }

  /** Somewhere at or below the node the keys part into different branches. */
  predicate Branches(n: FNode, keys: seq<Attr>)
    decreases n
  {
    || (exists i, j :: 0 <= i < j < |n.children| && CarriesAt(n, i, keys) && CarriesAt(n, j, keys))
    || (exists i :: 0 <= i < |n.children| && CarriesAt(n, i, keys) && Branches(n.children[i], keys))
  }

  /** The product of some of a record's slots. */
  function CrossOf(slots: seq<Slot>, ids: seq<nat>): seq<Tuple> {
    if ids == [] then [map[]]
    else if ids[0] < |slots| then Cross(FlatAll(slots[ids[0]].recs), CrossOf(slots, ids[1..]))
    else CrossOf(slots, ids[1..])
  }

  lemma {:induction false} CrossOfSnoc(slots: seq<Slot>, ids: seq<nat>, s: nat)
    requires s < |slots|
    ensures CrossOf(slots, ids + [s]) == Cross(CrossOf(slots, ids), FlatAll(slots[s].recs))
  {
    if ids == [] {
      assert ids + [s] == [s] && [s][1..] == [];
      CrossUnit(FlatAll(slots[s].recs));
    } else {
      assert (ids + [s])[0] == ids[0] && (ids + [s])[1..] == ids[1..] + [s];
      CrossOfSnoc(slots, ids[1..], s);
      if ids[0] < |slots| { CrossAssoc(FlatAll(slots[ids[0]].recs), CrossOf(slots, ids[1..]), FlatAll(slots[s].recs)); }
    }
  }

  /** Slots picked apart: the product of the first `s` slots is the product of two selections. */
  ghost predicate Sorted(slots: seq<Slot>, s: nat, idle: seq<nat>, walk: seq<nat>)
    requires s <= |slots|
  {
    && (forall i :: i in idle ==> i < s) && (forall i :: i in walk ==> i < s)
    && Perm(FlatSlots(slots[..s]), Cross(CrossOf(slots, idle), CrossOf(slots, walk)))
  }

  ghost predicate KeysWithin(b: seq<Tuple>, attrs: set<Attr>) {
    forall t :: t in b ==> t.Keys <= attrs
  }

  lemma KeysWithinCross(a: seq<Tuple>, b: seq<Tuple>, x: set<Attr>, y: set<Attr>)
    requires KeysWithin(a, x) && KeysWithin(b, y)
    ensures KeysWithin(Cross(a, b), x + y)
  {
    forall t | t in Cross(a, b) ensures t.Keys <= x + y { CrossMembers(a, b, t); }
  }

  /** The attributes below some of the children. */
  function AttrsBelow(ns: seq<FNode>, ids: seq<nat>): set<Attr> {
    if ids == [] then {}
    else (if ids[0] < |ns| then AttrSet(ns[ids[0]]) else {}) + AttrsBelow(ns, ids[1..])
  }

  lemma {:induction false} CrossOfKeys(slots: seq<Slot>, ns: seq<FNode>, ids: seq<nat>)
    requires SlotsConform(slots, ns)
    ensures KeysWithin(CrossOf(slots, ids), AttrsBelow(ns, ids))
  {
    if ids != [] {
      CrossOfKeys(slots, ns, ids[1..]);
      if ids[0] < |slots| {
        var f := FlatAll(slots[ids[0]].recs);
        assert KeysWithin(f, AttrSet(ns[ids[0]])) by {
          forall t | t in f ensures t.Keys <= AttrSet(ns[ids[0]]) { FlatAllKeys(slots[ids[0]].recs, ns[ids[0]], t); }
        }
        KeysWithinCross(f, CrossOf(slots, ids[1..]), AttrSet(ns[ids[0]]), AttrsBelow(ns, ids[1..]));
      }
    }
  }

  lemma AttrsBelowMembers(ns: seq<FNode>, ids: seq<nat>)
    ensures forall a :: a in AttrsBelow(ns, ids) <==> exists i :: i in ids && i < |ns| && a in AttrSet(ns[i])
  {
    if ids != [] {
      AttrsBelowMembers(ns, ids[1..]);
      assert ids == [ids[0]] + ids[1..];
    }
  }

  /** Different children carry different attributes. */
  lemma {:induction false} ChildrenApart(ns: seq<FNode>, i: nat, j: nat)
    requires AtMostOnce(AttrBagAll(ns)) && i < |ns| && j < |ns| && i != j
    ensures AttrSet(ns[i]) !! AttrSet(ns[j])
  {
    if i < j { BagOfTwo(ns, i, j); } else { BagOfTwo(ns, j, i); }
    AttrSetIsBag(ns[i]);
    AttrSetIsBag(ns[j]);
    forall a | a in AttrSet(ns[i]) ensures a !in AttrSet(ns[j]) { assert AttrBagAll(ns)[a] <= 1; }
  }

  lemma BelowApart(ns: seq<FNode>, ids: seq<nat>, s: nat)
    requires AtMostOnce(AttrBagAll(ns)) && s < |ns| && s !in ids
    ensures AttrsBelow(ns, ids) !! AttrSet(ns[s])
  {
    AttrsBelowMembers(ns, ids);
    forall a | a in AttrsBelow(ns, ids) ensures a !in AttrSet(ns[s]) {
      var i :| i in ids && i < |ns| && a in AttrSet(ns[i]);
      ChildrenApart(ns, i, s);
    }
  }

  lemma SortedStart(slots: seq<Slot>)
    ensures Sorted(slots, 0, [], [])
  {
    var unit: Tuple := map[];
    CrossUnit([unit]);
    assert slots[..0] == [];
  }

  lemma SortedStep(slots: seq<Slot>, ns: seq<FNode>, s: nat, idle: seq<nat>, walk: seq<nat>)
    requires SlotsConform(slots, ns) && AtMostOnce(AttrBagAll(ns)) && s < |slots| && Sorted(slots, s, idle, walk)
    ensures Sorted(slots, s + 1, idle + [s], walk) && Sorted(slots, s + 1, idle, walk + [s])
  {
    hide CrossOf, Cross, FlatSlots, FlatAll, SlotsConform, AttrBagAll;
    var f, i, w := FlatAll(slots[s].recs), CrossOf(slots, idle), CrossOf(slots, walk);
    PrefixOneSided(slots, ns, s, 0);
    CrossCongLeft(FlatSlots(slots[..s]), Cross(i, w), f);
    CrossOfSnoc(slots, idle, s);
    CrossOfSnoc(slots, walk, s);
    CrossAssoc(i, w, f);
    CrossAssoc(i, f, w);
    WalkApart(slots, ns, walk, s);
    CrossComm(w, f);
    CrossCongRight(i, Cross(w, f), Cross(f, w));
  }

  lemma WalkApart(slots: seq<Slot>, ns: seq<FNode>, walk: seq<nat>, s: nat)
    requires SlotsConform(slots, ns) && AtMostOnce(AttrBagAll(ns)) && s < |slots| && s !in walk
    ensures Disjoint(CrossOf(slots, walk), FlatAll(slots[s].recs))
  {
    var f, w := FlatAll(slots[s].recs), CrossOf(slots, walk);
    CrossOfKeys(slots, ns, walk);
    BelowApart(ns, walk, s);
    forall x, y | x in w && y in f ensures x.Keys !! y.Keys { FlatAllKeys(slots[s].recs, ns[s], y); }
  }

  //
  // The contribution of a record
  //

  /** What a record adds to the groups: its own row, the idle slots beside it, and the groups of
      the product of the others from that row on. */
  lemma RecordAdds(bags: seq<int> -> seq<Tuple>, inc: seq<Tuple>, r: Rec, n: FNode, idle: seq<nat>, walk: seq<nat>, row: seq<int>, keys: seq<Attr>)
    requires |row| == |keys| && Shaped(r, n) && Sorted(r.slots, |r.slots|, idle, walk)
    requires forall i :: i in idle ==> i < |n.children| && !Carries(n.children[i], keys)
    requires forall i :: i in idle ==> i !in walk
    ensures SameBags(AddedTo(bags, Cross(Cross(inc, Own(r)), CrossOf(r.slots, idle)), CrossOf(r.slots, walk), RowFor(row, r.vals, keys), keys),
                     AddedTo(bags, inc, Flat(r), row, keys))
  {
    var own, i, w, row1 := Own(r), CrossOf(r.slots, idle), CrossOf(r.slots, walk), RowFor(row, r.vals, keys);
    var front := Cross(own, i);
    ChildrenOnce(n);
    assert r.slots[..|r.slots|] == r.slots;
    CrossCongRight(own, FlatSlots(r.slots), Cross(i, w));
    CrossAssoc(own, i, w);
    FrontRow(r, n, idle, row, keys);
    FrontApart(r, n, idle, walk);
    forall k
      ensures Perm(AddedTo(bags, Cross(Cross(inc, own), i), w, row1, keys)(k), AddedTo(bags, inc, Flat(r), row, keys)(k))
    {
      GroupPerm(Flat(r), Cross(front, w), row, keys, k);
      GroupCross(front, w, row, keys, row1, k);
      CrossCongRight(inc, Group(Flat(r), row, keys, k), Cross(front, Group(w, row1, keys, k)));
      CrossAssoc(inc, front, Group(w, row1, keys, k));
      CrossAssoc(inc, own, i);
    }
  }

  /** Nothing idle writes into the row. */
  lemma FrontRow(r: Rec, n: FNode, idle: seq<nat>, row: seq<int>, keys: seq<Attr>)
    requires |row| == |keys| && Shaped(r, n) && forall i :: i in idle ==> i < |n.children| && !Carries(n.children[i], keys)
    ensures OneRow(Cross(Own(r), CrossOf(r.slots, idle)), row, keys, RowFor(row, r.vals, keys))
  {
    hide CrossOf, Cross;
    CrossOfKeys(r.slots, n.children, idle);
    IdleLacksKeys(n, idle, keys);
    forall t | t in Cross(Own(r), CrossOf(r.slots, idle)) ensures RowFor(row, t, keys) == RowFor(row, r.vals, keys) {
      CrossMembers(Own(r), CrossOf(r.slots, idle), t);
      var x, y :| x in Own(r) && y in CrossOf(r.slots, idle) && t == x + y;
      assert forall p :: 0 <= p < |keys| ==> keys[p] in keys && keys[p] !in y;
    }
  }

  lemma IdleLacksKeys(n: FNode, idle: seq<nat>, keys: seq<Attr>)
    requires forall i :: i in idle ==> i < |n.children| && !Carries(n.children[i], keys)
    ensures forall k :: k in keys ==> k !in AttrsBelow(n.children, idle)
  {
    AttrsBelowMembers(n.children, idle);
  }

  lemma FrontApart(r: Rec, n: FNode, idle: seq<nat>, walk: seq<nat>)
    requires Shaped(r, n) && forall i :: i in idle ==> i !in walk
    ensures Disjoint(Cross(Own(r), CrossOf(r.slots, idle)), CrossOf(r.slots, walk))
  {
    ChildrenOnce(n);
    CrossOfKeys(r.slots, n.children, idle);
    CrossOfKeys(r.slots, n.children, walk);
    AttrsBelowMembers(n.children, idle);
    AttrsBelowMembers(n.children, walk);
    OwnApart(n, walk);
    forall a | a in AttrsBelow(n.children, idle) ensures a !in AttrsBelow(n.children, walk) {
      var i :| i in idle && i < |n.children| && a in AttrSet(n.children[i]);
      if a in AttrsBelow(n.children, walk) {
        var j :| j in walk && j < |n.children| && a in AttrSet(n.children[j]);
        ChildrenApart(n.children, i, j);
      }
    }
    forall x, y | x in Cross(Own(r), CrossOf(r.slots, idle)) && y in CrossOf(r.slots, walk) ensures x.Keys !! y.Keys {
      CrossMembers(Own(r), CrossOf(r.slots, idle), x);
    }
  }

  /** A node's own attributes are not those below it. */
  lemma OwnApart(n: FNode, ids: seq<nat>)
    requires AtMostOnce(AttrBag(n))
    ensures n.attrs !! AttrsBelow(n.children, ids) && AttrsBelow(n.children, ids) <= AttrSet(n)
  {
    AtMostOnceParts(multiset(n.attrs), AttrBagAll(n.children));
    AttrSetAllIsBag(n.children);
    AttrsBelowMembers(n.children, ids);
    forall a | a in AttrsBelow(n.children, ids) ensures a !in n.attrs && a in AttrSetAll(n.children) {
      var i :| i in ids && i < |n.children| && a in AttrSet(n.children[i]);
      SiblingsApart(n.children, i);
      assert multiset(n.attrs)[a] == if a in n.attrs then 1 else 0;
    }
  }

  //
  // The walk
  //

  function Unit(aggs: seq<Aggregate>): (f: Fold)
    ensures FoldIs(f, [map[]], false, aggs)
  {
    OneEmptyTuple(aggs);
    Start(1, aggs)
  }

  function Empty(aggs: seq<Aggregate>): (f: Fold)
    ensures FoldIs(f, [], false, aggs) && FoldIs(f, [], true, aggs)
  {
    Start(0, aggs)
  }

  function Start(count: nat, aggs: seq<Aggregate>): Fold {
    Fold(count, seq(|aggs|, i => 0), seq(|aggs|, i requires 0 <= i < |aggs| => Identity(WantsMax(aggs[i]))))
  }

  /** What a nested branch starts from: every extreme is zero, which no tuple carries. */
  function Default(aggs: seq<Aggregate>): (f: Fold)
    ensures FoldIs(f, [map[]], true, aggs)
  {
    OneEmptyTuple(aggs);
    Fold(1, seq(|aggs|, i => 0), seq(|aggs|, i => 0))
  }

  /** A tuple that carries nothing sums to nothing and has no extreme. */
  lemma OneEmptyTuple(aggs: seq<Aggregate>)
    ensures forall i :: 0 <= i < |aggs| ==> SumOf([map[]], aggs[i].attr) == 0
    ensures forall i :: 0 <= i < |aggs| ==> ExtremeOf([map[]], aggs[i].attr, WantsMax(aggs[i])) == Identity(WantsMax(aggs[i]))
  {
    var unit: seq<Tuple> := [map[]];
    assert unit[1..] == [];
  }

  lemma OneTuple(aggs: seq<Aggregate>)
    ensures InRanges([map[]], aggs) && InRanges([], aggs)
  {}

  ghost predicate Beside(inc: seq<Tuple>, attrs: set<Attr>) {
    forall t :: t in inc ==> t.Keys !! attrs
  }

  lemma BesideOneSided(inc: seq<Tuple>, b: seq<Tuple>, attrs: set<Attr>, aggs: seq<Aggregate>)
    requires Beside(inc, attrs) && KeysWithin(b, attrs)
    ensures AllOneSided(inc, b, aggs)
  {
    forall i | 0 <= i < |aggs| ensures OneSided(inc, b, aggs[i].attr) {
      if aggs[i].attr in attrs {
        assert Lacks(inc, aggs[i].attr);
      } else {
        assert Lacks(b, aggs[i].attr);
      }
    }
  }

  lemma BesideCross(inc: seq<Tuple>, b: seq<Tuple>, x: set<Attr>, y: set<Attr>)
    requires Beside(inc, y) && KeysWithin(b, x) && x !! y
    ensures Beside(Cross(inc, b), y)
  {
    forall t | t in Cross(inc, b) ensures t.Keys !! y { CrossMembers(inc, b, t); }
  }

  lemma RangesOfAll(rs: seq<Rec>, types: Types, aggs: seq<Aggregate>)
    requires RangedAll(rs, types)
    ensures InRanges(FlatAll(rs), aggs)
  {
    forall i | 0 <= i < |aggs| ensures InRange64(FlatAll(rs), aggs[i].attr) { AllRange(rs, types, aggs[i].attr); }
  }

  lemma RangesOfOne(r: Rec, types: Types, aggs: seq<Aggregate>)
    requires Ranged(r, types)
    ensures InRanges(Flat(r), aggs) && InRanges(Own(r), aggs)
  {
    forall i | 0 <= i < |aggs| ensures InRange64(Flat(r), aggs[i].attr) && InRange64(Own(r), aggs[i].attr) {
      FlatRange(r, types, aggs[i].attr);
    }
  }

  lemma RecordKeys(r: Rec, n: FNode)
    requires Shaped(r, n)
    ensures KeysWithin(Flat(r), AttrSet(n)) && KeysWithin(Own(r), n.attrs)
  {
    forall t | t in Flat(r) ensures t.Keys <= AttrSet(n) { FlatKeys(r, n, t); }
  }

  lemma SlotKeys(rs: seq<Rec>, n: FNode)
    requires ConformsAll(rs, n)
    ensures KeysWithin(FlatAll(rs), AttrSet(n))
  {
    forall t | t in FlatAll(rs) ensures t.Keys <= AttrSet(n) { FlatAllKeys(rs, n, t); }
  }

  //
  // Rows and bags along the walk
  //

  /** The rows agree wherever none of these attributes is written. */
  ghost predicate RowKept(row: seq<int>, row': seq<int>, attrs: set<Attr>, keys: seq<Attr>) {
    |row| == |row'| == |keys| && forall p :: 0 <= p < |keys| && keys[p] !in attrs ==> row'[p] == row[p]
  }

  lemma KeptAll(row: seq<int>, attrs: set<Attr>, keys: seq<Attr>)
    requires |row| == |keys|
    ensures RowKept(row, row, attrs, keys)
  {}

  lemma KeptMore(row: seq<int>, row': seq<int>, attrs: set<Attr>, more: set<Attr>, keys: seq<Attr>)
    requires RowKept(row, row', attrs, keys) && attrs <= more
    ensures RowKept(row, row', more, keys)
  {}

  lemma KeptTrans(row: seq<int>, mid: seq<int>, row': seq<int>, attrs: set<Attr>, keys: seq<Attr>)
    requires RowKept(row, mid, attrs, keys) && RowKept(mid, row', attrs, keys)
    ensures RowKept(row, row', attrs, keys)
  {}

  lemma OwnRow(rec: Rec, n: FNode, row: seq<int>, keys: seq<Attr>)
    requires Shaped(rec, n) && |row| == |keys|
    ensures RowKept(row, RowFor(row, rec.vals, keys), AttrSet(n), keys)
  {}

  lemma BelowWithin(n: FNode, ids: seq<nat>)
    ensures AttrsBelow(n.children, ids) <= AttrSet(n)
  {
    AttrsBelowMembers(n.children, ids);
    forall a | a in AttrsBelow(n.children, ids) ensures a in AttrSetAll(n.children) {
      var i :| i in ids && i < |n.children| && a in AttrSet(n.children[i]);
      CountJoins.InAttrSetAll(n.children, i);
    }
  }

  lemma FoldCount(f: Fold, b: seq<Tuple>, d: bool, aggs: seq<Aggregate>)
    requires FoldIs(f, b, d, aggs)
    ensures f.count == |b|
  {}

  lemma WeightAbove(r: Rec)
    requires Size(r) > 0
    ensures r.weight > 0
  {}

  lemma NoFlat()
    ensures FlatAll([]) == []
  {}

  lemma OwnNumbers(rec: Rec, types: Types, x: Attr, wantMax: bool)
    requires Ranged(rec, types) && rec.weight > 0
    ensures SumOf(Own(rec), x) == (if x in rec.vals then rec.vals[x] * rec.weight else 0)
    ensures ExtremeOf(Own(rec), x, wantMax) == (if x in rec.vals then rec.vals[x] else Identity(wantMax))
    ensures x in rec.vals ==> Int64(rec.vals[x])
  {
    assert Own(rec) == Copies(rec.weight, rec.vals);
    SumCopies(rec.vals, rec.weight, x);
    assert Own(rec)[0] == rec.vals && Own(rec)[0] in Own(rec);
    assert InRange64(Own(rec), x);
    ExtremeIs(Own(rec), x, wantMax);
  }

  /** Everything fixed at a record: what came in, the record itself, its idle slots. */
  function Front(inc: seq<Tuple>, rec: Rec, idle: seq<nat>): seq<Tuple> {
    Cross(Cross(inc, Own(rec)), CrossOf(rec.slots, idle))
  }

  lemma FrontStart(inc: seq<Tuple>, rec: Rec, n: FNode, aggs: seq<Aggregate>)
    requires Shaped(rec, n) && Beside(inc, AttrSet(n))
    ensures AllOneSided(inc, Own(rec), aggs) && Front(inc, rec, []) == Cross(inc, Own(rec))
  {
    RecordKeys(rec, n);
    BesideOneSided(inc, Own(rec), AttrSet(n), aggs);
    CrossUnit(Cross(inc, Own(rec)));
  }

  lemma FrontStep(inc: seq<Tuple>, rec: Rec, n: FNode, idle: seq<nat>, s: nat, aggs: seq<Aggregate>)
    requires Shaped(rec, n) && Beside(inc, AttrSet(n)) && s < |rec.slots| && s !in idle
    ensures AllOneSided(Front(inc, rec, idle), FlatAll(rec.slots[s].recs), aggs)
    ensures Front(inc, rec, idle + [s]) == Cross(Front(inc, rec, idle), FlatAll(rec.slots[s].recs))
  {
    CrossOfSnoc(rec.slots, idle, s);
    CrossAssoc(Cross(inc, Own(rec)), CrossOf(rec.slots, idle), FlatAll(rec.slots[s].recs));
    SlotKeys(rec.slots[s].recs, n.children[s]);
    FrontBesideOne(inc, rec, n, idle, s);
    BesideOneSided(Front(inc, rec, idle), FlatAll(rec.slots[s].recs), AttrSet(n.children[s]), aggs);
  }

  lemma FrontBesideOne(inc: seq<Tuple>, rec: Rec, n: FNode, idle: seq<nat>, s: nat)
    requires Shaped(rec, n) && Beside(inc, AttrSet(n)) && s < |rec.slots| && s !in idle
    ensures Beside(Front(inc, rec, idle), AttrSet(n.children[s]))
  {
    ChildrenOnce(n);
    CrossOfKeys(rec.slots, n.children, idle);
    BelowApart(n.children, idle, s);
    OwnApart(n, [s]);
    assert AttrsBelow(n.children, [s]) == AttrSet(n.children[s]) by { assert [s][1..] == []; }
    RecordKeys(rec, n);
    BesideCross(inc, Own(rec), n.attrs, AttrSet(n.children[s]));
    BesideCross(Cross(inc, Own(rec)), CrossOf(rec.slots, idle), AttrsBelow(n.children, idle), AttrSet(n.children[s]));
  }

  lemma FrontBeside(inc: seq<Tuple>, rec: Rec, n: FNode, idle: seq<nat>, walk: seq<nat>)
    requires Shaped(rec, n) && Beside(inc, AttrSet(n))
    requires (forall i :: i in walk ==> i < |n.children|) && forall i :: i in walk ==> i !in idle
    ensures Beside(Front(inc, rec, idle), AttrsBelow(n.children, walk))
  {
    AttrsBelowMembers(n.children, walk);
    forall t, a | t in Front(inc, rec, idle) && a in AttrsBelow(n.children, walk) ensures a !in t {
      var i :| i in walk && i < |n.children| && a in AttrSet(n.children[i]);
      FrontBesideOne(inc, rec, n, idle, i);
    }
  }

  function Entered(bags: seq<int> -> seq<Tuple>, front: seq<Tuple>, row: seq<int>): seq<int> -> seq<Tuple> {
    k => if k == row then bags(k) + front else bags(k)
  }

  lemma EnteredIs(bags: seq<int> -> seq<Tuple>, front: seq<Tuple>, slots: seq<Slot>, row: seq<int>, keys: seq<Attr>)
    requires |row| == |keys|
    ensures SameBags(Entered(bags, front, row), AddedTo(bags, front, CrossOf(slots, []), row, keys))
  {
    var unit: Tuple := map[];
    assert CrossOf(slots, []) == [unit] && [unit][1..] == [];
    assert RowFor(row, unit, keys) == row;
    CrossUnit(front);
    CrossEmptyRight(front);
    forall k ensures Perm(Entered(bags, front, row)(k), AddedTo(bags, front, [unit], row, keys)(k)) {
      assert Group([unit], row, keys, k) == if row == k then [unit] else [];
      assert bags(k) + [] == bags(k);
    }
  }

  /** The slots still to be walked: the next one and the rest. */
  lemma WalkFacts(slots: seq<Slot>, ns: seq<FNode>, walk: seq<nat>, index: nat, inc: seq<Tuple>)
    requires SlotsConform(slots, ns) && AtMostOnce(AttrBagAll(ns)) && index < |walk| && NoDup(walk)
    requires (forall i :: i in walk ==> i < |ns|) && walk[index] in walk && Beside(inc, AttrsBelow(ns, walk[index..]))
    ensures CrossOf(slots, walk[index..]) == Cross(FlatAll(slots[walk[index]].recs), CrossOf(slots, walk[index + 1..]))
    ensures AttrSet(ns[walk[index]]) <= AttrsBelow(ns, walk[index..]) && Beside(inc, AttrSet(ns[walk[index]]))
    ensures AttrsBelow(ns, walk[index + 1..]) <= AttrsBelow(ns, walk[index..]) && Beside(inc, AttrsBelow(ns, walk[index + 1..]))
    ensures AttrSet(ns[walk[index]]) !! AttrsBelow(ns, walk[index + 1..])
    ensures KeysWithin(CrossOf(slots, walk[index + 1..]), AttrsBelow(ns, walk[index + 1..]))
    ensures index + 1 == |walk| ==> CrossOf(slots, walk[index + 1..]) == [map[]]
  {
    var rest := walk[index + 1..];
    assert walk[index..][0] == walk[index] && walk[index..][1..] == rest;
    assert walk[index] !in rest;
    BelowApart(ns, rest, walk[index]);
    CrossOfKeys(slots, ns, rest);
  }

  lemma NoneYet(bags: seq<int> -> seq<Tuple>, inc: seq<Tuple>, recs: seq<Rec>, rest: seq<Tuple>, row: seq<int>, keys: seq<Attr>)
    requires |row| == |keys|
    ensures SameBags(bags, AddedTo(bags, inc, Cross(FlatAll(recs[..0]), rest), row, keys))
  {
    AddedNothing(bags, inc, Cross(FlatAll(recs[..0]), rest), row, keys);
  }

  lemma OneMoreRecord(bags: seq<int> -> seq<Tuple>, inc: seq<Tuple>, recs: seq<Rec>, rest: seq<Tuple>, i: nat, row: seq<int>, keys: seq<Attr>)
    requires |row| == |keys| && i < |recs|
    ensures SameBags(AddedTo(AddedTo(bags, inc, Cross(FlatAll(recs[..i]), rest), row, keys), inc, Cross(Flat(recs[i]), rest), row, keys),
                     AddedTo(bags, inc, Cross(FlatAll(recs[..i + 1]), rest), row, keys))
  {
    FlatAllSnoc(recs, i);
    CrossAppendLeft(FlatAll(recs[..i]), Flat(recs[i]), rest);
    AddedTwice(bags, inc, Cross(FlatAll(recs[..i]), rest), Cross(Flat(recs[i]), rest), Cross(FlatAll(recs[..i + 1]), rest), row, keys);
  }

  /** In the last slot the row may hold leftovers of earlier children; they are overwritten. */
  lemma LastSlot(bags: seq<int> -> seq<Tuple>, inc: seq<Tuple>, r: Rec, n: FNode, row: seq<int>, had: seq<int>, keys: seq<Attr>, rest: seq<Tuple>)
    requires Shaped(r, n) && RowKept(row, had, AttrSet(n), keys) && rest == [map[]]
    ensures SameBags(AddedTo(bags, inc, Flat(r), had, keys), AddedTo(bags, inc, Cross(Flat(r), rest), row, keys))
  {
    CrossUnit(Flat(r));
    forall t | t in Flat(r) ensures t.Keys == AttrSet(n) { FlatKeys(r, n, t); }
    forall k ensures Perm(AddedTo(bags, inc, Flat(r), had, keys)(k), AddedTo(bags, inc, Cross(Flat(r), rest), row, keys)(k)) {
      GroupSameRow(Flat(r), had, row, keys, k);
    }
  }

  function NoBags(): seq<int> -> seq<Tuple> {
    k => []
  }

  /** A table grouped from nothing, for a nested branch. */
  ghost predicate GroupedAlone(nested: Out, b: seq<Tuple>, row: seq<int>, keys: seq<Attr>, aggs: seq<Aggregate>) {
    |row| == |keys| && OutIs(nested, AddedTo(NoBags(), [map[]], b, row, keys), true, aggs)
  }

  /** It holds the groups. */
  lemma NestedIs(nested: Out, b: seq<Tuple>, row: seq<int>, keys: seq<Attr>, aggs: seq<Aggregate>, k: seq<int>)
    requires GroupedAlone(nested, b, row, keys, aggs)
    ensures k in nested <==> Group(b, row, keys, k) != []
    ensures k in nested ==> FoldIs(nested[k], Group(b, row, keys, k), true, aggs) && |k| == |keys|
    ensures InRanges(Group(b, row, keys, k), aggs)
  {
    var g := Group(b, row, keys, k);
    CrossUnit(g);
    assert AddedTo(NoBags(), [map[]], b, row, keys)(k) == [] + g && [] + g == g;
    assert EntryIs(nested, g, k, true, aggs);
    GroupMembers(b, row, keys, k);
    if g != [] { assert g[0] in g; }
  }

  lemma NestedStart(aggs: seq<Aggregate>)
    ensures OutIs(map[], NoBags(), true, aggs)
  {}

  /** One more of a branch's groups carried into the remaining branches. */
  lemma CarryStep(bags: seq<int> -> seq<Tuple>, inc: seq<Tuple>, b: seq<Tuple>, rest: seq<Tuple>, row: seq<int>, keys: seq<Attr>,
                  done: set<seq<int>>, k: seq<int>)
    requires |row| == |k| == |keys| && k !in done && Disjoint(b, rest)
    ensures SameBags(AddedTo(AddedTo(bags, inc, Cross(GroupsIn(b, row, keys, done), rest), row, keys),
                           Cross(inc, Group(b, row, keys, k)), rest, k, keys),
                     AddedTo(bags, inc, Cross(GroupsIn(b, row, keys, done + {k}), rest), row, keys))
  {
    var g, old', new' := Group(b, row, keys, k), GroupsIn(b, row, keys, done), GroupsIn(b, row, keys, done + {k});
    var so := AddedTo(bags, inc, Cross(old', rest), row, keys);
    GroupMembers(b, row, keys, k);
    OneMoreGroup(b, row, keys, done, k);
    CrossCongLeft(new', old' + g, rest);
    CrossAppendLeft(old', g, rest);
    AddedTwice(bags, inc, Cross(old', rest), Cross(g, rest), Cross(new', rest), row, keys);
    forall q ensures AddedTo(so, Cross(inc, g), rest, k, keys)(q) == AddedTo(so, inc, Cross(g, rest), row, keys)(q) {
      GroupCross(g, rest, row, keys, k, q);
      CrossAssoc(inc, g, Group(rest, k, keys, q));
    }
    SameTrans(AddedTo(so, Cross(inc, g), rest, k, keys), AddedTo(so, inc, Cross(g, rest), row, keys),
              AddedTo(bags, inc, Cross(new', rest), row, keys));
  }

  /** What the groups have become once those of `done` have been carried on. */
  ghost function CarriedBags(bags: seq<int> -> seq<Tuple>, inc: seq<Tuple>, b: seq<Tuple>, rest: seq<Tuple>, row: seq<int>,
                             keys: seq<Attr>, done: set<seq<int>>): seq<int> -> seq<Tuple>
    requires |row| == |keys|
  {
    AddedTo(bags, inc, Cross(GroupsIn(b, row, keys, done), rest), row, keys)
  }

  ghost predicate Carried(cur: Out, bags: seq<int> -> seq<Tuple>, inc: seq<Tuple>, b: seq<Tuple>, rest: seq<Tuple>,
                          row: seq<int>, keys: seq<Attr>, done: set<seq<int>>, aggs: seq<Aggregate>)
    requires |row| == |keys|
  {
    OutIs(cur, CarriedBags(bags, inc, b, rest, row, keys, done), true, aggs)
  }

  lemma CarriedNone(out: Out, bags: seq<int> -> seq<Tuple>, inc: seq<Tuple>, b: seq<Tuple>, rest: seq<Tuple>,
                    row: seq<int>, keys: seq<Attr>, aggs: seq<Aggregate>)
    requires |row| == |keys| && OutIs(out, bags, true, aggs)
    ensures Carried(out, bags, inc, b, rest, row, keys, {}, aggs)
  {
    hide OutIs, Cross, GroupsIn, SameBags;
    NoGroups(b, row, keys);
    CrossNothing(rest);
    AddedNothing(bags, inc, Cross(GroupsIn(b, row, keys, {}), rest), row, keys);
    OutSame(out, bags, CarriedBags(bags, inc, b, rest, row, keys, {}), true, aggs);
  }

  lemma CarriedAll(cur: Out, bags: seq<int> -> seq<Tuple>, inc: seq<Tuple>, b: seq<Tuple>, rest: seq<Tuple>,
                   row: seq<int>, keys: seq<Attr>, done: set<seq<int>>, aggs: seq<Aggregate>)
    requires |row| == |keys| && Carried(cur, bags, inc, b, rest, row, keys, done, aggs) && GroupsIn(b, row, keys, done) == b
    ensures OutIs(cur, AddedTo(bags, inc, Cross(b, rest), row, keys), true, aggs)
  {
    hide OutIs, Cross, GroupsIn, AddedTo;
  }

  lemma CarriedMore(step: Out, bags: seq<int> -> seq<Tuple>, inc: seq<Tuple>, b: seq<Tuple>, rest: seq<Tuple>,
                    row: seq<int>, keys: seq<Attr>, done: set<seq<int>>, k: seq<int>, aggs: seq<Aggregate>)
    requires |row| == |k| == |keys| && k !in done && Disjoint(b, rest)
    requires OutIs(step, AddedTo(CarriedBags(bags, inc, b, rest, row, keys, done), Cross(inc, Group(b, row, keys, k)), rest, k, keys), true, aggs)
    ensures Carried(step, bags, inc, b, rest, row, keys, done + {k}, aggs)
  {
    hide OutIs, Cross, GroupsIn, Group, SameBags, Disjoint, AddedTo;
    CarryStep(bags, inc, b, rest, row, keys, done, k);
    OutSame(step, AddedTo(CarriedBags(bags, inc, b, rest, row, keys, done), Cross(inc, Group(b, row, keys, k)), rest, k, keys),
            CarriedBags(bags, inc, b, rest, row, keys, done + {k}), true, aggs);
  }

  class GroupFold {
    const rep: FRepresentation
    const keys: seq<Attr>
    const aggs: seq<Aggregate>
    ghost const types: Types

    constructor (rep: FRepresentation, keys: seq<Attr>, aggs: seq<Aggregate>, ghost types: Types)
      ensures this.rep == rep && this.keys == keys && this.aggs == aggs && this.types == types
    {
      this.rep, this.keys, this.aggs, this.types := rep, keys, aggs, types;
    }

    /** The walk stands at a record of node `n`. */
    ghost predicate Here(a: Address, n: FNode)
      reads rep
    {
      rep.Valid() && Exists(rep.roots, a) && Shaped(RecAt(rep.roots, a), n) && Ranged(RecAt(rep.roots, a), types)
    }

    /** The fold of a whole subtree. */
    method SubtreeFold(a: Address, n: FNode) returns (r: Outcome<Fold>)
      requires Here(a, n)
      modifies rep`cache
      ensures rep.Valid() && (r.Ok? ==> FoldIs(r.value, Flat(RecAt(rep.roots, a)), false, aggs))
    {
      hide Faithful, Settled, Flat, Conforms, ExtremeOf, SumOf;
      ghost var flat := Flat(RecAt(rep.roots, a));
      SizeIsCount(RecAt(rep.roots, a));
      var count :- rep.SubtreeSize(a);
      var sums: seq<int>, extremes: seq<int> := [], [];
      for i := 0 to |aggs|
        invariant rep.Valid() && |sums| == |extremes| == i
        invariant forall j :: 0 <= j < i ==> AggregateIs(Fold(count, sums, extremes), flat, false, aggs[j], j)
      {
        var sum, extreme := 0, Identity(WantsMax(aggs[i]));
        if IsSum(aggs[i]) {
          sum :- SubtreeSum(rep, a, aggs[i].attr, n);
        } else if IsExtreme(aggs[i]) {
          FlatRange(RecAt(rep.roots, a), types, aggs[i].attr);
          ExtremeInRange(flat, aggs[i].attr, WantsMax(aggs[i]));
          NoExtreme(aggs[i].attr, WantsMax(aggs[i]));
          extreme :- SubtreeExtreme(rep, a, aggs[i].attr, WantsMax(aggs[i]), n, types);
        }
        sums, extremes := sums + [sum], extremes + [extreme];
      }
      return Ok(Fold(count, sums, extremes));
    }

    /** The fold of all records in one slot: the sum over them. */
    method SlotTotals(a: Address, s: nat, n: FNode) returns (r: Outcome<Fold>)
      requires Here(a, n) && s < |RecAt(rep.roots, a).slots|
      modifies rep`cache
      ensures rep.Valid() && (r.Ok? ==> FoldIs(r.value, FlatAll(RecAt(rep.roots, a).slots[s].recs), false, aggs))
    {
      hide Faithful, Settled, Flat, FlatAll, FoldIs, InRanges, Shaped;
      var recs := RecAt(rep.roots, a).slots[s].recs;
      var total := Empty(aggs);
      NoFlat();
      for i := 0 to |recs|
        invariant rep.Valid() && FoldIs(total, FlatAll(recs[..i]), false, aggs)
      {
        var c := Child(a, s, i);
        FlatAllSnoc(recs, i);
        if rep.IsPruned(c) {
          PrunedIsEmpty(rep.roots, rep.cache, c);
          EmptyFlat(recs[i]);
          assert FlatAll(recs[..i]) + [] == FlatAll(recs[..i]);
          continue;
        }
        ShapedChild(RecAt(rep.roots, a), n, s, i);
        assert recs[i] in recs;
        RangesOfAll(recs[..i], types, aggs);
        RangesOfOne(recs[i], types, aggs);
        var child :- SubtreeFold(c, n.children[s]);
        total :- Alternatives(total, child, aggs, FlatAll(recs[..i]), Flat(recs[i]), false);
      }
      assert recs[..|recs|] == recs;
      return Ok(total);
    }

    /** The record's own contribution before any child is considered. */
    method OwnFold(rec: Rec) returns (r: Outcome<Fold>)
      requires Ranged(rec, types) && rec.weight > 0
      ensures r.Ok? ==> FoldIs(r.value, Own(rec), false, aggs)
    {
      hide SumOf, ExtremeOf;
      var sums: seq<int>, extremes: seq<int> := [], [];
      for i := 0 to |aggs|
        invariant |sums| == |extremes| == i
        invariant forall j :: 0 <= j < i ==> AggregateIs(Fold(rec.weight, sums, extremes), Own(rec), false, aggs[j], j)
      {
        var sum, extreme, x := 0, Identity(WantsMax(aggs[i])), aggs[i].attr;
        OwnNumbers(rec, types, x, WantsMax(aggs[i]));
        if IsExtreme(aggs[i]) && x in rec.vals { extreme := rec.vals[x]; }
        if IsSum(aggs[i]) && x in rec.vals { sum :- TimesInt(rec.vals[x], rec.weight); }
        sums, extremes := sums + [sum], extremes + [extreme];
      }
      return Ok(Fold(rec.weight, sums, extremes));
    }

    /** Folds in the record itself and every slot without a key below it; the other slots are
        left to be walked. */
    method Gather(a: Address, incoming: Fold, n: FNode, ghost inc: seq<Tuple>, ghost d: bool)
      returns (r: Outcome<Fold>, ghost idle: seq<nat>, walk: seq<nat>)
      requires Here(a, n) && RecAt(rep.roots, a).weight > 0
      requires FoldIs(incoming, inc, d, aggs) && InRanges(inc, aggs) && Beside(inc, AttrSet(n))
      modifies rep`cache
      ensures rep.Valid()
      ensures r.Ok? ==> Picked(n, idle, walk, |n.children|) && Sorted(RecAt(rep.roots, a).slots, |n.children|, idle, walk)
      ensures r.Ok? ==> var front := Front(inc, RecAt(rep.roots, a), idle);
        FoldIs(r.value, front, d, aggs) && InRanges(front, aggs)
    {
      hide Faithful, Settled, FoldIs, InRanges, Sorted, Cross, Conforms, Ranged, Picked, Front, Carries, Shaped, CrossOf, AllOneSided;
      var rec := RecAt(rep.roots, a);
      idle, walk := [], [];
      HereFacts(a, n);
      FrontStart(inc, rec, n, aggs);
      RangesOfOne(rec, types, aggs);
      var own := OwnFold(rec);
      if own.Failed? { return Failed(own.error), [], []; }
      r := Combine(incoming, own.value, aggs, inc, Own(rec), d, false);
      if r.Failed? { return; }
      var here := r.value;
      PickedStart(n);
      SortedStart(rec.slots);
      for s := 0 to |rec.slots|
        invariant rep.Valid() && Picked(n, idle, walk, s) && Sorted(rec.slots, s, idle, walk)
        invariant FoldIs(here, Front(inc, rec, idle), d, aggs) && InRanges(Front(inc, rec, idle), aggs)
      {
        SortedStep(rec.slots, n.children, s, idle, walk);
        PickedStep(n, idle, walk, s);
        PickedBelow(n, idle, walk, s);
        if Carries(n.children[s], keys) {
          walk := walk + [s];
          continue;
        }
        var totals := SlotTotals(a, s, n);
        if totals.Failed? { return Failed(totals.error), [], []; }
        RangesOfAll(rec.slots[s].recs, types, aggs);
        FrontStep(inc, rec, n, idle, s, aggs);
        r := Combine(here, totals.value, aggs, Front(inc, rec, idle), FlatAll(rec.slots[s].recs), d, false);
        if r.Failed? { return; }
        here := r.value;
        idle := idle + [s];
      }
      r := Ok(here);
    }

    /** The first `s` children, told apart by whether they carry keys. */
    ghost predicate Picked(n: FNode, idle: seq<nat>, walk: seq<nat>, s: nat) {
      && s <= |n.children| && NoDup(walk)
      && (forall i :: i in idle ==> i < s && !Carries(n.children[i], keys))
      && (forall i :: i in walk ==> i < s && Carries(n.children[i], keys))
      && forall i :: 0 <= i < s && Carries(n.children[i], keys) ==> i in walk
    }

    lemma PickedStart(n: FNode)
      ensures Picked(n, [], [], 0)
    {}

    lemma PickedBelow(n: FNode, idle: seq<nat>, walk: seq<nat>, s: nat)
      requires Picked(n, idle, walk, s)
      ensures s !in idle
    {}

    lemma PickedStep(n: FNode, idle: seq<nat>, walk: seq<nat>, s: nat)
      requires Picked(n, idle, walk, s) && s < |n.children|
      ensures Carries(n.children[s], keys) ==> Picked(n, idle, walk + [s], s + 1)
      ensures !Carries(n.children[s], keys) ==> Picked(n, idle + [s], walk, s + 1)
    {
      if Carries(n.children[s], keys) {
        assert s !in walk;
        NoDupAppend(walk, [s]);
        assert s in walk + [s];
        assert forall i :: i in walk ==> i in walk + [s];
      }
    }

    lemma PickedAdds(bags: seq<int> -> seq<Tuple>, inc: seq<Tuple>, rec: Rec, n: FNode, idle: seq<nat>, walk: seq<nat>, row: seq<int>)
      requires |row| == |keys| && Shaped(rec, n) && Picked(n, idle, walk, |n.children|) && Sorted(rec.slots, |n.children|, idle, walk)
      ensures SameBags(AddedTo(bags, Front(inc, rec, idle), CrossOf(rec.slots, walk), RowFor(row, rec.vals, keys), keys),
                       AddedTo(bags, inc, Flat(rec), row, keys))
    {
      RecordAdds(bags, inc, rec, n, idle, walk, row, keys);
    }

    lemma PickedBranches(n: FNode, idle: seq<nat>, walk: seq<nat>)
      requires Picked(n, idle, walk, |n.children|)
      ensures walk == [] ==> !Branches(n, keys)
      ensures walk != [] ==> walk[0] < |n.children| && walk[0] in walk
      ensures walk != [] ==> (Branches(n, keys) <==> |walk| > 1 || Branches(n.children[walk[0]], keys))
      ensures NoDup(walk) && (forall i :: i in walk ==> i < |n.children|) && forall i :: i in walk ==> i !in idle
    {
      if |walk| == 1 { assert walk == [walk[0]]; }
      if |walk| > 1 {
        assert walk[0] in walk && walk[1] in walk && walk[0] != walk[1];
        assert CarriesAt(n, walk[0], keys) && CarriesAt(n, walk[1], keys);
      }
      if walk != [] { assert walk[0] in walk && CarriesAt(n, walk[0], keys); }
    }

    lemma SlotExists(a: Address, n: FNode, s: nat)
      requires Here(a, n) && s < |n.children|
      ensures s < |RecAt(rep.roots, a).slots|
    {}

    lemma HereFacts(a: Address, n: FNode)
      requires Here(a, n)
      ensures var rec := RecAt(rep.roots, a);
        && |rec.slots| == |n.children| && SlotsConform(rec.slots, n.children) && AtMostOnce(AttrBagAll(n.children))
        && Shaped(rec, n) && Ranged(rec, types)
        && forall s :: 0 <= s < |rec.slots| ==> RangedAll(rec.slots[s].recs, types)
    {
      ChildrenOnce(n);
    }

    /** Adds the fold to the row's entry, making one that counts nothing first where there is none. */
    method Enter(out: Out, row: seq<int>, here: Fold, ghost front: seq<Tuple>, ghost bags: seq<int> -> seq<Tuple>, ghost d: bool)
      returns (r: Outcome<Out>)
      requires OutIs(out, bags, d, aggs) && FoldIs(here, front, d, aggs) && InRanges(front, aggs) && front != []
      ensures r.Ok? ==> OutIs(r.value, Entered(bags, front, row), d, aggs)
    {
      hide FoldIs, InRanges;
      assert EntryIs(out, bags(row), row, d, aggs);
      var found := if row in out then out[row] else Empty(aggs);
      OneTuple(aggs);
      var sum :- Alternatives(found, here, aggs, bags(row), front, d);
      forall k ensures EntryIs(out[row := sum], Entered(bags, front, row)(k), k, d, aggs) {
        assert EntryIs(out, bags(k), k, d, aggs);
      }
      return Ok(out[row := sum]);
    }

    /** Walks one record: writes its key columns into the row, folds in whatever carries no key,
        and hands the rest to the branches that do. */
    method Descend(a: Address, row: seq<int>, incoming: Fold, out: Out, n: FNode, ghost inc: seq<Tuple>, ghost d: bool,
                   ghost bags: seq<int> -> seq<Tuple>, ghost dirty: bool) returns (r: Outcome<Out>, row': seq<int>)
      requires Here(a, n) && |row| == |keys|
      requires FoldIs(incoming, inc, d, aggs) && InRanges(inc, aggs) && Beside(inc, AttrSet(n))
      requires OutIs(out, bags, dirty, aggs) && dirty == (d || Branches(n, keys))
      modifies rep`cache
      ensures rep.Valid() && |row'| == |keys|
      ensures r.Ok? ==> OutIs(r.value, AddedTo(bags, inc, Flat(RecAt(rep.roots, a)), row, keys), dirty, aggs)
      ensures RowKept(row, row', AttrSet(n), keys)
      decreases RecAt(rep.roots, a), 1, 0
    {
      hide Faithful, Settled, Flat, Shaped, FoldIs, InRanges, OutIs, Sorted, Branches, Cross, RowFor, Group, Conforms, Ranged,
           Picked, Front, RowKept, SameBags, CrossOf;
      row' := row;
      KeptAll(row, AttrSet(n), keys);
      var rec := RecAt(rep.roots, a);
      ghost var goal := AddedTo(bags, inc, Flat(rec), row, keys);
      var size := rep.SubtreeSize(a);
      if size.Failed? { return Failed(size.error), row; }
      if incoming.count == 0 || size.value == 0 {
        FoldCount(incoming, inc, d, aggs);
        if size.value == 0 { EmptyFlat(rec); }
        AddedNothing(bags, inc, Flat(rec), row, keys);
        OutSame(out, bags, goal, dirty, aggs);
        return Ok(out), row;
      }
      row' := RowFor(row, rec.vals, keys);
      OwnRow(rec, n, row, keys);
      WeightAbove(rec);
      var gathered, idle, walk := Gather(a, incoming, n, inc, d);
      if gathered.Failed? { return Failed(gathered.error), row'; }
      var here := gathered.value;
      ghost var front := Front(inc, rec, idle);
      ghost var mine := AddedTo(bags, front, CrossOf(rec.slots, walk), row', keys);
      PickedAdds(bags, inc, rec, n, idle, walk, row);
      FoldCount(here, front, d, aggs);
      if here.count == 0 {
        AddedNothing(bags, front, CrossOf(rec.slots, walk), row', keys);
        OutSame(out, bags, mine, dirty, aggs);
        OutSame(out, mine, goal, dirty, aggs);
        return Ok(out), row';
      }
      PickedBranches(n, idle, walk);
      if walk == [] {
        var entered := Enter(out, row', here, front, bags, d);
        if entered.Failed? { return Failed(entered.error), row'; }
        EnteredIs(bags, front, rec.slots, row', keys);
        OutSame(entered.value, Entered(bags, front, row'), mine, dirty, aggs);
        OutSame(entered.value, mine, goal, dirty, aggs);
        return entered, row';
      }
      ghost var own := row';
      FrontBeside(inc, rec, n, idle, walk);
      r, row' := Combinations(a, walk, 0, row', here, out, n, front, d, bags, dirty);
      assert walk[0..] == walk;
      BelowWithin(n, walk);
      KeptMore(own, row', AttrsBelow(n.children, walk), AttrSet(n), keys);
      KeptTrans(row, own, row', AttrSet(n), keys);
      if r.Ok? { OutSame(r.value, mine, goal, dirty, aggs); }
    }

    /** The product over the slots that carry keys, from `index` on: each child's groups, combined
        with what the remaining slots make of them. The last slot writes straight into the table. */
    method Combinations(a: Address, walk: seq<nat>, index: nat, row: seq<int>, incoming: Fold, out: Out, n: FNode,
                        ghost inc: seq<Tuple>, ghost d: bool, ghost bags: seq<int> -> seq<Tuple>, ghost dirty: bool)
      returns (r: Outcome<Out>, row': seq<int>)
      requires Here(a, n) && |row| == |keys| && index < |walk| && NoDup(walk) && forall i :: i in walk ==> i < |n.children|
      requires FoldIs(incoming, inc, d, aggs) && InRanges(inc, aggs) && Beside(inc, AttrsBelow(n.children, walk[index..]))
      requires OutIs(out, bags, dirty, aggs) && walk[index] in walk
      requires dirty == (index + 1 < |walk| || d || Branches(n.children[walk[index]], keys))
      modifies rep`cache
      ensures rep.Valid() && |row'| == |keys|
      ensures r.Ok? ==> OutIs(r.value, AddedTo(bags, inc, CrossOf(RecAt(rep.roots, a).slots, walk[index..]), row, keys), dirty, aggs)
      ensures RowKept(row, row', AttrsBelow(n.children, walk[index..]), keys)
      decreases RecAt(rep.roots, a), 0, |walk| - index, 1
    {
      hide Faithful, Settled, Flat, FlatAll, Shaped, FoldIs, InRanges, OutIs, Branches, Cross, RowFor, Group, Conforms, Ranged,
           RowKept, SameBags, CrossOf, Beside, AttrsBelow, NoDup;
      var s := walk[index];
      SlotExists(a, n, s);
      var recs := RecAt(rep.roots, a).slots[s].recs;
      ghost var child, below := n.children[s], AttrsBelow(n.children, walk[index..]);
      ghost var rest := CrossOf(RecAt(rep.roots, a).slots, walk[index + 1..]);
      HereFacts(a, n);
      WalkFacts(RecAt(rep.roots, a).slots, n.children, walk, index, inc);
      row' := row;
      KeptAll(row, AttrSet(child), keys);
      var cur := out;
      NoneYet(bags, inc, recs, rest, row, keys);
      OutSame(cur, bags, AddedTo(bags, inc, Cross(FlatAll(recs[..0]), rest), row, keys), dirty, aggs);
      for i := 0 to |recs|
        invariant rep.Valid() && |row'| == |keys| && RowKept(row, row', AttrSet(child), keys)
        invariant OutIs(cur, AddedTo(bags, inc, Cross(FlatAll(recs[..i]), rest), row, keys), dirty, aggs)
      {
        var c := Child(a, s, i);
        ghost var sofar := AddedTo(bags, inc, Cross(FlatAll(recs[..i]), rest), row, keys);
        OneMoreRecord(bags, inc, recs, rest, i, row, keys);
        ghost var next := AddedTo(bags, inc, Cross(FlatAll(recs[..i + 1]), rest), row, keys);
        if rep.IsPruned(c) {
          PrunedIsEmpty(rep.roots, rep.cache, c);
          EmptyFlat(recs[i]);
          CrossNothing(rest);
          AddedNothing(sofar, inc, Cross(Flat(recs[i]), rest), row, keys);
          OutSame(cur, sofar, AddedTo(sofar, inc, Cross(Flat(recs[i]), rest), row, keys), dirty, aggs);
          OutSame(cur, AddedTo(sofar, inc, Cross(Flat(recs[i]), rest), row, keys), next, dirty, aggs);
          continue;
        }
        ShapedChild(RecAt(rep.roots, a), n, s, i);
        assert recs[i] in recs;
        var step: Outcome<Out>;
        if index + 1 == |walk| {
          ghost var had := row';
          step, row' := Descend(c, row', incoming, cur, n.children[s], inc, d, sofar, dirty);
          LastSlot(sofar, inc, recs[i], child, row, had, keys, rest);
          if step.Ok? {
            OutSame(step.value, AddedTo(sofar, inc, Flat(recs[i]), had, keys),
                    AddedTo(sofar, inc, Cross(Flat(recs[i]), rest), row, keys), dirty, aggs);
          }
          KeptTrans(row, had, row', AttrSet(child), keys);
        } else {
          step := Carry(a, walk, index, i, row, incoming, cur, n, inc, d, sofar);
        }
        if step.Failed? {
          KeptMore(row, row', AttrSet(child), below, keys);
          return Failed(step.error), row';
        }
        cur := step.value;
        OutSame(cur, AddedTo(sofar, inc, Cross(Flat(recs[i]), rest), row, keys), next, dirty, aggs);
      }
      assert recs[..|recs|] == recs;
      KeptMore(row, row', AttrSet(child), below, keys);
      r := Ok(cur);
    }

    lemma NestedAlone(nested: Out, rec: Rec, row: seq<int>)
      requires |row| == |keys| && OutIs(nested, AddedTo(NoBags(), [map[]], Flat(rec), row, keys), true, aggs)
      ensures GroupedAlone(nested, Flat(rec), row, keys, aggs)
    {}

    /** Groups one child by itself, then carries each of its groups into the remaining branches. */
    method Carry(a: Address, walk: seq<nat>, index: nat, i: nat, row: seq<int>, incoming: Fold, out: Out, n: FNode,
                 ghost inc: seq<Tuple>, ghost d: bool, ghost bags: seq<int> -> seq<Tuple>) returns (r: Outcome<Out>)
      requires Here(a, n) && |row| == |keys| && index + 1 < |walk| && NoDup(walk) && forall j :: j in walk ==> j < |n.children|
      requires walk[index] in walk && i < |RecAt(rep.roots, a).slots[walk[index]].recs|
      requires FoldIs(incoming, inc, d, aggs) && InRanges(inc, aggs) && Beside(inc, AttrsBelow(n.children, walk[index..]))
      requires OutIs(out, bags, true, aggs)
      modifies rep`cache
      ensures rep.Valid()
      ensures r.Ok? ==> var slots := RecAt(rep.roots, a).slots;
        OutIs(r.value, AddedTo(bags, inc, Cross(Flat(slots[walk[index]].recs[i]), CrossOf(slots, walk[index + 1..])), row, keys), true, aggs)
      decreases RecAt(rep.roots, a), 0, |walk| - index, 0
    {
      hide Faithful, Settled, Flat, FlatAll, Shaped, FoldIs, InRanges, OutIs, Branches, Cross, RowFor, Group, Conforms, Ranged,
           RowKept, SameBags, CrossOf, Beside, AttrsBelow, NoDup, GroupsIn, KeysWithin, AllOneSided, GroupedAlone;
      var s := walk[index];
      SlotExists(a, n, s);
      var c := Child(a, s, i);
      ghost var rec, child := RecAt(rep.roots, a).slots[s].recs[i], n.children[s];
      ghost var rest := CrossOf(RecAt(rep.roots, a).slots, walk[index + 1..]);
      HereFacts(a, n);
      WalkFacts(RecAt(rep.roots, a).slots, n.children, walk, index, inc);
      ShapedChild(RecAt(rep.roots, a), n, s, i);
      assert RecAt(rep.roots, a).slots[s].recs[i] in RecAt(rep.roots, a).slots[s].recs;
      OneTuple(aggs);
      NestedStart(aggs);
      UnitBeside(AttrSet(child));
      var grouped, unused := Descend(c, row, Default(aggs), map[], n.children[s], [map[]], true, NoBags(), true);
      if grouped.Failed? { return Failed(grouped.error); }
      var nested := grouped.value;
      NestedAlone(nested, rec, row);
      RecordKeys(rec, child);
      WithinDisjoint(Flat(rec), rest, AttrSet(child), AttrsBelow(n.children, walk[index + 1..]));
      r := CarryGroups(a, walk, index, row, nested, incoming, out, n, inc, d, Flat(rec), bags);
    }

    /** Carries every group of a child into the remaining branches. */
    method CarryGroups(a: Address, walk: seq<nat>, index: nat, row: seq<int>, nested: Out, incoming: Fold, out: Out, n: FNode,
                       ghost inc: seq<Tuple>, ghost d: bool, ghost b: seq<Tuple>, ghost bags: seq<int> -> seq<Tuple>) returns (r: Outcome<Out>)
      requires Here(a, n) && |row| == |keys| && index + 1 < |walk| && NoDup(walk) && forall j :: j in walk ==> j < |n.children|
      requires walk[index] in walk && FoldIs(incoming, inc, d, aggs) && InRanges(inc, aggs) && GroupedAlone(nested, b, row, keys, aggs)
      requires Beside(inc, AttrSet(n.children[walk[index]])) && Beside(inc, AttrsBelow(n.children, walk[index + 1..]))
      requires KeysWithin(b, AttrSet(n.children[walk[index]]))
      requires AttrSet(n.children[walk[index]]) !! AttrsBelow(n.children, walk[index + 1..])
      requires Disjoint(b, CrossOf(RecAt(rep.roots, a).slots, walk[index + 1..])) && OutIs(out, bags, true, aggs)
      modifies rep`cache
      ensures rep.Valid()
      ensures r.Ok? ==> OutIs(r.value, AddedTo(bags, inc, Cross(b, CrossOf(RecAt(rep.roots, a).slots, walk[index + 1..])), row, keys), true, aggs)
      decreases RecAt(rep.roots, a), 0, |walk| - index - 1, 3
    {
      hide Faithful, Settled, Flat, FlatAll, Shaped, FoldIs, InRanges, OutIs, Branches, Cross, RowFor, Group, Conforms, Ranged,
           RowKept, CrossOf, Beside, AttrsBelow, NoDup, GroupsIn, KeysWithin, GroupedAlone, Disjoint, AttrSet, AddedTo, CarriedBags;
      ghost var child, rest := n.children[walk[index]], CrossOf(RecAt(rep.roots, a).slots, walk[index + 1..]);
      var left, cur := nested.Keys, out;
      ghost var done: set<seq<int>> := {};
      CarriedNone(out, bags, inc, b, rest, row, keys, aggs);
      while left != {}
        invariant rep.Valid() && left + done == nested.Keys && left !! done
        invariant Carried(cur, bags, inc, b, rest, row, keys, done, aggs)
        decreases |left|
      {
        var k :| k in left;
        NestedIs(nested, b, row, keys, aggs, k);
        GroupKeys(b, row, keys, k, AttrSet(child));
        var step :- CarryGroup(a, walk, index, k, nested[k], incoming, cur, n, inc, d, Group(b, row, keys, k),
                               CarriedBags(bags, inc, b, rest, row, keys, done));
        CarriedMore(step, bags, inc, b, rest, row, keys, done, k, aggs);
        MoveOne(left, done, k);
        cur, left, done := step, left - {k}, done + {k};
      }
      EveryGroup(nested, b, row, keys, aggs);
      AllGroups(b, row, keys, done);
      CarriedAll(cur, bags, inc, b, rest, row, keys, done, aggs);
      return Ok(cur);
    }

    /** Carries one group of a child into the remaining branches. */
    method CarryGroup(a: Address, walk: seq<nat>, index: nat, k: seq<int>, fold: Fold, incoming: Fold, out: Out, n: FNode,
                      ghost inc: seq<Tuple>, ghost d: bool, ghost g: seq<Tuple>, ghost bags: seq<int> -> seq<Tuple>) returns (r: Outcome<Out>)
      requires Here(a, n) && |k| == |keys| && index + 1 < |walk| && NoDup(walk) && forall j :: j in walk ==> j < |n.children|
      requires walk[index] in walk && FoldIs(incoming, inc, d, aggs) && InRanges(inc, aggs) && FoldIs(fold, g, true, aggs) && InRanges(g, aggs)
      requires Beside(inc, AttrSet(n.children[walk[index]])) && Beside(inc, AttrsBelow(n.children, walk[index + 1..]))
      requires KeysWithin(g, AttrSet(n.children[walk[index]]))
      requires AttrSet(n.children[walk[index]]) !! AttrsBelow(n.children, walk[index + 1..])
      requires OutIs(out, bags, true, aggs)
      modifies rep`cache
      ensures rep.Valid()
      ensures r.Ok? ==>
        OutIs(r.value, AddedTo(bags, Cross(inc, g), CrossOf(RecAt(rep.roots, a).slots, walk[index + 1..]), k, keys), true, aggs)
      decreases RecAt(rep.roots, a), 0, |walk| - index - 1, 2
    {
      hide Faithful, Settled, Flat, FlatAll, Shaped, FoldIs, InRanges, OutIs, Branches, Cross, RowFor, Group, Conforms, Ranged,
           RowKept, CrossOf, Beside, AttrsBelow, NoDup, KeysWithin, AllOneSided, AttrSet;
      BesideOneSided(inc, g, AttrSet(n.children[walk[index]]), aggs);
      BesideCross(inc, g, AttrSet(n.children[walk[index]]), AttrsBelow(n.children, walk[index + 1..]));
      var combined :- Combine(incoming, fold, aggs, inc, g, d, true);
      assert walk[index + 1] in walk;
      var row';
      r, row' := Combinations(a, walk, index + 1, k, combined, out, n, Cross(inc, g), true, bags, true);
    }

    /** Groups the whole representation. */
    method Run(tree: FNode) returns (r: Outcome<Out>)
      requires rep.Valid() && ConformsAll(rep.roots, tree) && AtMostOnce(AttrBag(tree)) && RangedAll(rep.roots, types)
      requires forall k :: k in keys ==> k in AttrSet(tree)
      modifies rep`cache
      ensures rep.Valid()
      ensures r.Ok? ==> OutIs(r.value, GroupsBy(FlatAll(rep.roots), keys), Branches(tree, keys), aggs)
    {
      hide Faithful, Settled, Flat, FlatAll, Shaped, FoldIs, InRanges, OutIs, Branches, Cross, RowFor, Group, Conforms, Ranged,
           RowKept, SameBags, Beside;
      var row: seq<int> := seq(|keys|, i => 0);
      ghost var zeros, dirty, unit: seq<Tuple> := row, Branches(tree, keys), [map[]];
      var out: Out := map[];
      NoRoots(keys, dirty, aggs);
      OneTuple(aggs);
      UnitBeside(AttrSet(tree));
      for i := 0 to |rep.roots|
        invariant rep.Valid() && |row| == |keys|
        invariant OutIs(out, GroupsBy(FlatAll(rep.roots[..i]), keys), dirty, aggs)
      {
        ghost var sofar := GroupsBy(FlatAll(rep.roots[..i]), keys);
        ShapedRoot(rep.roots, tree, i);
        if rep.IsPruned(Root(i)) {
          PrunedIsEmpty(rep.roots, rep.cache, Root(i));
          EmptyFlat(rep.roots[i]);
          FlatAllSnoc(rep.roots, i);
          assert FlatAll(rep.roots[..i]) + [] == FlatAll(rep.roots[..i]);
          continue;
        }
        ghost var had := row;
        var step;
        step, row := Descend(Root(i), row, Unit(aggs), out, tree, unit, false, sofar, dirty);
        if step.Failed? { return Failed(step.error); }
        OneMoreRoot(rep.roots, tree, i, had, keys);
        OutSame(step.value, AddedTo(sofar, unit, Flat(rep.roots[i]), had, keys), GroupsBy(FlatAll(rep.roots[..i + 1]), keys), dirty, aggs);
        out := step.value;
      }
      assert rep.roots[..|rep.roots|] == rep.roots;
      return Ok(out);
    }
  }

  lemma MoveOne<T>(left: set<T>, done: set<T>, k: T)
    requires k in left && left !! done
    ensures (left - {k}) + (done + {k}) == left + done && left - {k} !! done + {k}
  {}

  lemma UnitBeside(attrs: set<Attr>)
    ensures Beside([map[]], attrs)
  {}

  lemma CrossNothing(b: seq<Tuple>)
    ensures Cross([], b) == []
  {}

  lemma WithinDisjoint(a: seq<Tuple>, b: seq<Tuple>, x: set<Attr>, y: set<Attr>)
    requires KeysWithin(a, x) && KeysWithin(b, y) && x !! y
    ensures Disjoint(a, b)
  {}

  lemma GroupKeys(b: seq<Tuple>, row: seq<int>, keys: seq<Attr>, k: seq<int>, attrs: set<Attr>)
    requires |row| == |keys| && KeysWithin(b, attrs)
    ensures KeysWithin(Group(b, row, keys, k), attrs)
  {
    GroupMembers(b, row, keys, k);
  }

  lemma EveryGroup(nested: Out, b: seq<Tuple>, row: seq<int>, keys: seq<Attr>, aggs: seq<Aggregate>)
    requires GroupedAlone(nested, b, row, keys, aggs)
    ensures forall t :: t in b ==> RowFor(row, t, keys) in nested
  {
    forall t | t in b ensures RowFor(row, t, keys) in nested {
      var k := RowFor(row, t, keys);
      GroupMembers(b, row, keys, k);
      NestedIs(nested, b, row, keys, aggs, k);
    }
  }

  /** The groups of a bag whose tuples all carry every key. */
  function GroupsBy(b: seq<Tuple>, keys: seq<Attr>): seq<int> -> seq<Tuple> {
    k => Matching(b, keys, k)
  }

  lemma NoRoots(keys: seq<Attr>, dirty: bool, aggs: seq<Aggregate>)
    ensures FlatAll([]) == [] && OutIs(map[], GroupsBy([], keys), dirty, aggs)
  {}

  lemma ShapedRoot(roots: seq<Rec>, tree: FNode, i: nat)
    requires ConformsAll(roots, tree) && AtMostOnce(AttrBag(tree)) && i < |roots|
    ensures Shaped(roots[i], tree)
  {
    assert roots[i] in roots;
  }

  lemma {:induction false} GroupIsMatching(b: seq<Tuple>, row: seq<int>, keys: seq<Attr>, k: seq<int>)
    requires |row| == |keys| && forall t, a :: t in b && a in keys ==> a in t
    ensures Group(b, row, keys, k) == Matching(b, keys, k)
  {
    if b != [] {
      assert b[0] in b && forall t :: t in b[1..] ==> t in b;
      GroupIsMatching(b[1..], row, keys, k);
      assert RowFor(row, b[0], keys) == KeyOf(b[0], keys) by {
        forall p | 0 <= p < |keys| ensures RowFor(row, b[0], keys)[p] == KeyOf(b[0], keys)[p] { assert keys[p] in keys; }
      }
    }
  }

  lemma OneMoreRoot(roots: seq<Rec>, tree: FNode, i: nat, row: seq<int>, keys: seq<Attr>)
    requires i < |roots| && Shaped(roots[i], tree) && |row| == |keys| && forall k :: k in keys ==> k in AttrSet(tree)
    ensures SameBags(AddedTo(GroupsBy(FlatAll(roots[..i]), keys), [map[]], Flat(roots[i]), row, keys),
                     GroupsBy(FlatAll(roots[..i + 1]), keys))
  {
    FlatAllSnoc(roots, i);
    forall t | t in Flat(roots[i]) ensures t.Keys == AttrSet(tree) { FlatKeys(roots[i], tree, t); }
    forall k
      ensures Perm(AddedTo(GroupsBy(FlatAll(roots[..i]), keys), [map[]], Flat(roots[i]), row, keys)(k),
                   GroupsBy(FlatAll(roots[..i + 1]), keys)(k))
    {
      GroupIsMatching(Flat(roots[i]), row, keys, k);
      CrossUnit(Group(Flat(roots[i]), row, keys, k));
      MatchingAppend(FlatAll(roots[..i]), Flat(roots[i]), keys, k);
    }
  }

  //
  // When a minimum or maximum is exact
  //

  /** Keys on one path give exact extremes. Keys that part give an exact one just where some row
      of the group already lies on the far side of zero. */
  lemma ExtremeExactIff(out: Out, bags: seq<int> -> seq<Tuple>, dirty: bool, aggs: seq<Aggregate>, k: seq<int>, i: nat)
    requires OutIs(out, bags, dirty, aggs) && k in out && i < |aggs| && IsExtreme(aggs[i])
    requires forall t :: t in bags(k) ==> aggs[i].attr in t
    ensures |out[k].extremes| == |aggs|
    ensures out[k].extremes[i] == ExtremeOf(bags(k), aggs[i].attr, WantsMax(aggs[i]))
      <==> !dirty || exists t :: t in bags(k) && if WantsMax(aggs[i]) then t[aggs[i].attr] >= 0 else t[aggs[i].attr] <= 0
  {
    var b, x, wantMax := bags(k), aggs[i].attr, WantsMax(aggs[i]);
    assert EntryIs(out, b, k, dirty, aggs);
    assert InRange64(b, x) && AggregateIs(out[k], b, dirty, aggs[i], i);
    ExtremeIs(b, x, wantMax);
    assert b[0] in b;
    var t :| t in b && x in t && t[x] == ExtremeOf(b, x, wantMax);
  }

  function OneRowTree(): FNode {
    FNode({0}, [], [FNode({1}, [], []), FNode({2}, [], [])])
  }

  function OneRowRecord(): Rec {
    Rec(map[0 := 5], 1, [Slot([Rec(map[1 := 7], 1, [])]), Slot([Rec(map[2 := 8], 1, [])])])
  }

  lemma OneRowFlat()
    ensures FlatAll([OneRowRecord()]) == [map[0 := 5, 1 := 7, 2 := 8]]
  {
    var seven, eight := Rec(map[1 := 7], 1, []), Rec(map[2 := 8], 1, []);
    var r := OneRowRecord();
    LeafOne(seven.vals);
    LeafOne(eight.vals);
    assert r.slots[1..] == [Slot([eight])] && r.slots[1..][1..] == [];
    CrossUnit(FlatAll([eight]));
    var a: Tuple, b: Tuple, c: Tuple := map[0 := 5], map[1 := 7], map[2 := 8];
    SingleCross(b, c);
    SingleCross(a, b + c);
    assert Own(r) == Copies(1, a) == [a] + Copies(0, a);
    assert a + (b + c) == map[0 := 5, 1 := 7, 2 := 8];
    assert [r][1..] == [];
  }

  lemma OneRowConforms()
    ensures Conforms(OneRowRecord(), OneRowTree())
  {
    var r, t := OneRowRecord(), OneRowTree();
    assert Conforms(r.slots[0].recs[0], t.children[0]) && Conforms(r.slots[1].recs[0], t.children[1]);
  }

  lemma SingleExtreme()
    ensures ExtremeOf([map[0 := 5, 1 := 7, 2 := 8]], 0, false) == 5
  {
    var row: Tuple := map[0 := 5, 1 := 7, 2 := 8];
    assert [row][1..] == [] && ExtremeOf([], 0, false) == INT64_MAX;
  }

  lemma SingleCross(x: Tuple, y: Tuple)
    ensures Cross([x], [y]) == [x + y]
  {
    assert [x][1..] == [] && Prefix(x, [y]) == [x + y];
  }

  /** One row (5, 7, 8), grouped by its second and third column, which the tree stores in sibling
      nodes below the first: the minimum of the first column comes out as 0. */
  lemma PartedKeysSpoilMinimum(out: Out)
    requires OutIs(out, GroupsBy(FlatAll([OneRowRecord()]), [1, 2]), Branches(OneRowTree(), [1, 2]), [Aggregate(MIN, 0)])
    ensures Conforms(OneRowRecord(), OneRowTree())
    ensures [7, 8] in out && out[[7, 8]].count == 1 && out[[7, 8]].extremes == [0]
  {
    OneRowFlat();
    OneRowConforms();
    hide Conforms, FlatAll, ExtremeOf;
    SingleExtreme();
    var row: Tuple, keys: seq<Attr>, aggs := map[0 := 5, 1 := 7, 2 := 8], [1, 2], [Aggregate(MIN, 0)];
    assert KeyOf(row, keys) == [7, 8];
    assert [row][1..] == [] && Matching([row], keys, [7, 8]) == [row];
    assert GroupsBy([row], keys)([7, 8]) == [row];
    assert EntryIs(out, [row], [7, 8], Branches(OneRowTree(), keys), aggs);
    var t := OneRowTree();
    assert 1 in keys && 2 in keys && 1 in AttrSet(t.children[0]) && 2 in AttrSet(t.children[1]);
    assert CarriesAt(t, 0, keys) && CarriesAt(t, 1, keys) && Branches(t, keys);
    assert AggregateIs(out[[7, 8]], [row], true, aggs[0], 0);
  }
}
