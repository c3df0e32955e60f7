/** F-representations: trees of records in which sibling slots form a Cartesian product. */
module FReps {
  import opened Bags

  /** One record: its payload, how many identical tuples it stands for, and one list of
      alternative children per slot. */
  datatype Rec = Rec(vals: Tuple, weight: nat, slots: seq<Slot>)

  datatype Slot = Slot(recs: seq<Rec>)

  /** The tuples a record stands for before its children are considered. */
  function Own(r: Rec): (s: seq<Tuple>)
    ensures |s| == r.weight
    ensures forall i :: 0 <= i < r.weight ==> s[i] == r.vals
  {
    seq(r.weight, i => r.vals)
  }

  /** The bag of flat tuples below one record, in the order a nested loop meets them:
      the record's copies outermost, then slot by slot. */
  function Flat(r: Rec): seq<Tuple>
    decreases r
  {
    Cross(Own(r), FlatSlots(r.slots))
  }

  function FlatSlots(slots: seq<Slot>): seq<Tuple>
    decreases slots
  {
    if slots == [] then [map[]] else Cross(FlatAll(slots[0].recs), FlatSlots(slots[1..]))
  }

  function FlatAll(rs: seq<Rec>): seq<Tuple>
    decreases rs
  {
    if rs == [] then [] else Flat(rs[0]) + FlatAll(rs[1..])
  }

  lemma FlatAllIsLoop(rs: seq<Rec>)
    ensures FlatAll(rs) == FlatMap(rs, Flat)
  {}

  lemma FlatAllAppend(a: seq<Rec>, b: seq<Rec>)
    ensures FlatAll(a + b) == FlatAll(a) + FlatAll(b)
  {
    if a == [] {
      assert a + b == b;
    } else {
      assert (a + b)[1..] == a[1..] + b;
      FlatAllAppend(a[1..], b);
    }
  }

  lemma FlatAllPerm(a: seq<Rec>, b: seq<Rec>)
    requires Perm(a, b)
    ensures Perm(FlatAll(a), FlatAll(b))
  {
    var h := s => FlatAll(s);
    forall x, y ensures Perm(h(x + y), h(x) + h(y)) { FlatAllAppend(x, y); }
    HomomorphismRespectsPerm(h, a, b);
  }

  /** The bag of a loop that makes one record per step. */
  function FlatOf<T>(make: T -> Rec): T -> seq<Tuple> {
    x => Flat(make(x))
  }

  function One<T>(make: T -> Rec): T -> seq<Rec> {
    x => [make(x)]
  }

  lemma FlatAllBuilt<T>(s: seq<T>, make: T -> Rec)
    ensures FlatAll(FlatMap(s, One(make))) == FlatMap(s, FlatOf(make))
  {
    if s != [] {
      FlatAllBuilt(s[1..], make);
      FlatAllAppend([make(s[0])], FlatMap(s[1..], One(make)));
      assert FlatAll([make(s[0])]) == Flat(make(s[0]));
    }
  }

  lemma FlatSlotsAppend(a: seq<Slot>, b: seq<Slot>)
    ensures FlatSlots(a + b) == Cross(FlatSlots(a), FlatSlots(b))
  {
    if a == [] {
      assert a + b == b;
      CrossUnit(FlatSlots(b));
    } else {
      assert (a + b)[1..] == a[1..] + b;
      FlatSlotsAppend(a[1..], b);
      CrossAssoc(FlatAll(a[0].recs), FlatSlots(a[1..]), FlatSlots(b));
    }
  }

  //
  // Sizes
  //

  /** The number of tuples below a record: its weight times the product, over its slots, of
      the summed sizes of the slot's records. */
  function Size(r: Rec): nat
    decreases r
  {
    r.weight * SizeSlots(r.slots)
  }

  function SizeSlots(slots: seq<Slot>): nat
    decreases slots
  {
    if slots == [] then 1 else SizeAll(slots[0].recs) * SizeSlots(slots[1..])
  }

  function SizeAll(rs: seq<Rec>): nat
    decreases rs
  {
    if rs == [] then 0 else Size(rs[0]) + SizeAll(rs[1..])
  }

  lemma {:induction false} SizeIsCount(r: Rec)
    ensures Size(r) == |Flat(r)|
    decreases r
  {
    SizeSlotsIsCount(r.slots);
    CrossSize(Own(r), FlatSlots(r.slots));
  }

  lemma {:induction false} SizeSlotsIsCount(slots: seq<Slot>)
    ensures SizeSlots(slots) == |FlatSlots(slots)|
    decreases slots
  {
    if slots != [] {
      SizeAllIsCount(slots[0].recs);
      SizeSlotsIsCount(slots[1..]);
      CrossSize(FlatAll(slots[0].recs), FlatSlots(slots[1..]));
    }
  }

  lemma {:induction false} SizeAllIsCount(rs: seq<Rec>)
    ensures SizeAll(rs) == |FlatAll(rs)|
    decreases rs
  {
    if rs != [] {
      SizeIsCount(rs[0]);
      SizeAllIsCount(rs[1..]);
    }
  }

  //
  // Pruning
  //

  /** What iteration shows of a record once records of size zero are skipped. */
  function Prune(r: Rec): Rec
    decreases r
  {
    r.(slots := PruneSlots(r.slots))
  }

  function PruneSlots(slots: seq<Slot>): (s: seq<Slot>)
    ensures |s| == |slots|
    decreases slots
  {
    if slots == [] then [] else [Slot(PruneAll(slots[0].recs))] + PruneSlots(slots[1..])
  }

  function PruneAll(rs: seq<Rec>): seq<Rec>
    decreases rs
  {
    if rs == [] then []
    else if Size(rs[0]) == 0 then PruneAll(rs[1..])
    else [Prune(rs[0])] + PruneAll(rs[1..])
  }

  /** Every record reached denotes at least one tuple. */
  ghost predicate Pruned(r: Rec)
    decreases r
  {
    Size(r) > 0 && forall i, c :: 0 <= i < |r.slots| && c in r.slots[i].recs ==> Pruned(c)
  }

  ghost predicate PrunedAll(rs: seq<Rec>) {
    forall r :: r in rs ==> Pruned(r)
  }

  lemma {:induction false} PruneKeepsFlat(r: Rec)
    ensures Flat(Prune(r)) == Flat(r)
    decreases r
  {
    PruneSlotsKeepsFlat(r.slots);
    assert Own(Prune(r)) == Own(r);
  }

  lemma {:induction false} PruneSlotsKeepsFlat(slots: seq<Slot>)
    ensures FlatSlots(PruneSlots(slots)) == FlatSlots(slots)
    decreases slots
  {
    if slots != [] {
      PruneAllKeepsFlat(slots[0].recs);
      PruneSlotsKeepsFlat(slots[1..]);
    }
  }

  /** Skipping the records that denote nothing leaves the bag as it was, in the same order. */
  lemma {:induction false} PruneAllKeepsFlat(rs: seq<Rec>)
    ensures FlatAll(PruneAll(rs)) == FlatAll(rs)
    decreases rs
  {
    if rs != [] {
      PruneAllKeepsFlat(rs[1..]);
      SizeIsCount(rs[0]);
      if Size(rs[0]) != 0 { PruneKeepsFlat(rs[0]); }
    }
  }

  lemma {:induction false} PruneIsPruned(r: Rec)
    requires Size(r) > 0
    ensures Pruned(Prune(r))
    decreases r
  {
    PruneKeepsFlat(r);
    SizeIsCount(r);
    SizeIsCount(Prune(r));
    PruneSlotsArePruned(r.slots);
  }

  lemma {:induction false} PruneSlotsArePruned(slots: seq<Slot>)
    ensures forall i :: 0 <= i < |slots| ==> PrunedAll(PruneSlots(slots)[i].recs)
    decreases slots
  {
    if slots != [] {
      PruneAllArePruned(slots[0].recs);
      PruneSlotsArePruned(slots[1..]);
    }
  }

  lemma {:induction false} PruneAllArePruned(rs: seq<Rec>)
    ensures PrunedAll(PruneAll(rs))
    decreases rs
  {
    if rs != [] {
      PruneAllArePruned(rs[1..]);
      if Size(rs[0]) != 0 { PruneIsPruned(rs[0]); }
    }
  }
}
