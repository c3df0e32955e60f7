/** Sizing an f-representation: subtree sizes are computed once, remembered in the records, and
    decide which records iteration shows. */
module FRepMethods {
  import opened FReps
  import opened Checked
  import opened Outcomes
  import opened LowerMethods

  /** Where a record lives. */
  datatype Address = Root(i: nat) | Child(parent: Address, slot: nat, i: nat)

  predicate Exists(roots: seq<Rec>, a: Address)
    decreases a, 0
  {
    match a
    case Root(i) => i < |roots|
    case Child(p, s, i) => Exists(roots, p) && s < |RecAt(roots, p).slots| && i < |RecAt(roots, p).slots[s].recs|
  }

  function RecAt(roots: seq<Rec>, a: Address): Rec
    requires Exists(roots, a)
    decreases a, 1
  {
    match a
    case Root(i) => roots[i]
    case Child(p, s, i) => RecAt(roots, p).slots[s].recs[i]
  }

  /** The remembered sizes, each plus one: no entry reads as not computed, and an empty subtree
      can be remembered. */
  type Cache = map<Address, nat>

  /** What is remembered is true. */
  ghost predicate Faithful(roots: seq<Rec>, cache: Cache) {
    forall a :: a in cache ==> Exists(roots, a) && cache[a] == Size(RecAt(roots, a)) + 1
  }

  /** Below a record of known size greater than zero every child has a known size: the walk
      only stops early at a record that is empty. */
  ghost predicate Settled(roots: seq<Rec>, cache: Cache) {
    forall a, s, i :: a in cache && cache[a] > 1 && Exists(roots, Child(a, s, i)) ==> Child(a, s, i) in cache
  }

  ghost predicate Extends(old': Cache, cache: Cache) {
    forall a :: a in old' ==> a in cache && cache[a] == old'[a]
  }

  lemma SizeAllPrefix(rs: seq<Rec>, i: nat)
    requires i < |rs|
    ensures SizeAll(rs[..i + 1]) == SizeAll(rs[..i]) + Size(rs[i])
  {
    assert rs[..i + 1] == rs[..i] + [rs[i]];
    SizeAllAppend(rs[..i], [rs[i]]);
    SizeOfOne(rs[i]);
  }

  /** Where nothing is empty every part of a record is at most as large as the record. */
  lemma PartsFit(r: Rec, s: nat)
    requires Pruned(r) && s < |r.slots|
    ensures 0 < SizeAll(r.slots[s].recs) <= Size(r) && 0 < r.weight * SizeSlots(r.slots[..s + 1]) <= Size(r)
  {
    hide SizeAll, SizeSlots;
    var a, b := r.weight * SizeSlots(r.slots[..s + 1]), SizeSlots(r.slots[s + 1..]);
    assert r.slots == r.slots[..s + 1] + r.slots[s + 1..];
    SizeSlotsAppend(r.slots[..s + 1], r.slots[s + 1..]);
    SizePrefix(r.slots, s, r.weight);
    Regrouped(r.weight, SizeSlots(r.slots[..s + 1]), b);
    assert Size(r) == a * b;
    FactorsWithin(a, b);
    FactorsWithin(r.weight * SizeSlots(r.slots[..s]), SizeAll(r.slots[s].recs));
  }

  lemma PartOfAll(rs: seq<Rec>, i: nat)
    requires i < |rs|
    ensures Size(rs[i]) <= SizeAll(rs) && SizeAll(rs[..i + 1]) <= SizeAll(rs)
  {
    hide SizeAll;
    SizeAllPrefix(rs, i);
    assert rs == rs[..i + 1] + rs[i + 1..];
    SizeAllAppend(rs[..i + 1], rs[i + 1..]);
  }

  class FRepresentation {
    const roots: seq<Rec>
    var cache: Cache
    var pruneEmpty: bool

    ghost predicate Valid()
      reads this
    {
      Faithful(roots, cache) && Settled(roots, cache)
    }

    constructor (roots: seq<Rec>)
      ensures this.roots == roots && Valid() && cache == map[] && !pruneEmpty
    {
      this.roots, cache, pruneEmpty := roots, map[], false;
    }

    /** True once pruning is armed and the record is known to be empty. */
    predicate IsPruned(a: Address)
      reads this
    {
      pruneEmpty && a in cache && cache[a] == 1
    }

    /** The number of tuples below a record, remembered. */
    method SubtreeSize(a: Address) returns (r: Outcome<nat>)
      requires Valid() && Exists(roots, a)
      modifies this`cache
      ensures Valid() && Extends(old(cache), cache)
      ensures r.Ok? ==> r.value == Size(RecAt(roots, a)) && a in cache
      ensures r.Failed? ==> r.error == Overflow && (Pruned(RecAt(roots, a)) ==> !Int64(Size(RecAt(roots, a))))
      decreases RecAt(roots, a), 2
    {
      if a in cache { return Ok(cache[a] - 1); }
      var rec := RecAt(roots, a);
      var size := rec.weight;
      SizeOfNone();
      for s := 0 to |rec.slots|
        invariant Valid() && Extends(old(cache), cache)
        invariant size == rec.weight * SizeSlots(rec.slots[..s])
        invariant forall t, i :: 0 <= t < s && 0 <= i < |rec.slots[t].recs| ==> Child(a, t, i) in cache
      {
        if Pruned(rec) { PartsFit(rec, s); }
        var total :- SlotSize(a, s);
        SizePrefix(rec.slots, s, rec.weight);
        size :- Times(size, total);
        if size == 0 {
          cache := cache[a := 1];
          return Ok(0);
        }
      }
      assert rec.slots[..|rec.slots|] == rec.slots;
      cache := cache[a := size + 1];
      return Ok(size);
    }

    /** Alternatives add up. */
    method SlotSize(a: Address, s: nat) returns (r: Outcome<nat>)
      requires Valid() && Exists(roots, a) && s < |RecAt(roots, a).slots|
      modifies this`cache
      ensures Valid() && Extends(old(cache), cache)
      ensures r.Ok? ==> r.value == SizeAll(RecAt(roots, a).slots[s].recs)
      ensures r.Failed? ==> r.error == Overflow
      ensures r.Failed? && PrunedAll(RecAt(roots, a).slots[s].recs) ==> !Int64(SizeAll(RecAt(roots, a).slots[s].recs))
      ensures r.Ok? ==> forall i :: 0 <= i < |RecAt(roots, a).slots[s].recs| ==> Child(a, s, i) in cache
      decreases RecAt(roots, a), 1
    {
      hide Faithful, Settled, SizeAll;
      var recs := RecAt(roots, a).slots[s].recs;
      var total: nat := 0;
      SizeOfNone();
      for i := 0 to |recs|
        invariant Valid() && Extends(old(cache), cache) && total == SizeAll(recs[..i])
        invariant forall j :: 0 <= j < i ==> Child(a, s, j) in cache
      {
        SizeAllPrefix(recs, i);
        PartOfAll(recs, i);
        assert recs[i] in recs;
        if IsPruned(Child(a, s, i)) {
          PrunedIsEmpty(roots, cache, Child(a, s, i));
          continue;
        }
        var size :- SubtreeSize(Child(a, s, i));
        total :- Plus(total, size);
      }
      assert recs[..|recs|] == recs;
      return Ok(total);
    }

    /** Computes every size from the roots down, then starts skipping the empty records. */
    method PruneEmptySubtrees() returns (r: Outcome<()>)
      requires Valid()
      modifies this
      ensures Valid()
      ensures r.Ok? ==> Armed()
    {
      hide Faithful, Settled;
      pruneEmpty := false;
      for i := 0 to |roots|
        invariant Valid() && forall j :: 0 <= j < i ==> Root(j) in cache
      {
        var _ :- SubtreeSize(Root(i));
      }
      pruneEmpty := true;
      return Ok(());
    }

    /** The cardinality of the flat relation. Without empty records it is refused exactly when it
        does not fit 64 bits. */
    method Count() returns (r: Outcome<nat>)
      requires Valid()
      modifies this`cache
      ensures Valid() && (r.Ok? ==> r.value == |FlatAll(roots)| && Int64(r.value))
      ensures r.Failed? ==> r.error == Overflow && (PrunedAll(roots) ==> !Int64(|FlatAll(roots)|))
    {
      hide Faithful, Settled, SizeAll;
      var total: nat := 0;
      SizeOfNone();
      SizeAllIsCount(roots);
      for i := 0 to |roots|
        invariant Valid() && total == SizeAll(roots[..i]) && Int64(total)
      {
        SizeAllPrefix(roots, i);
        PartOfAll(roots, i);
        assert roots[i] in roots;
        if IsPruned(Root(i)) {
          PrunedIsEmpty(roots, cache, Root(i));
          continue;
        }
        var size :- SubtreeSize(Root(i));
        total :- Plus(total, size);
      }
      assert roots[..|roots|] == roots;
      return Ok(total);
    }

    /** The children iteration shows. */
    function ForEachChild(a: Address, s: nat): (shown: seq<Address>)
      requires Exists(roots, a) && s < |RecAt(roots, a).slots|
      reads this
    {
      Shown(a, s, 0)
    }

    /** The roots iteration shows. */
    function ForEachRoot(): (shown: seq<Address>)
      reads this
    {
      ShownRoots(0)
    }

    function Shown(a: Address, s: nat, i: nat): (shown: seq<Address>)
      requires Exists(roots, a) && s < |RecAt(roots, a).slots| && i <= |RecAt(roots, a).slots[s].recs|
      reads this
      ensures forall c :: c in shown ==> Exists(roots, c) && !IsPruned(c) && c.Child? && c.parent == a && c.slot == s
      decreases |RecAt(roots, a).slots[s].recs| - i
    {
      if i == |RecAt(roots, a).slots[s].recs| then []
      else if IsPruned(Child(a, s, i)) then Shown(a, s, i + 1)
      else [Child(a, s, i)] + Shown(a, s, i + 1)
    }

    function ShownRoots(i: nat): (shown: seq<Address>)
      requires i <= |roots|
      reads this
      ensures forall c :: c in shown ==> Exists(roots, c) && !IsPruned(c) && c.Root?
      decreases |roots| - i
    {
      if i == |roots| then []
      else if IsPruned(Root(i)) then ShownRoots(i + 1)
      else [Root(i)] + ShownRoots(i + 1)
    }

    /** Pruning has been armed after everything reachable was sized. */
    ghost predicate Armed()
      reads this
    {
      Valid() && pruneEmpty && forall i :: 0 <= i < |roots| ==> Root(i) in cache
    }

    /** A record iteration reaches: a root it shows, or a child it shows of one it reaches. */
    ghost predicate Reached(a: Address)
      reads this
    {
      match a
      case Root(i) => i < |roots| && !IsPruned(a)
      case Child(p, s, i) => Reached(p) && Exists(roots, a) && !IsPruned(a)
    }

    /** Every record reached has a remembered size greater than zero. */
    lemma {:induction false} ReachedIsSized(a: Address)
      requires Armed() && Reached(a)
      ensures Exists(roots, a) && a in cache && cache[a] > 1 && Size(RecAt(roots, a)) > 0
    {
      if a.Child? {
        ReachedIsSized(a.parent);
        assert Exists(roots, Child(a.parent, a.slot, a.i));
      }
    }

    /** What iteration shows below a record reached is the pruned record. */
    lemma {:induction false} ShownIsPruned(a: Address, s: nat, i: nat)
      requires Armed() && Reached(a) && Exists(roots, a) && s < |RecAt(roots, a).slots|
      requires i <= |RecAt(roots, a).slots[s].recs|
      ensures Views(Shown(a, s, i)) == PruneAll(RecAt(roots, a).slots[s].recs[i..])
      decreases |RecAt(roots, a).slots[s].recs| - i
    {
      var recs := RecAt(roots, a).slots[s].recs;
      ReachedIsSized(a);
      if i < |recs| {
        var c := Child(a, s, i);
        assert Exists(roots, c) && c in cache;
        assert cache[c] == Size(recs[i]) + 1;
        assert recs[i..][0] == recs[i] && recs[i..][1..] == recs[i + 1..];
        ShownIsPruned(a, s, i + 1);
        if !IsPruned(c) {
          assert Shown(a, s, i)[0] == c && Shown(a, s, i)[1..] == Shown(a, s, i + 1);
        }
      }
    }

    /** The records at the addresses, pruned. */
    ghost function Views(shown: seq<Address>): seq<Rec>
      requires forall c :: c in shown ==> Exists(roots, c)
    {
      if shown == [] then []
      else
        assert shown[0] in shown && forall c :: c in shown[1..] ==> c in shown;
        [Prune(RecAt(roots, shown[0]))] + Views(shown[1..])
    }

    lemma {:induction false} ShownRootsArePruned(i: nat)
      requires Armed() && i <= |roots|
      ensures Views(ShownRoots(i)) == PruneAll(roots[i..])
      decreases |roots| - i
    {
      if i < |roots| {
        assert cache[Root(i)] == Size(roots[i]) + 1;
        assert roots[i..][0] == roots[i] && roots[i..][1..] == roots[i + 1..];
        ShownRootsArePruned(i + 1);
        if !IsPruned(Root(i)) {
          assert ShownRoots(i)[0] == Root(i) && ShownRoots(i)[1..] == ShownRoots(i + 1);
        }
      }
    }

    /** Once pruning is armed, iterating from the roots is walking the pruned representation: no
        record met is empty, and the flat bag is unchanged. */
    lemma IterationIsPruned()
      requires Armed()
      ensures Views(ForEachRoot()) == PruneAll(roots) && PrunedAll(PruneAll(roots)) && FlatAll(PruneAll(roots)) == FlatAll(roots)
      ensures forall a, s: nat :: Reached(a) && Exists(roots, a) && s < |RecAt(roots, a).slots| ==>
        Views(ForEachChild(a, s)) == PruneAll(RecAt(roots, a).slots[s].recs)
    {
      ShownRootsArePruned(0);
      assert roots[0..] == roots;
      PruneAllKeepsFlat(roots);
      PruneAllArePruned(roots);
      forall a, s: nat | Reached(a) && Exists(roots, a) && s < |RecAt(roots, a).slots|
        ensures Views(ForEachChild(a, s)) == PruneAll(RecAt(roots, a).slots[s].recs)
      {
        ShownIsPruned(a, s, 0);
        var recs := RecAt(roots, a).slots[s].recs;
        assert recs[0..] == recs;
      }
    }
  }

  lemma PrunedIsEmpty(roots: seq<Rec>, cache: Cache, a: Address)
    requires Faithful(roots, cache) && a in cache && cache[a] == 1
    ensures Exists(roots, a) && Size(RecAt(roots, a)) == 0
  {}
}
