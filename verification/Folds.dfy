/** Aggregates folded over an f-representation without flattening it: sum by exact division, sum
    of products by a bilinear combine, minimum and maximum. */
module Folds {
  import opened Bags
  import opened FReps
  import opened FTrees
  import opened Flattening
  import opened Reordering
  import opened Restructuring
  import opened Transforming
  import opened Joins
  import opened Checked
  import opened Outcomes
  import opened LowerMethods
  import opened FRepMethods
  import opened Sums
  import opened Ranges
  import Int128s

  function TimesInt(a: int, b: int): (r: Outcome<int>)
    ensures r.Ok? ==> r.value == a * b && Int64(r.value)
    ensures Int64(a) && Int64(b) ==> r == if Int64(a * b) then Ok(a * b) else Failed(Overflow)
  {
    if Int64(a) && Int64(b) && CheckedMul(a, b).Some? then Ok(a * b) else Failed(Overflow)
  }

  function PlusInt(a: int, b: int): (r: Outcome<int>)
    ensures r.Ok? ==> r.value == a + b && Int64(r.value)
    ensures Int64(a) && Int64(b) ==> r == if Int64(a + b) then Ok(a + b) else Failed(Overflow)
  {
    if Int64(a) && Int64(b) && CheckedAdd(a, b).Some? then Ok(a + b) else Failed(Overflow)
  }

  /** The record has the shape of a tree without repeated attributes. */
  ghost predicate Shaped(r: Rec, n: FNode) {
    Conforms(r, n) && AtMostOnce(AttrBag(n))
  }

  lemma ShapedChild(r: Rec, n: FNode, s: nat, i: nat)
    requires Shaped(r, n) && s < |r.slots| && i < |r.slots[s].recs|
    ensures s < |n.children| && Shaped(r.slots[s].recs[i], n.children[s])
  {
    AtMostOnceParts(multiset(n.attrs), AttrBagAll(n.children));
    SiblingsApart(n.children, s);
    assert r.slots[s].recs[i] in r.slots[s].recs;
  }

  lemma EmptyFlat(r: Rec)
    requires Size(r) == 0
    ensures Flat(r) == []
  {
    SizeIsCount(r);
  }

  /** Dividing the whole count by one slot's gives the product of everything else, exactly. */
  lemma OthersExact(w: nat, pre: nat, z: nat, post: nat)
    requires z > 0
    ensures TruncDiv(w * (pre * z * post), z) == w * (pre * post)
  {
    var others := w * (pre * post);
    assert w * (pre * z * post) == others * z by {
      assert pre * z * post == (pre * post) * z;
      assert w * ((pre * post) * z) == others * z;
    }
    DivideExactly(others, z);
  }

  lemma DivideExactly(a: nat, z: nat)
    requires z > 0
    ensures a * z / z == a
  {
    var q := a * z / z;
    var left := a * z % z;
    assert a * z == q * z + left;
    assert (a - q) * z == left && (q - a) * z == -left;
    if q < a { MultipleAtLeast(a - q, z); }
    if q > a { MultipleAtLeast(q - a, z); }
  }

  lemma MultipleAtLeast(k: int, z: int)
    requires k >= 1 && z > 0
    ensures k * z >= z
  {}

  lemma SizeSlotsAround(slots: seq<Slot>, i: nat)
    requires i < |slots|
    ensures SizeSlots(slots) == SizeSlots(slots[..i]) * SizeAll(slots[i].recs) * SizeSlots(slots[i + 1..])
    ensures SizeSlots(slots[i..]) == SizeAll(slots[i].recs) * SizeSlots(slots[i + 1..])
    ensures SizeSlots(slots[..i + 1]) == SizeSlots(slots[..i]) * SizeAll(slots[i].recs)
  {
    hide SizeAll;
    var z := SizeAll(slots[i].recs);
    assert slots == slots[..i] + slots[i..] && slots[i..][0] == slots[i] && slots[i..][1..] == slots[i + 1..];
    SizeSlotsAppend(slots[..i], slots[i..]);
    assert SizeSlots(slots[i..]) == z * SizeSlots(slots[i + 1..]);
    Regrouped(SizeSlots(slots[..i]), z, SizeSlots(slots[i + 1..]));
    assert slots[..i + 1] == slots[..i] + [slots[i]];
    SizeSlotsAppend(slots[..i], [slots[i]]);
    OneSlot(slots[i]);
  }

  lemma OneSlot(s: Slot)
    ensures SizeSlots([s]) == SizeAll(s.recs)
  {
    assert [s][1..] == [];
  }

  /** One more slot: its sum times what the others combine to. */
  lemma SlotAdded(w: nat, slots: seq<Slot>, x: Attr, i: nat)
    requires i < |slots|
    ensures var pre, post := slots[..i], slots[i + 1..];
            w * (SumSlots(slots[..i + 1], x) * SizeSlots(post))
            == w * (SumSlots(pre, x) * SizeSlots(slots[i..]))
               + SumOf(FlatAll(slots[i].recs), x) * (w * (SizeSlots(pre) * SizeSlots(post)))
  {
    var pre, post, here := slots[..i], slots[i + 1..], SumOf(FlatAll(slots[i].recs), x);
    SizeSlotsAround(slots, i);
    assert slots[..i + 1] == pre + [slots[i]];
    SumSlotsAppend(pre, [slots[i]], x);
    assert [slots[i]][1..] == [];
    assert SumSlots([slots[i]], x) == here * 1 + SizeAll(slots[i].recs) * 0;
    Added(w, SumSlots(pre, x), SizeAll(slots[i].recs), SizeSlots(pre), here, SizeSlots(post));
  }

  lemma Added(w: int, sp: int, z: int, zp: int, here: int, post: int)
    ensures w * ((sp * z + zp * here) * post) == w * (sp * (z * post)) + here * (w * (zp * post))
  {
    assert (sp * z + zp * here) * post == sp * (z * post) + here * (zp * post) by {
      assert (sp * z + zp * here) * post == sp * z * post + zp * here * post;
      assert sp * z * post == sp * (z * post);
      assert zp * here * post == here * (zp * post);
    }
    assert w * (sp * (z * post) + here * (zp * post)) == w * (sp * (z * post)) + w * (here * (zp * post));
    assert w * (here * (zp * post)) == here * (w * (zp * post));
  }

  /** The sum of an attribute over the tuples below a record. */
  method SubtreeSum(rep: FRepresentation, a: Address, x: Attr, ghost n: FNode) returns (r: Outcome<int>)
    requires rep.Valid() && Exists(rep.roots, a) && Shaped(RecAt(rep.roots, a), n)
    modifies rep`cache
    ensures rep.Valid()
    ensures r.Ok? ==> r.value == SumOf(Flat(RecAt(rep.roots, a)), x)
    decreases RecAt(rep.roots, a), 1
  {
    hide Faithful, Settled, SumSlots, SizeSlots, SumOf, Flat, TruncDiv;
    var rec := RecAt(rep.roots, a);
    var count :- rep.SubtreeSize(a);
    if count == 0 {
      EmptyFlat(rec);
      SumOfNothing(x);
      return Ok(0);
    }
    if x in rec.vals {
      SumHere(rec, n, x);
      return TimesInt(rec.vals[x], count);
    }
    SumBelow(rec, n, x);
    var total := 0;
    NoSlots(rec.weight, rec.slots, x);
    for s := 0 to |rec.slots|
      invariant rep.Valid() && total == rec.weight * (SumSlots(rec.slots[..s], x) * SizeSlots(rec.slots[s..]))
    {
      var slotCount, slotSum :- SlotSum(rep, a, s, x, n);
      SizeSlotsAround(rec.slots, s);
      CountPositive(rec, s);
      OthersExact(rec.weight, SizeSlots(rec.slots[..s]), slotCount, SizeSlots(rec.slots[s + 1..]));
      var others := TruncDiv(count, slotCount);
      SlotAdded(rec.weight, rec.slots, x, s);
      var term :- TimesInt(slotSum, others);
      total :- PlusInt(total, term);
    }
    AllSlots(rec.weight, rec.slots, x);
    return Ok(total);
  }

  lemma SumOfNothing(x: Attr)
    ensures SumOf([], x) == 0
  {}

  lemma NoSlots(w: nat, slots: seq<Slot>, x: Attr)
    ensures w * (SumSlots(slots[..0], x) * SizeSlots(slots[0..])) == 0
  {
    assert SumSlots(slots[..0], x) == 0;
  }

  lemma AllSlots(w: nat, slots: seq<Slot>, x: Attr)
    ensures w * (SumSlots(slots[..|slots|], x) * SizeSlots(slots[|slots|..])) == w * SumSlots(slots, x)
  {
    assert slots[..|slots|] == slots && slots[|slots|..] == [];
    assert SizeSlots([]) == 1;
  }

  lemma CountPositive(rec: Rec, s: nat)
    requires Size(rec) > 0 && s < |rec.slots|
    ensures SizeAll(rec.slots[s].recs) > 0
    ensures Size(rec) == rec.weight * (SizeSlots(rec.slots[..s]) * SizeAll(rec.slots[s].recs) * SizeSlots(rec.slots[s + 1..]))
  {
    SizeSlotsAround(rec.slots, s);
    MiddlePositive(rec.weight, SizeSlots(rec.slots[..s]), SizeAll(rec.slots[s].recs), SizeSlots(rec.slots[s + 1..]));
  }

  lemma MiddlePositive(w: nat, pre: nat, z: nat, post: nat)
    requires w * (pre * z * post) > 0
    ensures z > 0
  {}

  /** One slot: its count and its sum. */
  method SlotSum(rep: FRepresentation, a: Address, s: nat, x: Attr, ghost n: FNode) returns (r: Outcome<nat>, sum: int)
    requires rep.Valid() && Exists(rep.roots, a) && Shaped(RecAt(rep.roots, a), n) && s < |RecAt(rep.roots, a).slots|
    modifies rep`cache
    ensures rep.Valid()
    ensures r.Ok? ==> r.value == SizeAll(RecAt(rep.roots, a).slots[s].recs)
    ensures r.Ok? ==> sum == SumOf(FlatAll(RecAt(rep.roots, a).slots[s].recs), x)
    decreases RecAt(rep.roots, a), 0
  {
    hide Faithful, Settled, SumOf, Flat, FlatAll, SizeAll, Shaped;
    var recs := RecAt(rep.roots, a).slots[s].recs;
    var count: nat := 0;
    sum := 0;
    EmptySlot(x);
    for i := 0 to |recs|
      invariant rep.Valid() && count == SizeAll(recs[..i]) && sum == SumOf(FlatAll(recs[..i]), x)
    {
      var c := Child(a, s, i);
      SizeAllPrefix(recs, i);
      FlatAllSnoc(recs, i);
      SumAppend(FlatAll(recs[..i]), Flat(recs[i]), x);
      if rep.IsPruned(c) {
        PrunedIsEmpty(rep.roots, rep.cache, c);
        EmptyFlat(recs[i]);
        SumOfNothing(x);
        continue;
      }
      ShapedChild(RecAt(rep.roots, a), n, s, i);
      var size := rep.SubtreeSize(c);
      if size.Failed? { return Failed(size.error), 0; }
      var below := SubtreeSum(rep, c, x, n.children[s]);
      if below.Failed? { return Failed(below.error), 0; }
      var more, total := Plus(count, size.value), PlusInt(sum, below.value);
      if more.Failed? || total.Failed? { return Failed(Overflow), 0; }
      count, sum := more.value, total.value;
    }
    assert recs[..|recs|] == recs;
    r := Ok(count);
  }

  lemma EmptySlot(x: Attr)
    ensures SizeAll([]) == 0 && FlatAll([]) == [] && SumOf([], x) == 0
  {}

  //
  // Sums of products
  //

  datatype ProductSum = ProductSum(count: nat, sumX: int, sumY: int, sumXY: Int128s.Int128)

  /** The four numbers of a bag. */
  ghost predicate Measures(p: ProductSum, b: seq<Tuple>, x: Attr, y: Attr) {
    && p.count == |b| && p.sumX == SumOf(b, x) && p.sumY == SumOf(b, y)
    && Int128s.Valid(p.sumXY) && Int128s.Value(p.sumXY) == ProductOf(b, x, y)
    && Int64(p.count) && Int64(p.sumX) && Int64(p.sumY)
  }

  method Mul128(a: Int128s.Int128, b: int) returns (r: Outcome<Int128s.Int128>)
    requires Int128s.Valid(a) && Int64(b)
    ensures r.Ok? ==> Int128s.Valid(r.value) && Int128s.Value(r.value) == Int128s.Value(a) * b
    ensures r.Failed? <==> Int128s.Value(a) == -Int128s.TWO127 || !(-Int128s.TWO127 < Int128s.Value(a) * b < Int128s.TWO127)
  {
    if Int128s.Value(a) == -Int128s.TWO127 { return Failed(Overflow); }
    var product := Int128s.CheckedMul128By64(a, b);
    return if product.Some? then Ok(product.value) else Failed(Overflow);
  }

  function Add128(a: Int128s.Int128, b: Int128s.Int128): (r: Outcome<Int128s.Int128>)
    requires Int128s.Valid(a) && Int128s.Valid(b)
    ensures r.Ok? ==> Int128s.Valid(r.value) && Int128s.Value(r.value) == Int128s.Value(a) + Int128s.Value(b)
    ensures r.Failed? <==> !(-Int128s.TWO127 <= Int128s.Value(a) + Int128s.Value(b) < Int128s.TWO127)
  {
    var sum := Int128s.CheckedAdd128(a, b);
    if sum.Some? then Ok(sum.value) else Failed(Overflow)
  }

  /** Two independent sets of tuples side by side. The pairings are never enumerated. */
  method CombineProductSums(a: ProductSum, b: ProductSum, ghost p: seq<Tuple>, ghost q: seq<Tuple>, ghost x: Attr, ghost y: Attr)
    returns (r: Outcome<ProductSum>)
    requires Measures(a, p, x, y) && Measures(b, q, x, y) && OneSided(p, q, x) && OneSided(p, q, y)
    ensures r.Ok? ==> Measures(r.value, Cross(p, q), x, y)
  {
    hide SumOf, ProductOf, OneSided, Cross, Int128s.MultiplyWide, Int128s.CheckedAdd128, Int128s.Value, Int128s.Valid, CheckedMul,
         CheckedAdd, TimesInt, PlusInt, Times, Add128;
    CrossSize(p, q);
    SumCross(p, q, x);
    SumCross(p, q, y);
    ProductCross(p, q, x, y);
    Commutes(|p|, ProductOf(q, x, y));
    var count :- Times(a.count, b.count);
    var xa :- TimesInt(a.sumX, b.count);
    var xb :- TimesInt(a.count, b.sumX);
    var sumX :- PlusInt(xa, xb);
    var ya :- TimesInt(a.sumY, b.count);
    var yb :- TimesInt(a.count, b.sumY);
    var sumY :- PlusInt(ya, yb);
    var fromA :- Mul128(a.sumXY, b.count);
    var fromB :- Mul128(b.sumXY, a.count);
    var carried :- Add128(fromA, fromB);
    var first :- Add128(carried, Int128s.MultiplyWide(a.sumX, b.sumY));
    var sumXY :- Add128(first, Int128s.MultiplyWide(a.sumY, b.sumX));
    return Ok(ProductSum(count, sumX, sumY, sumXY));
  }

  lemma Commutes(a: int, b: int)
    ensures a * b == b * a
  {}

  /** Alternatives add up. */
  method AddProductSums(a: ProductSum, b: ProductSum, ghost p: seq<Tuple>, ghost q: seq<Tuple>, ghost x: Attr, ghost y: Attr)
    returns (r: Outcome<ProductSum>)
    requires Measures(a, p, x, y) && Measures(b, q, x, y)
    ensures r.Ok? ==> Measures(r.value, p + q, x, y)
  {
    hide SumOf, ProductOf;
    SumAppend(p, q, x);
    SumAppend(p, q, y);
    ProductAppend(p, q, x, y);
    var count :- Plus(a.count, b.count);
    var sumX :- PlusInt(a.sumX, b.sumX);
    var sumY :- PlusInt(a.sumY, b.sumY);
    var sumXY :- Add128(a.sumXY, b.sumXY);
    return Ok(ProductSum(count, sumX, sumY, sumXY));
  }

  /** What the record itself carries, as often as it counts. */
  method OwnProductSum(rec: Rec, x: Attr, y: Attr, ghost types: Types) returns (r: Outcome<ProductSum>)
    requires Ranged(rec, types)
    ensures r.Ok? ==> Measures(r.value, Own(rec), x, y)
  {
    hide SumOf, ProductOf, Int128s.MultiplyWide, Int128s.OfInt64, Int128s.Value, Int128s.Valid, TimesInt;
    assert Own(rec) == Copies(rec.weight, rec.vals);
    SumCopies(rec.vals, rec.weight, x);
    SumCopies(rec.vals, rec.weight, y);
    ProductCopies(rec.vals, rec.weight, x, y);
    if !Int64(rec.weight) { return Failed(Overflow); }
    var sumX, sumY := 0, 0;
    if x in rec.vals { sumX :- TimesInt(rec.vals[x], rec.weight); }
    if y in rec.vals { sumY :- TimesInt(rec.vals[y], rec.weight); }
    var sumXY := Int128s.OfInt64(0);
    if x in rec.vals && y in rec.vals {
      sumXY :- Mul128(Int128s.MultiplyWide(rec.vals[x], rec.vals[y]), rec.weight);
    }
    return Ok(ProductSum(rec.weight, sumX, sumY, sumXY));
  }

  lemma Nothing(x: Attr, y: Attr)
    ensures Measures(ProductSum(0, 0, 0, Int128s.OfInt64(0)), [], x, y)
    ensures Measures(ProductSum(1, 0, 0, Int128s.OfInt64(0)), FlatSlots([]), x, y)
  {
    assert FlatSlots([]) == [map[]];
    var unit: Tuple := map[];
    assert [unit][1..] == [];
  }

  /** Earlier slots and the next one carry different attributes. */
  lemma PrefixOneSided(slots: seq<Slot>, ns: seq<FNode>, i: nat, x: Attr)
    requires SlotsConform(slots, ns) && AtMostOnce(AttrBagAll(ns)) && i < |slots|
    ensures OneSided(FlatSlots(slots[..i]), FlatAll(slots[i].recs), x)
    ensures FlatSlots(slots[..i + 1]) == Cross(FlatSlots(slots[..i]), FlatAll(slots[i].recs))
  {
    assert ns == ns[..i] + ns[i..] && ns[i..][0] == ns[i];
    AttrBagAppend(ns[..i], ns[i..]);
    AtMostOnceParts(AttrBagAll(ns[..i]), AttrBagAll(ns[i..]));
    AttrSetAllIsBag(ns[..i]);
    AttrSetIsBag(ns[i]);
    assert AttrBagAll(ns[i..]) == AttrBag(ns[i]) + AttrBagAll(ns[i..][1..]);
    if x in AttrSet(ns[i]) {
      forall t | t in FlatSlots(slots[..i]) ensures x !in t { FlatSlotsKeys(slots[..i], ns[..i], t); }
    } else {
      forall t | t in FlatAll(slots[i].recs) ensures x !in t { FlatAllKeys(slots[i].recs, ns[i], t); }
    }
    assert slots[..i + 1] == slots[..i] + [slots[i]];
    FlatSlotsAppend(slots[..i], [slots[i]]);
    FlatOneSlot(slots[i]);
  }

  lemma FlatOneSlot(s: Slot)
    ensures FlatSlots([s]) == FlatAll(s.recs)
  {
    assert [s][1..] == [];
    CrossUnit(FlatAll(s.recs));
  }

  /** Count, sum of x, sum of y and sum of x * y over the tuples below a record. */
  method SubtreeProductSum(rep: FRepresentation, a: Address, x: Attr, y: Attr, ghost n: FNode, ghost types: Types)
    returns (r: Outcome<ProductSum>)
    requires rep.Valid() && Exists(rep.roots, a) && Shaped(RecAt(rep.roots, a), n) && Ranged(RecAt(rep.roots, a), types)
    modifies rep`cache
    ensures rep.Valid()
    ensures r.Ok? ==> Measures(r.value, Flat(RecAt(rep.roots, a)), x, y)
    decreases RecAt(rep.roots, a), 1
  {
    hide Faithful, Settled, Measures, OneSided, FlatSlots, Cross, AttrBag;
    var rec := RecAt(rep.roots, a);
    Nothing(x, y);
    var count :- rep.SubtreeSize(a);
    if count == 0 {
      EmptyFlat(rec);
      return Ok(ProductSum(0, 0, 0, Int128s.OfInt64(0)));
    }
    var here :- OwnProductSum(rec, x, y, types);
    var below := ProductSum(1, 0, 0, Int128s.OfInt64(0));
    ChildrenOnce(n);
    for s := 0 to |rec.slots|
      invariant rep.Valid() && Measures(below, FlatSlots(rec.slots[..s]), x, y)
    {
      var slot :- SlotProductSum(rep, a, s, x, y, n, types);
      PrefixOneSided(rec.slots, n.children, s, x);
      PrefixOneSided(rec.slots, n.children, s, y);
      below :- CombineProductSums(below, slot, FlatSlots(rec.slots[..s]), FlatAll(rec.slots[s].recs), x, y);
    }
    assert rec.slots[..|rec.slots|] == rec.slots;
    RecordOneSided(rec, n, x);
    RecordOneSided(rec, n, y);
    r := CombineProductSums(here, below, Own(rec), FlatSlots(rec.slots), x, y);
  }

  lemma ChildrenOnce(n: FNode)
    requires AtMostOnce(AttrBag(n))
    ensures AtMostOnce(AttrBagAll(n.children))
  {
    AtMostOnceParts(multiset(n.attrs), AttrBagAll(n.children));
  }

  method SlotProductSum(rep: FRepresentation, a: Address, s: nat, x: Attr, y: Attr, ghost n: FNode, ghost types: Types)
    returns (r: Outcome<ProductSum>)
    requires rep.Valid() && Exists(rep.roots, a) && Shaped(RecAt(rep.roots, a), n) && Ranged(RecAt(rep.roots, a), types)
    requires s < |RecAt(rep.roots, a).slots|
    modifies rep`cache
    ensures rep.Valid()
    ensures r.Ok? ==> Measures(r.value, FlatAll(RecAt(rep.roots, a).slots[s].recs), x, y)
    decreases RecAt(rep.roots, a), 0
  {
    hide Faithful, Settled, Measures, FlatAll, Flat, Shaped;
    var recs := RecAt(rep.roots, a).slots[s].recs;
    Nothing(x, y);
    EmptySlot(x);
    var slot := ProductSum(0, 0, 0, Int128s.OfInt64(0));
    for i := 0 to |recs|
      invariant rep.Valid() && Measures(slot, FlatAll(recs[..i]), x, y)
    {
      var c := Child(a, s, i);
      FlatAllSnoc(recs, i);
      if rep.IsPruned(c) {
        PrunedIsEmpty(rep.roots, rep.cache, c);
        EmptyFlat(recs[i]);
        assert FlatAll(recs[..i]) + [] == FlatAll(recs[..i]);
        continue;
      }
      ShapedChild(RecAt(rep.roots, a), n, s, i);
      assert recs[i] in recs;
      var below :- SubtreeProductSum(rep, c, x, y, n.children[s], types);
      slot :- AddProductSums(slot, below, FlatAll(recs[..i]), Flat(recs[i]), x, y);
    }
    assert recs[..|recs|] == recs;
    return Ok(slot);
  }

  //
  // Extremes
  //

  lemma RangedIn64(b: seq<Tuple>, types: Types, x: Attr)
    requires AllRanged(b, types)
    ensures InRange64(b, x)
  {}

  lemma FlatRange(r: Rec, types: Types, x: Attr)
    requires Ranged(r, types)
    ensures InRange64(Flat(r), x)
  {
    FlatRanged(r, types);
    RangedIn64(Flat(r), types, x);
  }

  lemma SlotsRange(slots: seq<Slot>, types: Types, x: Attr)
    requires forall i :: 0 <= i < |slots| ==> RangedAll(slots[i].recs, types)
    ensures InRange64(FlatSlots(slots), x)
  {
    FlatSlotsRanged(slots, types);
    RangedIn64(FlatSlots(slots), types, x);
  }

  lemma AllRange(rs: seq<Rec>, types: Types, x: Attr)
    requires RangedAll(rs, types)
    ensures InRange64(FlatAll(rs), x)
  {
    FlatAllRanged(rs, types);
    RangedIn64(FlatAll(rs), types, x);
  }

  /** The extreme of a non-empty record: its own value, or the best below. */
  lemma ExtremeOfRecord(r: Rec, n: FNode, types: Types, x: Attr, wantMax: bool)
    requires Shaped(r, n) && Ranged(r, types) && Size(r) > 0
    ensures ExtremeOf(Flat(r), x, wantMax)
         == if x in r.vals then r.vals[x] else ExtremeOf(FlatSlots(r.slots), x, wantMax)
  {
    var below := FlatSlots(r.slots);
    SizeSlotsIsCount(r.slots);
    RecordOneSided(r, n, x);
    SlotsRange(r.slots, types, x);
    assert r.weight > 0 && |below| > 0;
    assert Own(r)[0] == r.vals && Own(r)[0] in Own(r);
    ExtremeCross(Own(r), below, x, wantMax);
    ExtremeIs(Own(r), x, wantMax);
    ExtremeIs(below, x, wantMax);
    if x in r.vals { assert forall t :: t in Own(r) ==> t == r.vals; }
  }

  /** One more non-empty slot. */
  lemma ExtremeSlot(slots: seq<Slot>, ns: seq<FNode>, types: Types, i: nat, x: Attr, wantMax: bool)
    requires SlotsConform(slots, ns) && AtMostOnce(AttrBagAll(ns)) && i < |slots| && SizeSlots(slots) > 0
    requires forall j :: 0 <= j < |slots| ==> RangedAll(slots[j].recs, types)
    ensures ExtremeOf(FlatSlots(slots[..i + 1]), x, wantMax)
         == Better(ExtremeOf(FlatSlots(slots[..i]), x, wantMax), ExtremeOf(FlatAll(slots[i].recs), x, wantMax), wantMax)
  {
    PrefixOneSided(slots, ns, i, x);
    SlotsRange(slots[..i], types, x);
    AllRange(slots[i].recs, types, x);
    SizeSlotsAround(slots, i);
    MiddlePositive(1, SizeSlots(slots[..i]), SizeAll(slots[i].recs), SizeSlots(slots[i + 1..]));
    PrefixPositive(SizeSlots(slots[..i]), SizeAll(slots[i].recs), SizeSlots(slots[i + 1..]));
    SizeSlotsIsCount(slots[..i]);
    SizeAllIsCount(slots[i].recs);
    ExtremeCross(FlatSlots(slots[..i]), FlatAll(slots[i].recs), x, wantMax);
  }

  lemma PrefixPositive(pre: nat, z: nat, post: nat)
    requires pre * z * post > 0
    ensures pre > 0
  {}

  /** The minimum or maximum of an attribute over the tuples below a record; the identity when
      there is none. */
  method SubtreeExtreme(rep: FRepresentation, a: Address, x: Attr, wantMax: bool, ghost n: FNode, ghost types: Types)
    returns (r: Outcome<int>)
    requires rep.Valid() && Exists(rep.roots, a) && Shaped(RecAt(rep.roots, a), n) && Ranged(RecAt(rep.roots, a), types)
    modifies rep`cache
    ensures rep.Valid()
    ensures r.Ok? ==> r.value == ExtremeOf(Flat(RecAt(rep.roots, a)), x, wantMax)
    decreases RecAt(rep.roots, a), 1
  {
    hide Faithful, Settled, ExtremeOf, FlatSlots, Flat, AttrBag, SizeSlots;
    var rec := RecAt(rep.roots, a);
    NoExtreme(x, wantMax);
    var count :- rep.SubtreeSize(a);
    if count == 0 {
      EmptyFlat(rec);
      return Ok(Identity(wantMax));
    }
    ExtremeOfRecord(rec, n, types, x, wantMax);
    if x in rec.vals { return Ok(rec.vals[x]); }
    var best := Identity(wantMax);
    ChildrenOnce(n);
    SlotsPositive(rec);
    for s := 0 to |rec.slots|
      invariant rep.Valid() && Int64(best) && best == ExtremeOf(FlatSlots(rec.slots[..s]), x, wantMax)
    {
      ExtremeSlot(rec.slots, n.children, types, s, x, wantMax);
      best :- SlotExtreme(rep, a, s, x, wantMax, best, n, types);
    }
    assert rec.slots[..|rec.slots|] == rec.slots;
    return Ok(best);
  }

  lemma NoExtreme(x: Attr, wantMax: bool)
    ensures ExtremeOf([], x, wantMax) == Identity(wantMax) && ExtremeOf(FlatSlots([]), x, wantMax) == Identity(wantMax)
    ensures FlatAll([]) == []
  {
    var unit: Tuple := map[];
    assert FlatSlots([]) == [unit] && [unit][1..] == [];
  }

  lemma SlotsPositive(r: Rec)
    requires Size(r) > 0
    ensures SizeSlots(r.slots) > 0
  {}

  lemma BetterAssoc(a: int, b: int, c: int, wantMax: bool)
    ensures Better(Better(a, b, wantMax), c, wantMax) == Better(a, Better(b, c, wantMax), wantMax)
  {}

  lemma BetterIdentity(a: int, wantMax: bool)
    requires Int64(a)
    ensures Better(a, Identity(wantMax), wantMax) == a
  {}

  method SlotExtreme(rep: FRepresentation, a: Address, s: nat, x: Attr, wantMax: bool, start: int, ghost n: FNode, ghost types: Types)
    returns (r: Outcome<int>)
    requires rep.Valid() && Exists(rep.roots, a) && Shaped(RecAt(rep.roots, a), n) && Ranged(RecAt(rep.roots, a), types)
    requires s < |RecAt(rep.roots, a).slots| && Int64(start)
    modifies rep`cache
    ensures rep.Valid()
    ensures r.Ok? ==> Int64(r.value) && r.value == Better(start, ExtremeOf(FlatAll(RecAt(rep.roots, a).slots[s].recs), x, wantMax), wantMax)
    decreases RecAt(rep.roots, a), 0
  {
    hide Faithful, Settled, ExtremeOf, Flat, FlatAll, Shaped;
    var recs := RecAt(rep.roots, a).slots[s].recs;
    NoExtreme(x, wantMax);
    BetterIdentity(start, wantMax);
    var best := start;
    for i := 0 to |recs|
      invariant rep.Valid() && Int64(best) && best == Better(start, ExtremeOf(FlatAll(recs[..i]), x, wantMax), wantMax)
    {
      var c := Child(a, s, i);
      FlatAllSnoc(recs, i);
      if rep.IsPruned(c) {
        PrunedIsEmpty(rep.roots, rep.cache, c);
        EmptyFlat(recs[i]);
        assert FlatAll(recs[..i]) + [] == FlatAll(recs[..i]);
        continue;
      }
      ShapedChild(RecAt(rep.roots, a), n, s, i);
      assert recs[i] in recs;
      AllRange(recs[..i], types, x);
      FlatRange(recs[i], types, x);
      ExtremeAppend(FlatAll(recs[..i]), Flat(recs[i]), x, wantMax);
      ExtremeInRange(Flat(recs[i]), x, wantMax);
      BetterAssoc(start, ExtremeOf(FlatAll(recs[..i]), x, wantMax), ExtremeOf(Flat(recs[i]), x, wantMax), wantMax);
      var below :- SubtreeExtreme(rep, c, x, wantMax, n.children[s], types);
      best := Better(best, below, wantMax);
    }
    assert recs[..|recs|] == recs;
    return Ok(best);
  }
}
