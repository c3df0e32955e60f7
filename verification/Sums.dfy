/** Sums, sums of products and extremes over bags of tuples, and how they pass through
    products and f-representations. */
module Sums {
  import opened Bags
  import opened FReps
  import opened FTrees
  import opened Flattening
  import opened Reordering
  import opened Restructuring
  import opened Transforming
  import opened Joins
  import opened Checked
  import opened LowerMethods

  //
  // Over bags
  //

  function ValueAt(t: Tuple, x: Attr): int {
    if x in t then t[x] else 0
  }

  function SumOf(b: seq<Tuple>, x: Attr): int {
    if b == [] then 0 else ValueAt(b[0], x) + SumOf(b[1..], x)
  }

  function ProductAt(t: Tuple, x: Attr, y: Attr): int {
    if x in t && y in t then t[x] * t[y] else 0
  }

  /** The sum of `x * y` over the tuples that have both. */
  function ProductOf(b: seq<Tuple>, x: Attr, y: Attr): int {
    if b == [] then 0 else ProductAt(b[0], x, y) + ProductOf(b[1..], x, y)
  }

  function Better(a: int, b: int, wantMax: bool): int {
    if wantMax then (if a < b then b else a) else (if b < a then b else a)
  }

  /** What an extreme over nothing is. */
  function Identity(wantMax: bool): int {
    if wantMax then INT64_MIN else INT64_MAX
  }

  function ExtremeOf(b: seq<Tuple>, x: Attr, wantMax: bool): int {
    if b == [] then Identity(wantMax)
    else if x in b[0] then Better(b[0][x], ExtremeOf(b[1..], x, wantMax), wantMax)
    else ExtremeOf(b[1..], x, wantMax)
  }

  ghost predicate Lacks(b: seq<Tuple>, x: Attr) {
    forall t :: t in b ==> x !in t
  }

  /** The attribute belongs to one factor only. */
  ghost predicate OneSided(a: seq<Tuple>, b: seq<Tuple>, x: Attr) {
    Lacks(a, x) || Lacks(b, x)
  }

  lemma SumAppend(a: seq<Tuple>, b: seq<Tuple>, x: Attr)
    ensures SumOf(a + b, x) == SumOf(a, x) + SumOf(b, x)
  {
    if a == [] { assert a + b == b; } else { assert (a + b)[1..] == a[1..] + b; SumAppend(a[1..], b, x); }
  }

  lemma ProductAppend(a: seq<Tuple>, b: seq<Tuple>, x: Attr, y: Attr)
    ensures ProductOf(a + b, x, y) == ProductOf(a, x, y) + ProductOf(b, x, y)
  {
    if a == [] { assert a + b == b; } else { assert (a + b)[1..] == a[1..] + b; ProductAppend(a[1..], b, x, y); }
  }

  lemma ExtremeAppend(a: seq<Tuple>, b: seq<Tuple>, x: Attr, wantMax: bool)
    requires InRange64(a, x) && InRange64(b, x)
    ensures ExtremeOf(a + b, x, wantMax) == Better(ExtremeOf(a, x, wantMax), ExtremeOf(b, x, wantMax), wantMax)
  {
    ExtremeInRange(b, x, wantMax);
    if a == [] {
      assert a + b == b;
    } else {
      assert (a + b)[1..] == a[1..] + b && a[0] in a && forall t :: t in a[1..] ==> t in a;
      ExtremeAppend(a[1..], b, x, wantMax);
    }
  }

  ghost predicate InRange64(b: seq<Tuple>, x: Attr) {
    forall t :: t in b && x in t ==> Int64(t[x])
  }

  lemma ExtremeInRange(b: seq<Tuple>, x: Attr, wantMax: bool)
    requires InRange64(b, x)
    ensures Int64(ExtremeOf(b, x, wantMax))
  {
    if b != [] {
      assert b[0] in b && forall t :: t in b[1..] ==> t in b;
      ExtremeInRange(b[1..], x, wantMax);
    }
  }

  /** An extreme bounds every value and is one of them, whenever there is one. */
  lemma {:induction false} ExtremeIs(b: seq<Tuple>, x: Attr, wantMax: bool)
    requires InRange64(b, x)
    ensures forall t :: t in b && x in t ==> if wantMax then t[x] <= ExtremeOf(b, x, wantMax) else ExtremeOf(b, x, wantMax) <= t[x]
    ensures !Lacks(b, x) ==> exists t :: t in b && x in t && t[x] == ExtremeOf(b, x, wantMax)
    ensures Lacks(b, x) ==> ExtremeOf(b, x, wantMax) == Identity(wantMax)
  {
    if b != [] {
      assert b[0] in b && forall t :: t in b[1..] ==> t in b;
      ExtremeIs(b[1..], x, wantMax);
      assert b == [b[0]] + b[1..];
    }
  }

  //
  // Through products
  //

  lemma SumPrefix(t: Tuple, b: seq<Tuple>, x: Attr)
    requires x !in t || Lacks(b, x)
    ensures SumOf(Prefix(t, b), x) == |b| * ValueAt(t, x) + SumOf(b, x)
  {
    if b != [] {
      assert b[0] in b && forall u :: u in b[1..] ==> u in b;
      assert Prefix(t, b)[0] == t + b[0] && Prefix(t, b)[1..] == Prefix(t, b[1..]);
      SumPrefix(t, b[1..], x);
      assert |b| * ValueAt(t, x) == ValueAt(t, x) + (|b| - 1) * ValueAt(t, x);
    }
  }

  lemma {:induction false} SumCross(a: seq<Tuple>, b: seq<Tuple>, x: Attr)
    requires OneSided(a, b, x)
    ensures SumOf(Cross(a, b), x) == SumOf(a, x) * |b| + |a| * SumOf(b, x)
  {
    if a != [] {
      assert a[0] in a && forall u :: u in a[1..] ==> u in a;
      SumAppend(Prefix(a[0], b), Cross(a[1..], b), x);
      SumPrefix(a[0], b, x);
      SumCross(a[1..], b, x);
      OneMore(ValueAt(a[0], x), SumOf(a[1..], x), |b|, |a| - 1, SumOf(b, x));
    }
  }

  lemma OneMore(v: int, s: int, n: int, m: int, t: int)
    ensures (v + s) * n + (m + 1) * t == (n * v + t) + (s * n + m * t)
  {
    assert (v + s) * n == n * v + s * n;
    assert (m + 1) * t == t + m * t;
  }

  lemma ProductAtSum(t: Tuple, u: Tuple, x: Attr, y: Attr)
    requires (x !in t || x !in u) && (y !in t || y !in u)
    ensures ProductAt(t + u, x, y)
         == ProductAt(t, x, y) + ProductAt(u, x, y) + ValueAt(t, x) * ValueAt(u, y) + ValueAt(t, y) * ValueAt(u, x)
  {
    if x in t && y in u { assert ProductAt(t + u, x, y) == t[x] * u[y]; }
    if x in u && y in t { assert ProductAt(t + u, x, y) == u[x] * t[y]; }
  }

  lemma ProductStep(n: int, pa: int, pu: int, pb: int, vx: int, uy: int, sy: int, vy: int, ux: int, sx: int)
    ensures (n + 1) * pa + (pu + pb) + vx * (uy + sy) + vy * (ux + sx)
         == (pa + pu + vx * uy + vy * ux) + (n * pa + pb + vx * sy + vy * sx)
  {
    assert (n + 1) * pa == n * pa + pa;
    assert vx * (uy + sy) == vx * uy + vx * sy;
    assert vy * (ux + sx) == vy * ux + vy * sx;
  }

  lemma {:induction false} ProductPrefix(t: Tuple, b: seq<Tuple>, x: Attr, y: Attr)
    requires (x !in t || Lacks(b, x)) && (y !in t || Lacks(b, y))
    ensures ProductOf(Prefix(t, b), x, y)
         == |b| * ProductAt(t, x, y) + ProductOf(b, x, y) + ValueAt(t, x) * SumOf(b, y) + ValueAt(t, y) * SumOf(b, x)
  {
    if b != [] {
      var u := b[0];
      assert u in b && forall v :: v in b[1..] ==> v in b;
      assert Prefix(t, b)[0] == t + u && Prefix(t, b)[1..] == Prefix(t, b[1..]);
      ProductPrefix(t, b[1..], x, y);
      ProductAtSum(t, u, x, y);
      ProductStep(|b| - 1, ProductAt(t, x, y), ProductAt(u, x, y), ProductOf(b[1..], x, y), ValueAt(t, x), ValueAt(u, y),
                  SumOf(b[1..], y), ValueAt(t, y), ValueAt(u, x), SumOf(b[1..], x));
    }
  }

  lemma Bilinear(p: int, ps: int, n: int, sx: int, sxs: int, sy: int, sys: int, qy: int, qx: int, qp: int, m: int)
    ensures (p + ps) * n + (m + 1) * qp + (sx + sxs) * qy + (sy + sys) * qx
         == (n * p + qp + sx * qy + sy * qx) + (ps * n + m * qp + sxs * qy + sys * qx)
  {
    assert (p + ps) * n == n * p + ps * n;
    assert (m + 1) * qp == qp + m * qp;
    assert (sx + sxs) * qy == sx * qy + sxs * qy;
    assert (sy + sys) * qx == sy * qx + sys * qx;
  }

  lemma TailOneSided(a: seq<Tuple>, b: seq<Tuple>, x: Attr)
    requires OneSided(a, b, x) && a != []
    ensures (x !in a[0] || Lacks(b, x)) && OneSided(a[1..], b, x)
  {
    assert a[0] in a && forall u :: u in a[1..] ==> u in a;
  }

  /** Two independent bags: the cross terms are products of one-column sums. */
  lemma {:induction false} ProductCross(a: seq<Tuple>, b: seq<Tuple>, x: Attr, y: Attr)
    requires OneSided(a, b, x) && OneSided(a, b, y)
    ensures ProductOf(Cross(a, b), x, y)
         == ProductOf(a, x, y) * |b| + |a| * ProductOf(b, x, y) + SumOf(a, x) * SumOf(b, y) + SumOf(a, y) * SumOf(b, x)
  {
    if a != [] {
      hide Prefix, OneSided, Lacks, ProductAt, ValueAt;
      TailOneSided(a, b, x);
      TailOneSided(a, b, y);
      ProductAppend(Prefix(a[0], b), Cross(a[1..], b), x, y);
      ProductPrefix(a[0], b, x, y);
      ProductCross(a[1..], b, x, y);
      Bilinear(ProductAt(a[0], x, y), ProductOf(a[1..], x, y), |b|, ValueAt(a[0], x), SumOf(a[1..], x), ValueAt(a[0], y),
               SumOf(a[1..], y), SumOf(b, y), SumOf(b, x), ProductOf(b, x, y), |a| - 1);
    }
  }

  lemma {:induction false} ExtremePrefix(t: Tuple, b: seq<Tuple>, x: Attr, wantMax: bool)
    requires (x !in t || Lacks(b, x)) && (x in t ==> Int64(t[x])) && b != []
    ensures ExtremeOf(Prefix(t, b), x, wantMax) == if x in t then t[x] else ExtremeOf(b, x, wantMax)
    decreases |b|
  {
    assert b[0] in b && forall u :: u in b[1..] ==> u in b;
    assert Prefix(t, b)[0] == t + b[0] && Prefix(t, b)[1..] == Prefix(t, b[1..]);
    if |b| > 1 {
      ExtremePrefix(t, b[1..], x, wantMax);
    } else {
      assert Prefix(t, b[1..]) == [];
    }
  }

  lemma {:induction false} ExtremeCross(a: seq<Tuple>, b: seq<Tuple>, x: Attr, wantMax: bool)
    requires OneSided(a, b, x) && InRange64(a, x) && InRange64(b, x) && a != [] && b != []
    ensures ExtremeOf(Cross(a, b), x, wantMax) == Better(ExtremeOf(a, x, wantMax), ExtremeOf(b, x, wantMax), wantMax)
    decreases |a|
  {
    assert a[0] in a && forall u :: u in a[1..] ==> u in a;
    ExtremePrefix(a[0], b, x, wantMax);
    CrossRanges(a, b, x);
    ExtremeInRange(b, x, wantMax);
    var one := Prefix(a[0], b);
    assert InRange64(one, x) && InRange64(Cross(a[1..], b), x) by {
      forall t | t in one ensures t in Cross(a, b) {}
      forall t | t in Cross(a[1..], b) ensures t in Cross(a, b) {}
    }
    ExtremeAppend(one, Cross(a[1..], b), x, wantMax);
    ExtremeIs(a, x, wantMax);
    ExtremeIs(b, x, wantMax);
    if |a| > 1 {
      ExtremeCross(a[1..], b, x, wantMax);
      ExtremeIs(a[1..], x, wantMax);
    } else {
      assert Cross(a[1..], b) == [];
      assert ExtremeOf(a[1..], x, wantMax) == Identity(wantMax);
    }
  }

  lemma CrossRanges(a: seq<Tuple>, b: seq<Tuple>, x: Attr)
    requires InRange64(a, x) && InRange64(b, x)
    ensures InRange64(Cross(a, b), x)
  {
    forall t | t in Cross(a, b) && x in t ensures Int64(t[x]) {
      CrossMembers(a, b, t);
    }
  }

  //
  // Through f-representations
  //

  lemma SumCopies(t: Tuple, w: nat, x: Attr)
    ensures SumOf(Copies(w, t), x) == w * ValueAt(t, x)
  {
    if w > 0 {
      assert Copies(w, t)[1..] == Copies(w - 1, t);
      SumCopies(t, w - 1, x);
      assert w * ValueAt(t, x) == ValueAt(t, x) + (w - 1) * ValueAt(t, x);
    }
  }

  lemma ProductCopies(t: Tuple, w: nat, x: Attr, y: Attr)
    ensures ProductOf(Copies(w, t), x, y) == w * ProductAt(t, x, y)
  {
    if w > 0 {
      assert Copies(w, t)[1..] == Copies(w - 1, t);
      ProductCopies(t, w - 1, x, y);
      assert w * ProductAt(t, x, y) == ProductAt(t, x, y) + (w - 1) * ProductAt(t, x, y);
    }
  }

  /** A record's own attributes are not its children's, and siblings' are different. */
  lemma RecordOneSided(r: Rec, n: FNode, x: Attr)
    requires Conforms(r, n) && AtMostOnce(AttrBag(n))
    ensures OneSided(Own(r), FlatSlots(r.slots), x)
    ensures x in r.vals ==> Lacks(FlatSlots(r.slots), x)
  {
    AtMostOnceParts(multiset(n.attrs), AttrBagAll(n.children));
    AttrSetAllIsBag(n.children);
    if x in r.vals {
      forall t | t in FlatSlots(r.slots) ensures x !in t {
        FlatSlotsKeys(r.slots, n.children, t);
        assert multiset(n.attrs)[x] == 1;
      }
    } else {
      assert Lacks(Own(r), x);
    }
  }

  lemma SlotsOneSided(slots: seq<Slot>, ns: seq<FNode>, x: Attr)
    requires SlotsConform(slots, ns) && AtMostOnce(AttrBagAll(ns)) && slots != []
    ensures OneSided(FlatAll(slots[0].recs), FlatSlots(slots[1..]), x)
    ensures AtMostOnce(AttrBag(ns[0])) && AtMostOnce(AttrBagAll(ns[1..])) && SlotsConform(slots[1..], ns[1..])
  {
    AtMostOnceParts(AttrBag(ns[0]), AttrBagAll(ns[1..]));
    AttrSetIsBag(ns[0]);
    AttrSetAllIsBag(ns[1..]);
    if x in AttrSet(ns[0]) {
      forall t | t in FlatSlots(slots[1..]) ensures x !in t { FlatSlotsKeys(slots[1..], ns[1..], t); }
    } else {
      forall t | t in FlatAll(slots[0].recs) ensures x !in t { FlatAllKeys(slots[0].recs, ns[0], t); }
    }
  }

  /** The sum over a product of slots: each slot's sum as often as the others combine. */
  function SumSlots(slots: seq<Slot>, x: Attr): int {
    if slots == [] then 0
    else SumOf(FlatAll(slots[0].recs), x) * SizeSlots(slots[1..]) + SizeAll(slots[0].recs) * SumSlots(slots[1..], x)
  }

  lemma {:induction false} SumSlotsIs(slots: seq<Slot>, ns: seq<FNode>, x: Attr)
    requires SlotsConform(slots, ns) && AtMostOnce(AttrBagAll(ns))
    ensures SumOf(FlatSlots(slots), x) == SumSlots(slots, x)
  {
    if slots != [] {
      SlotsOneSided(slots, ns, x);
      SumSlotsIs(slots[1..], ns[1..], x);
      SumCross(FlatAll(slots[0].recs), FlatSlots(slots[1..]), x);
      SizeAllIsCount(slots[0].recs);
      SizeSlotsIsCount(slots[1..]);
    }
  }

  lemma SumSplit(s: int, zb: int, z: int, sa: int, za: int, sb: int)
    ensures s * (za * zb) + z * (sa * zb + za * sb) == (s * za + z * sa) * zb + z * za * sb
  {
    assert z * (sa * zb + za * sb) == z * sa * zb + z * za * sb;
    assert (s * za + z * sa) * zb == s * za * zb + z * sa * zb;
    assert s * (za * zb) == s * za * zb;
  }

  lemma {:induction false} SumSlotsAppend(a: seq<Slot>, b: seq<Slot>, x: Attr)
    ensures SumSlots(a + b, x) == SumSlots(a, x) * SizeSlots(b) + SizeSlots(a) * SumSlots(b, x)
  {
    if a == [] {
      assert a + b == b;
    } else {
      assert (a + b)[0] == a[0] && (a + b)[1..] == a[1..] + b;
      SumSlotsAppend(a[1..], b, x);
      SizeSlotsAppend(a[1..], b);
      SumSplit(SumOf(FlatAll(a[0].recs), x), SizeSlots(b), SizeAll(a[0].recs), SumSlots(a[1..], x), SizeSlots(a[1..]), SumSlots(b, x));
    }
  }

  /** Where the value sits on the record, every tuple below carries it. */
  lemma SumHere(r: Rec, n: FNode, x: Attr)
    requires Conforms(r, n) && AtMostOnce(AttrBag(n)) && x in r.vals
    ensures SumOf(Flat(r), x) == r.vals[x] * Size(r)
  {
    RecordOneSided(r, n, x);
    var below := FlatSlots(r.slots);
    SumCross(Own(r), below, x);
    assert Own(r) == Copies(r.weight, r.vals);
    SumCopies(r.vals, r.weight, x);
    SumNothing(below, x);
    SizeSlotsIsCount(r.slots);
    Rearranged(r.weight, r.vals[x], |below|);
  }

  lemma Rearranged(w: int, v: int, n: int)
    ensures w * v * n + w * 0 == v * (w * n)
  {}

  lemma SumNothing(b: seq<Tuple>, x: Attr)
    requires Lacks(b, x)
    ensures SumOf(b, x) == 0
  {
    if b != [] { assert b[0] in b && forall t :: t in b[1..] ==> t in b; SumNothing(b[1..], x); }
  }

  lemma SumBelow(r: Rec, n: FNode, x: Attr)
    requires Conforms(r, n) && AtMostOnce(AttrBag(n)) && x !in r.vals
    ensures SumOf(Flat(r), x) == r.weight * SumSlots(r.slots, x)
  {
    hide Cross, FlatSlots, SumSlots, SumOf;
    RecordOneSided(r, n, x);
    AtMostOnceParts(multiset(n.attrs), AttrBagAll(n.children));
    SumCross(Own(r), FlatSlots(r.slots), x);
    assert SumOf(Own(r), x) == 0 by { SumNothing(Own(r), x); }
    SumSlotsIs(r.slots, n.children, x);
  }

  lemma FlatAllSnoc(rs: seq<Rec>, i: nat)
    requires i < |rs|
    ensures FlatAll(rs[..i + 1]) == FlatAll(rs[..i]) + Flat(rs[i])
  {
    assert rs[..i + 1] == rs[..i] + [rs[i]];
    FlatAllAppend(rs[..i], [rs[i]]);
    assert FlatAll([rs[i]]) == Flat(rs[i]) + FlatAll([]);
  }
}
