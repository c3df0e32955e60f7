/** The factorized equi-join: records of the lower side are attached below the records of
    the upper side that carry the same key, and nothing is flattened. */
module Joins {
  import opened Bags
  import opened FReps
  import opened FTrees
  import opened Flattening
  import opened Reordering
  import opened Restructuring
  import opened Transforming
  import opened FlatJoins

  //
  // Which attributes the tuples of a tree carry
  //

  function AttrSet(n: FNode): set<Attr>
    decreases n
  {
    n.attrs + AttrSetAll(n.children)
  }

  function AttrSetAll(ns: seq<FNode>): set<Attr>
    decreases ns
  {
    if ns == [] then {} else AttrSet(ns[0]) + AttrSetAll(ns[1..])
  }

  lemma {:induction false} AttrSetIsBag(n: FNode)
    ensures forall a :: a in AttrSet(n) <==> AttrBag(n)[a] >= 1
    decreases n
  {
    AttrSetAllIsBag(n.children);
  }

  lemma {:induction false} AttrSetAllIsBag(ns: seq<FNode>)
    ensures forall a :: a in AttrSetAll(ns) <==> AttrBagAll(ns)[a] >= 1
    decreases ns
  {
    if ns != [] {
      AttrSetIsBag(ns[0]);
      AttrSetAllIsBag(ns[1..]);
    }
  }

  lemma {:induction false} FlatKeys(r: Rec, n: FNode, t: Tuple)
    requires Conforms(r, n) && t in Flat(r)
    ensures t.Keys == AttrSet(n)
    decreases r
  {
    CrossMembers(Own(r), FlatSlots(r.slots), t);
    var x, y :| x in Own(r) && y in FlatSlots(r.slots) && t == x + y;
    FlatSlotsKeys(r.slots, n.children, y);
  }

  lemma {:induction false} FlatSlotsKeys(slots: seq<Slot>, ns: seq<FNode>, t: Tuple)
    requires SlotsConform(slots, ns) && t in FlatSlots(slots)
    ensures t.Keys == AttrSetAll(ns)
    decreases slots
  {
    if slots != [] {
      CrossMembers(FlatAll(slots[0].recs), FlatSlots(slots[1..]), t);
      var x, y :| x in FlatAll(slots[0].recs) && y in FlatSlots(slots[1..]) && t == x + y;
      FlatAllKeys(slots[0].recs, ns[0], x);
      FlatSlotsKeys(slots[1..], ns[1..], y);
    }
  }

  lemma {:induction false} FlatAllKeys(rs: seq<Rec>, n: FNode, t: Tuple)
    requires ConformsAll(rs, n) && t in FlatAll(rs)
    ensures t.Keys == AttrSet(n)
    decreases rs
  {
    if t in Flat(rs[0]) {
      FlatKeys(rs[0], n, t);
    } else {
      assert forall r :: r in rs[1..] ==> r in rs;
      FlatAllKeys(rs[1..], n, t);
    }
  }

  //
  // Attaching
  //

  /** The tree with `low` as the last child of the node at `ins`. */
  function Attach(n: FNode, ins: Path, low: FNode): FNode
    decreases n
  {
    if ins == [] || ins[0] >= |n.children| then n.(children := n.children + [low])
    else n.(children := n.children[ins[0] := Attach(n.children[ins[0]], ins[1..], low)])
  }

  /** The output record for `n`: as materialized, with the lower records that match its key
      attached below the insertion node. */
  function JoinNode(roots: seq<Rec>, c: Ctx, n: FNode, ins: Path, ka: seq<Attr>, answer: seq<int> -> seq<Rec>): Rec
    decreases n, 0
  {
    var slots := MatChildren(roots, c, n.children);
    var vals := ValsOf(c, n.sources);
    Rec(vals, WeightOf(c, n.sources),
        if ins == [] || ins[0] >= |n.children| then slots + [Slot(answer(KeyOf(vals, ka)))]
        else slots[ins[0] := Slot(JoinAll(roots, c, n.children[ins[0]], ins[1..], ka, answer))])
  }

  function JoinAll(roots: seq<Rec>, ctx: Ctx, n: FNode, ins: Path, ka: seq<Attr>, answer: seq<int> -> seq<Rec>): seq<Rec>
    decreases n, 1
  {
    FlatMap(Iter(roots, ctx, n.sources), c => [JoinNode(roots, c, n, ins, ka, answer)])
  }

  /** `answer` answers each key with records denoting exactly the tuples of `b` whose key meets it. */
  ghost predicate Answers(answer: seq<int> -> seq<Rec>, b: seq<Tuple>, kb: seq<Attr>, how: Comparing) {
    forall k :: Perm(FlatAll(answer(k)), Meeting(b, kb, k, how))
  }

  ghost predicate KeysAt(n: FNode, ins: Path, ka: seq<Attr>) {
    NodeAt(n, ins).Some? && forall k :: k in ka ==> k in NodeAt(n, ins).value.attrs
  }

  ghost predicate Apart(b: seq<Tuple>, attrs: set<Attr>) {
    forall y :: y in b ==> y.Keys !! attrs
  }

  function JoinAfter<T>(f: T -> seq<Tuple>, b: seq<Tuple>, ka: seq<Attr>, kb: seq<Attr>, how: Comparing): T -> seq<Tuple> {
    x => BagJoin(f(x), b, ka, kb, how)
  }

  lemma BagJoinFlatMap<T>(s: seq<T>, f: T -> seq<Tuple>, b: seq<Tuple>, ka: seq<Attr>, kb: seq<Attr>, how: Comparing)
    ensures BagJoin(FlatMap(s, f), b, ka, kb, how) == FlatMap(s, JoinAfter(f, b, ka, kb, how))
  {
    if s != [] {
      BagJoinAppend(f(s[0]), FlatMap(s[1..], f), b, ka, kb, how);
      BagJoinFlatMap(s[1..], f, b, ka, kb, how);
    }
  }

  lemma FlatSlotsAt(slots: seq<Slot>, i: nat, s: Slot)
    requires i < |slots|
    ensures FlatSlots(slots[i := s])
         == Cross(FlatSlots(slots[..i]), Cross(FlatAll(s.recs), FlatSlots(slots[i + 1..])))
  {
    assert slots[i := s] == slots[..i] + ([s] + slots[i + 1..]);
    FlatSlotsAppend(slots[..i], [s] + slots[i + 1..]);
    assert ([s] + slots[i + 1..])[1..] == slots[i + 1..];
  }

  lemma MatChildrenAt(roots: seq<Rec>, c: Ctx, ns: seq<FNode>, i: nat)
    requires i < |ns|
    ensures MatChildren(roots, c, ns)[i].recs == MatAll(roots, c, ns[i])
  {
    if i > 0 { MatChildrenAt(roots, c, ns[1..], i - 1); }
  }

  /** The child at `i` and its siblings carry different attributes. */
  lemma SiblingsApart(ns: seq<FNode>, i: nat)
    requires i < |ns| && AtMostOnce(AttrBagAll(ns))
    ensures AtMostOnce(AttrBag(ns[i])) && AttrSet(ns[i]) <= AttrSetAll(ns)
    ensures AttrSetAll(ns[i + 1..]) <= AttrSetAll(ns) && AttrSetAll(ns[i + 1..]) !! AttrSet(ns[i])
    decreases i
  {
    AtMostOnceParts(AttrBag(ns[0]), AttrBagAll(ns[1..]));
    if i > 0 {
      SiblingsApart(ns[1..], i - 1);
    } else {
      AttrSetIsBag(ns[0]);
      AttrSetAllIsBag(ns[1..]);
    }
  }

  lemma NodeAtInSet(n: FNode, p: Path)
    requires NodeAt(n, p).Some?
    ensures NodeAt(n, p).value.attrs <= AttrSet(n)
  {
    NodeAttrsInBag(n, p);
    AttrSetIsBag(n);
  }

  /** Every tuple of a record has the key of the record. */
  lemma KeyOfRecord(m: Rec, n: FNode, ka: seq<Attr>)
    requires Conforms(m, n) && AtMostOnce(AttrBag(n)) && KeysAt(n, [], ka)
    ensures forall t :: t in Flat(m) ==> KeyOf(t, ka) == KeyOf(m.vals, ka)
  {
    forall t | t in Flat(m) ensures KeyOf(t, ka) == KeyOf(m.vals, ka) {
      CrossMembers(Own(m), FlatSlots(m.slots), t);
      var x, y :| x in Own(m) && y in FlatSlots(m.slots) && t == x + y;
      FlatSlotsKeys(m.slots, n.children, y);
      AtMostOnceParts(multiset(n.attrs), AttrBagAll(n.children));
      AttrSetAllIsBag(n.children);
      forall a | a in ka ensures a !in y { assert multiset(n.attrs)[a] == 1; }
    }
  }

  /** Attaching right below the records of `n`. */
  lemma JoinHere(m: Rec, n: FNode, ka: seq<Attr>, low: seq<Rec>, b: seq<Tuple>, kb: seq<Attr>, how: Comparing)
    requires Conforms(m, n) && AtMostOnce(AttrBag(n)) && KeysAt(n, [], ka)
    requires Perm(FlatAll(low), Meeting(b, kb, KeyOf(m.vals, ka), how))
    ensures Perm(Flat(m.(slots := m.slots + [Slot(low)])), BagJoin(Flat(m), b, ka, kb, how))
  {
    KeyOfRecord(m, n, ka);
    BagJoinOneKey(Flat(m), b, ka, kb, KeyOf(m.vals, ka), how);
    CrossCongRight(Flat(m), FlatAll(low), Meeting(b, kb, KeyOf(m.vals, ka), how));
    AttachedSlot(m, low);
  }

  lemma AttachedSlot(m: Rec, low: seq<Rec>)
    ensures Flat(m.(slots := m.slots + [Slot(low)])) == Cross(Flat(m), FlatAll(low))
  {
    assert Own(m.(slots := m.slots + [Slot(low)])) == Own(m);
    FlatSlotsAppend(m.slots, [Slot(low)]);
    CrossUnit(FlatAll(low));
    assert FlatSlots([Slot(low)]) == FlatAll(low);
    CrossAssoc(Own(m), FlatSlots(m.slots), FlatAll(low));
  }

  /** The join of a product happens in the factor that carries the key. */
  lemma JoinInside(own: seq<Tuple>, left: seq<Tuple>, x: seq<Tuple>, x': seq<Tuple>, right: seq<Tuple>,
                   b: seq<Tuple>, ka: seq<Attr>, kb: seq<Attr>, how: Comparing)
    requires Perm(x', BagJoin(x, b, ka, kb, how))
    requires HasKeys(x, ka) && LacksKeys(right, ka) && Disjoint(right, b)
    ensures Perm(Cross(own, Cross(left, Cross(x', right))),
                 BagJoin(Cross(own, Cross(left, Cross(x, right))), b, ka, kb, how))
  {
    var j := BagJoin(Cross(x, right), b, ka, kb, how);
    BagJoinCrossRight(x, right, b, ka, kb, how);
    CrossCongLeft(x', BagJoin(x, b, ka, kb, how), right);
    assert HasKeys(Cross(x, right), ka) by {
      forall t, k | t in Cross(x, right) && k in ka ensures k in t {
        CrossMembers(x, right, t);
      }
    }
    CrossAssoc(own, left, Cross(x', right));
    CrossAssoc(own, left, Cross(x, right));
    BagJoinCrossLeft(Cross(own, left), Cross(x, right), b, ka, kb, how);
    CrossCongRight(Cross(own, left), Cross(x', right), j);
  }

  lemma {:induction false} JoinBelow(roots: seq<Rec>, c: Ctx, n: FNode, i: nat, ka: seq<Attr>, b: seq<Tuple>,
                                     kb: seq<Attr>, x: seq<Rec>, how: Comparing)
    requires Conforms(MatNode(roots, c, n), n) && AtMostOnce(AttrBag(n)) && i < |n.children|
    requires forall k :: k in ka ==> k in AttrSet(n.children[i])
    requires Apart(b, AttrSet(n))
    requires Perm(FlatAll(x), BagJoin(FlatAll(MatAll(roots, c, n.children[i])), b, ka, kb, how))
    ensures Perm(Flat(MatNode(roots, c, n).(slots := MatNode(roots, c, n).slots[i := Slot(x)])),
                 BagJoin(Flat(MatNode(roots, c, n)), b, ka, kb, how))
  {
    var m := MatNode(roots, c, n);
    var before, right := MatAll(roots, c, n.children[i]), FlatSlots(m.slots[i + 1..]);
    MatChildrenAt(roots, c, n.children, i);
    FlatSlotsAt(m.slots, i, Slot(x));
    FlatSlotsAt(m.slots, i, m.slots[i]);
    assert m.slots[i := m.slots[i]] == m.slots;
    AtMostOnceParts(multiset(n.attrs), AttrBagAll(n.children));
    SiblingsApart(n.children, i);
    assert HasKeys(FlatAll(before), ka) by {
      forall t, k | t in FlatAll(before) && k in ka ensures k in t { FlatAllKeys(before, n.children[i], t); }
    }
    forall t | t in right ensures t.Keys == AttrSetAll(n.children[i + 1..]) {
      FlatSlotsKeys(m.slots[i + 1..], n.children[i + 1..], t);
    }
    assert Own(m.(slots := m.slots[i := Slot(x)])) == Own(m);
    JoinInside(Own(m), FlatSlots(m.slots[..i]), FlatAll(before), FlatAll(x), right, b, ka, kb, how);
  }

  /** What the join's output records denote: the equi-join of the two bags. */
  lemma {:induction false} JoinMeaning(roots: seq<Rec>, ctx: Ctx, t: FNode, n: FNode, ins: Path, ka: seq<Attr>,
                                       answer: seq<int> -> seq<Rec>, b: seq<Tuple>, kb: seq<Attr>, how: Comparing)
    requires ConformsAll(roots, t) && Typed(ctx, t) && Sourced(t, n) && AtMostOnce(AttrBag(n))
    requires KeysAt(n, ins, ka) && Answers(answer, b, kb, how) && Apart(b, AttrSet(n))
    ensures Perm(FlatAll(JoinAll(roots, ctx, n, ins, ka, answer)), BagJoin(FlatAll(MatAll(roots, ctx, n)), b, ka, kb, how))
    decreases n
  {
    var iter := Iter(roots, ctx, n.sources);
    var make, plain := c => JoinNode(roots, c, n, ins, ka, answer), c => MatNode(roots, c, n);
    forall c | c in iter
      ensures Perm(FlatOf(make)(c), JoinAfter(FlatOf(plain), b, ka, kb, how)(c))
    {
      IterTyped(roots, ctx, t, n.sources, c);
      IterBinds(roots, ctx, n.sources, c);
      MatNodeConforms(roots, c, t, n);
      if ins == [] {
        JoinHere(plain(c), n, ka, answer(KeyOf(plain(c).vals, ka)), b, kb, how);
      } else {
        var i := ins[0];
        AtMostOnceParts(multiset(n.attrs), AttrBagAll(n.children));
        SiblingsApart(n.children, i);
        SourcedChild(t, n.children, i);
        NodeAtInSet(n.children[i], ins[1..]);
        JoinMeaning(roots, c, t, n.children[i], ins[1..], ka, answer, b, kb, how);
        JoinBelow(roots, c, n, i, ka, b, kb, JoinAll(roots, c, n.children[i], ins[1..], ka, answer), how);
      }
    }
    FlatMapCong(iter, FlatOf(make), JoinAfter(FlatOf(plain), b, ka, kb, how));
    BagJoinFlatMap(iter, FlatOf(plain), b, ka, kb, how);
    FlatAllBuilt(iter, make);
    FlatAllBuilt(iter, plain);
    FlatMapSame(iter, c => [JoinNode(roots, c, n, ins, ka, answer)], One(make));
    FlatMapSame(iter, c => [MatNode(roots, c, n)], One(plain));
  }

  lemma SourcedChild(t: FNode, ns: seq<FNode>, i: nat)
    requires i < |ns| && SourcedAll(t, ns)
    ensures Sourced(t, ns[i])
  {
    if i > 0 { SourcedChild(t, ns[1..], i - 1); }
  }
}
