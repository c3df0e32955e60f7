/** What the joins of a plan find: the combinations of rows whose columns, wherever a predicate
    between two relations compares them, have the same bits. */
module Answering {
  import opened Bags
  import opened Filters
  import opened FTrees
  import opened Flattening
  import opened Restructuring
  import opened Transforming
  import opened FlatJoins
  import opened FactorizedJoins
  import opened Convergence
  import opened KeyPacking
  import opened Ranges
  import opened Graphs
  import opened Equalities
  import opened Plans

  //
  // The attributes of the accumulated tree
  //

  function AttrsJoined(g: QueryGraph, rs: seq<nat>): set<Attr>
    requires forall r :: r in rs ==> r < RelationCount(g)
  {
    set r, a | r in rs && a in AttributesOf(g, r) :: a
  }

  lemma AttrsJoinedSnoc(g: QueryGraph, rs: seq<nat>, r: nat)
    requires (forall q :: q in rs ==> q < RelationCount(g)) && r < RelationCount(g)
    ensures AttrsJoined(g, rs + [r]) == AttrsJoined(g, rs) + AttributesOf(g, r)
    ensures r !in rs ==> AttrsJoined(g, rs) !! AttributesOf(g, r)
  {
    var more := rs + [r];
    assert forall q :: q in more ==> q in rs || q == r;
    forall a ensures a in AttrsJoined(g, more) <==> a in AttrsJoined(g, rs) + AttributesOf(g, r) {
      if a in AttrsJoined(g, rs) {
        var q :| q in rs && a in AttributesOf(g, q);
        assert q in more;
      }
      if a in AttributesOf(g, r) { assert r in more; }
    }
    if r !in rs {
      forall a | a in AttrsJoined(g, rs) ensures a !in AttributesOf(g, r) {
        var q :| q in rs && a in AttributesOf(g, q);
        RelationsApart(g, q, r);
      }
    }
  }

  lemma JoinTreeBag(upper: FNode, lower: FNode, uk: seq<Attr>, lk: seq<Attr>, strategy: PathStrategy)
    requires AtMostOnce(AttrBag(upper)) && AtMostOnce(AttrBag(lower))
    ensures AttrBag(JoinTree(upper, lower, uk, lk, strategy)) == AttrBag(upper) + AttrBag(lower)
  {
    PathTreeValid(upper, uk, strategy);
    PathTreeValid(lower, lk, strategy);
    AttachBag(PathTree(upper, uk, strategy), InsertionPath(upper, uk, strategy), PathTree(lower, lk, strategy));
  }

  lemma RelationsSnoc(steps: seq<PlanStep>)
    requires steps != []
    ensures RelationsOf(steps) == RelationsOf(steps[..|steps| - 1]) + [steps[|steps| - 1].relation]
  {}

  lemma RelationsIn(g: QueryGraph, steps: seq<PlanStep>)
    requires StepsIn(g, steps)
    ensures forall r :: r in RelationsOf(steps) ==> r < RelationCount(g)
  {
    forall r | r in RelationsOf(steps) ensures r < RelationCount(g) {
      var i :| 0 <= i < |steps| && steps[i].relation == r;
      assert steps[i] in steps;
    }
  }

  ghost predicate AllConnect(g: QueryGraph, steps: seq<PlanStep>) {
    forall i :: 0 <= i < |steps| ==> StepConnects(g, steps, i)
  }

  lemma AllConnectPrefix(g: QueryGraph, steps: seq<PlanStep>, i: nat)
    requires AllConnect(g, steps) && i <= |steps|
    ensures AllConnect(g, steps[..i])
  {
    forall j | 0 <= j < i ensures StepConnects(g, steps[..i], j) {
      assert StepConnects(g, steps, j);
      assert steps[..i][..j] == steps[..j];
    }
  }

  /** The accumulated tree holds every attribute of the relations joined, once. */
  lemma {:induction false} TreeAfterBag(g: QueryGraph, steps: seq<PlanStep>, strategy: PathStrategy)
    requires steps != [] && StepsIn(g, steps) && AllConnect(g, steps)
    ensures (forall r :: r in RelationsOf(steps) ==> r < RelationCount(g))
    ensures AttrBag(TreeAfter(g, steps, strategy)) == multiset(AttrsJoined(g, RelationsOf(steps)))
    decreases |steps|
  {
    RelationsIn(g, steps);
    var before, last := steps[..|steps| - 1], steps[|steps| - 1];
    var attrs := AttributesOf(g, last.relation);
    assert last in steps && StepConnects(g, steps, |steps| - 1);
    StepsInPrefix(g, steps, |steps| - 1);
    RelationsIn(g, before);
    RelationsSnoc(steps);
    AttrsJoinedSnoc(g, RelationsOf(before), last.relation);
    ScanBag(attrs);
    if |steps| == 1 {
      assert AttrsJoined(g, RelationsOf(before)) == {};
    } else {
      AllConnectPrefix(g, steps, |steps| - 1);
      TreeAfterBag(g, before, strategy);
      JoinTreeBag(TreeAfter(g, before, strategy), Scan(attrs), AccumulatedKeys(g, steps, strategy),
                  NewKeys(g, last.relation, last.edges), strategy);
      MultisetUnion(AttrsJoined(g, RelationsOf(before)), attrs);
    }
  }

  //
  // Joining by words as a selection from the product
  //

  lemma {:induction false} MeetingIsFilter(b: seq<Tuple>, kb: seq<Attr>, k: seq<int>, how: Comparing, f: Tuple -> bool)
    requires forall y :: y in b ==> f(y) == Meets(how, k, KeyOf(y, kb))
    ensures Meeting(b, kb, k, how) == Filter(b, f)
  {
    if b != [] {
      assert b[0] in b && forall y :: y in b[1..] ==> y in b;
      MeetingIsFilter(b[1..], kb, k, how, f);
    }
  }

  /** A join keeps those combinations of the product that pass the test its key comparison makes. */
  lemma {:induction false} JoinIsFilter(a: seq<Tuple>, b: seq<Tuple>, ka: seq<Attr>, kb: seq<Attr>, how: Comparing, f: Tuple -> bool)
    requires forall x, y :: x in a && y in b ==> f(x + y) == Meets(how, KeyOf(x, ka), KeyOf(y, kb))
    ensures BagJoin(a, b, ka, kb, how) == Filter(Cross(a, b), f)
  {
    hide Meets, KeyOf;
    if a != [] {
      var x := a[0];
      var meets: Tuple -> bool := y => Meets(how, KeyOf(x, ka), KeyOf(y, kb));
      assert x in a && forall u :: u in a[1..] ==> u in a;
      JoinIsFilter(a[1..], b, ka, kb, how, f);
      MeetingIsFilter(b, kb, KeyOf(x, ka), how, meets);
      FilterPrefix(x, b, f, meets);
      FilterAppend(Prefix(x, b), Cross(a[1..], b), f);
    }
  }

  lemma WordedPlus(x: Tuple, y: Tuple, types: Types)
    ensures Worded(x + y, types) == Worded(x, types) + Worded(y, types)
  {}

  lemma WordedKeys(t: Tuple, types: Types)
    ensures Worded(t, types).Keys == t.Keys
  {}

  lemma WordedKey(t: Tuple, types: Types, keys: seq<Attr>)
    ensures forall i :: 0 <= i < |keys| ==> KeyOf(Worded(t, types), keys)[i] == Unsigned(TypesOf(types, keys)[i], KeyOf(t, keys)[i])
  {}

  /** Comparing packed keys compares the bits of the columns. */
  lemma MeetsByBits(x: Tuple, y: Tuple, types: Types, ka: seq<Attr>, kb: seq<Attr>)
    requires |ka| == |kb| && KeysFit(types, ka, kb)
    ensures Meets(ByWords(types, ka, kb), KeyOf(x, ka), KeyOf(y, kb)) <==> KeyOf(Worded(x, types), ka) == KeyOf(Worded(y, types), kb)
  {
    hide Worded, Unsigned, Pack;
    var ta, tb, a, b := TypesOf(types, ka), TypesOf(types, kb), KeyOf(x, ka), KeyOf(y, kb);
    PackedByColumn(ta, tb, a, b);
    WordedKey(x, types, ka);
    WordedKey(y, types, kb);
    var p, q := KeyOf(Worded(x, types), ka), KeyOf(Worded(y, types), kb);
    if SameBits(ta, tb, a, b) {
      forall i | 0 <= i < |ka| ensures p[i] == q[i] {}
    }
    if p == q {
      forall i | 0 <= i < |ka| ensures Unsigned(ta[i], a[i]) == Unsigned(tb[i], b[i]) { assert p[i] == q[i]; }
    }
  }

  //
  // What the accumulated relation denotes
  //

  /** The combinations of the joined relations' rows in which the columns compared by the edges
      applied so far have the same bits. */
  ghost function Answer(g: QueryGraph, data: Data, steps: seq<PlanStep>): seq<Tuple>
    requires TypesGiven(g) && ValidData(g, data) && forall r :: r in RelationsOf(steps) ==> r < RelationCount(g)
  {
    Filter(CrossSeq(ScansOf(g, data, RelationsOf(steps))), SameWords(g, EdgesOf(steps)))
  }

  lemma {:induction false} CrossKeys(g: QueryGraph, data: Data, rs: seq<nat>)
    requires TypesGiven(g) && ValidData(g, data) && forall r :: r in rs ==> r < RelationCount(g)
    ensures AllKeys(CrossSeq(ScansOf(g, data, rs)), AttrsJoined(g, rs))
    decreases |rs|
  {
    if rs != [] {
      var n := |rs| - 1;
      assert rs == rs[..n] + [rs[n]] && rs[n] in rs && forall r :: r in rs[..n] ==> r in rs;
      CrossKeys(g, data, rs[..n]);
      AttrsJoinedSnoc(g, rs[..n], rs[n]);
      assert ScansOf(g, data, rs) == ScansOf(g, data, rs[..n]) + [Scanned(g, data, rs[n])];
      CrossSeqSnoc(ScansOf(g, data, rs[..n]), Scanned(g, data, rs[n]));
      forall t | t in CrossSeq(ScansOf(g, data, rs)) ensures t.Keys == AttrsJoined(g, rs) {
        CrossMembers(CrossSeq(ScansOf(g, data, rs[..n])), Scanned(g, data, rs[n]), t);
      }
    }
  }

  lemma EdgesWithin(g: QueryGraph, steps: seq<PlanStep>)
    requires StepsIn(g, steps) && AllConnect(g, steps)
    ensures forall r :: r in RelationsOf(steps) ==> r < RelationCount(g)
    ensures forall p :: p in EdgesOf(steps) ==>
      PredicateIn(g, p) && p in g.predicates && p.left != p.right && Within(g, p, AttrsJoined(g, RelationsOf(steps)))
    decreases |steps|
  {
    RelationsIn(g, steps);
    if steps != [] {
      var n := |steps| - 1;
      StepsInPrefix(g, steps, n);
      AllConnectPrefix(g, steps, n);
      EdgesWithin(g, steps[..n]);
      RelationsSnoc(steps);
      assert StepConnects(g, steps, n) && steps[n] in steps;
      AttrsJoinedSnoc(g, RelationsOf(steps[..n]), steps[n].relation);
      forall p | p in steps[n].edges ensures Within(g, p, AttrsJoined(g, RelationsOf(steps))) {
        EdgeAttributes(g, RelationsOf(steps[..n]), steps[n].relation, p);
      }
    }
  }

  /** An edge's columns: one on the new relation, one on a joined one. */
  lemma EdgeAttributes(g: QueryGraph, rs: seq<nat>, r: nat, e: Predicate)
    requires (forall q :: q in rs ==> q < RelationCount(g)) && r < RelationCount(g) && r !in rs
    requires PredicateIn(g, e) && Connects(e, r, SetOf(rs))
    ensures RawKey(g, r, e) in AttrsJoined(g, rs) && NewKey(g, r, e) in AttributesOf(g, r)
    ensures {RawKey(g, r, e), NewKey(g, r, e)} == {LeftOf(g, e), RightOf(g, e)}
  {
    AttributeInjective(g, e.left, e.leftColumn, e.left, e.leftColumn);
    AttributeInjective(g, e.right, e.rightColumn, e.right, e.rightColumn);
    var other := if e.left == r then e.right else e.left;
    assert other in rs;
  }

  lemma RawBelow(g: QueryGraph, r: nat, e: Predicate)
    requires PredicateIn(g, e)
    ensures RawKey(g, r, e) < TotalAttributes(g) && NewKey(g, r, e) < TotalAttributes(g)
  {
    AttributeInjective(g, e.left, e.leftColumn, e.left, e.leftColumn);
    AttributeInjective(g, e.right, e.rightColumn, e.right, e.rightColumn);
  }

  /** Comparing the raw keys is applying the step's edges. */
  lemma RawKeysMean(g: QueryGraph, rs: seq<nat>, r: nat, es: seq<Predicate>, x: Tuple, y: Tuple)
    requires (forall q :: q in rs ==> q < RelationCount(g)) && r < RelationCount(g) && r !in rs
    requires EdgesIn(g, es) && forall e :: e in es ==> Connects(e, r, SetOf(rs))
    requires x.Keys == AttrsJoined(g, rs) && y.Keys == AttributesOf(g, r)
    ensures KeyOf(x, RawKeys(g, r, es)) == KeyOf(y, NewKeys(g, r, es)) <==> SatAll(x + y, g, es)
  {
    AttrsJoinedSnoc(g, rs, r);
    forall i | 0 <= i < |es|
      ensures KeyOf(x, RawKeys(g, r, es))[i] == KeyOf(y, NewKeys(g, r, es))[i] <==> Sat(x + y, g, es[i])
    {
      assert es[i] in es;
      EdgeAttributes(g, rs, r, es[i]);
    }
    if SatAll(x + y, g, es) {
      assert forall i :: 0 <= i < |es| ==> es[i] in es && Sat(x + y, g, es[i]);
      assert KeyOf(x, RawKeys(g, r, es)) == KeyOf(y, NewKeys(g, r, es));
    }
    if KeyOf(x, RawKeys(g, r, es)) == KeyOf(y, NewKeys(g, r, es)) {
      forall e | e in es ensures Sat(x + y, g, e) {
        var i :| 0 <= i < |es| && es[i] == e;
      }
    }
  }

  /** Substituting keys through equalities already applied changes no tuple's key. */
  lemma RewritingKeepsKeys(g: QueryGraph, ps: seq<Predicate>, t: FNode, r: nat, es: seq<Predicate>, x: Tuple)
    requires EdgesIn(g, ps) && EdgesIn(g, es) && SatAll(x, g, ps)
    ensures KeyOf(x, RewrittenAll(After(g, ps), t, RawKeys(g, r, es))) == KeyOf(x, RawKeys(g, r, es))
  {
    forall i | 0 <= i < |es|
      ensures KeyOf(x, RewrittenAll(After(g, ps), t, RawKeys(g, r, es)))[i] == KeyOf(x, RawKeys(g, r, es))[i]
    {
      assert es[i] in es;
      var k := RawKey(g, r, es[i]);
      RawBelow(g, r, es[i]);
      ShallowestIs(After(g, ps), t, k);
      if Shallowest(After(g, ps), t, k) != k { ClassesHold(g, ps, x, Shallowest(After(g, ps), t, k), k); }
    }
  }

  lemma AnswerOne(g: QueryGraph, data: Data, s: PlanStep)
    requires TypesGiven(g) && ValidData(g, data) && s.relation < RelationCount(g) && s.edges == []
    ensures RelationsOf([s]) == [s.relation] && Answer(g, data, [s]) == Scanned(g, data, s.relation)
  {
    hide Scanned;
    var b := Scanned(g, data, s.relation);
    assert RelationsOf([s]) == [s.relation] && ScansOf(g, data, [s.relation]) == [b];
    CrossSeqSnoc([], b);
    CrossUnit(b);
    assert [] + [b] == [b];
    NoEdges(s);
    FilterAll(b, SameWords(g, []));
  }

  /** Joining the answer so far with the next relation, by rewritten keys that fit a word, selects
      from their product by the step's edges. */
  lemma JoinSelects(g: QueryGraph, data: Data, rs: seq<nat>, ps: seq<Predicate>, r: nat, es: seq<Predicate>, keys: seq<Attr>,
                    t: FNode)
    requires TypesGiven(g) && ValidData(g, data) && (forall q :: q in rs ==> q < RelationCount(g)) && r < RelationCount(g) && r !in rs
    requires EdgesIn(g, ps) && EdgesIn(g, es) && forall e :: e in es ==> Connects(e, r, SetOf(rs))
    requires keys == RewrittenAll(After(g, ps), t, RawKeys(g, r, es)) && KeysFit(TypesIn(g), keys, NewKeys(g, r, es))
    ensures var sofar, scan := Filter(CrossSeq(ScansOf(g, data, rs)), SameWords(g, ps)), Scanned(g, data, r);
      BagJoin(sofar, scan, keys, NewKeys(g, r, es), ByWords(TypesIn(g), keys, NewKeys(g, r, es)))
      == Filter(Cross(sofar, scan), SameWords(g, es))
  {
    hide After, RewrittenAll, RawKeys, NewKeys, ScansOf, CrossSeq, Connects, Worded, SatAll, Meets, KeysFit, ByWords, TypesIn;
    var all, scan, types := CrossSeq(ScansOf(g, data, rs)), Scanned(g, data, r), TypesIn(g);
    var sofar, new' := Filter(all, SameWords(g, ps)), NewKeys(g, r, es);
    FilterMembers(all, SameWords(g, ps));
    CrossKeys(g, data, rs);
    forall x, y | x in sofar && y in scan
      ensures SameWords(g, es)(x + y) == Meets(ByWords(types, keys, new'), KeyOf(x, keys), KeyOf(y, new'))
    {
      StepCompares(g, rs, ps, r, es, keys, t, x, y);
    }
    JoinIsFilter(sofar, scan, keys, new', ByWords(types, keys, new'), SameWords(g, es));
  }

  /** The packed comparison of one step, on two tuples. */
  lemma StepCompares(g: QueryGraph, rs: seq<nat>, ps: seq<Predicate>, r: nat, es: seq<Predicate>, keys: seq<Attr>, t: FNode,
                     x: Tuple, y: Tuple)
    requires TypesGiven(g) && (forall q :: q in rs ==> q < RelationCount(g)) && r < RelationCount(g) && r !in rs
    requires EdgesIn(g, ps) && EdgesIn(g, es) && forall e :: e in es ==> Connects(e, r, SetOf(rs))
    requires keys == RewrittenAll(After(g, ps), t, RawKeys(g, r, es)) && KeysFit(TypesIn(g), keys, NewKeys(g, r, es))
    requires x.Keys == AttrsJoined(g, rs) && y.Keys == AttributesOf(g, r) && SameWords(g, ps)(x)
    ensures SameWords(g, es)(x + y)
         == Meets(ByWords(TypesIn(g), keys, NewKeys(g, r, es)), KeyOf(x, keys), KeyOf(y, NewKeys(g, r, es)))
  {
    hide After, RewrittenAll, RawKeys, NewKeys, Connects, SatAll, Meets, KeysFit, ByWords, TypesIn, KeyOf, Worded;
    var types := TypesIn(g);
    var u, v := Worded(x, types), Worded(y, types);
    WordedKeys(x, types);
    WordedKeys(y, types);
    WordedPlus(x, y, types);
    MeetsByBits(x, y, types, keys, NewKeys(g, r, es));
    RewritingKeepsKeys(g, ps, t, r, es, u);
    RawKeysMean(g, rs, r, es, u, v);
  }

  /** The bag `a` is the answer so far; joining the next relation by packed keys gives the next
      answer. */
  lemma NextAnswer(g: QueryGraph, data: Data, steps: seq<PlanStep>, s: PlanStep, keys: seq<Attr>, t: FNode, a: seq<Tuple>, b: seq<Tuple>)
    requires TypesGiven(g) && ValidData(g, data)
    requires StepsIn(g, steps) && AllConnect(g, steps) && StepConnects(g, steps + [s], |steps|)
    requires s.relation < RelationCount(g) && EdgesIn(g, s.edges)
    requires (forall r :: r in RelationsOf(steps) ==> r < RelationCount(g))
    requires keys == RewrittenAll(After(g, EdgesOf(steps)), t, RawKeys(g, s.relation, s.edges))
    requires KeysFit(TypesIn(g), keys, NewKeys(g, s.relation, s.edges))
    requires Perm(a, Answer(g, data, steps)) && Perm(b, Scanned(g, data, s.relation))
    ensures forall r :: r in RelationsOf(steps + [s]) ==> r < RelationCount(g)
    ensures Perm(BagJoin(a, b, keys, NewKeys(g, s.relation, s.edges), ByWords(TypesIn(g), keys, NewKeys(g, s.relation, s.edges))),
                 Answer(g, data, steps + [s]))
  {
    hide After, RewrittenAll, RawKeys, NewKeys, CrossSeq, EdgesOf, Within, KeysFit, TypesIn, ByWords, SatAll, Worded, SameWords;
    var r, es, ps, rs := s.relation, s.edges, EdgesOf(steps), RelationsOf(steps);
    var scan, new' := Scanned(g, data, r), NewKeys(g, r, es);
    assert (steps + [s])[..|steps|] == steps;
    assert RelationsOf(steps + [s]) == rs + [r];
    EdgesOfIn(g, steps);
    BagJoinCong(a, Answer(g, data, steps), b, scan, keys, new', ByWords(TypesIn(g), keys, new'));
    JoinSelects(g, data, rs, ps, r, es, keys, t);
    EdgesWithin(g, steps);
    AttrsJoinedSnoc(g, rs, r);
    EdgesSnoc(steps, s);
    SelectedProduct(g, data, rs, ps, r, es);
  }

  /** Selecting by the edges so far moves inside the product with the next relation. */
  lemma SelectedInside(g: QueryGraph, data: Data, rs: seq<nat>, ps: seq<Predicate>, r: nat)
    requires TypesGiven(g) && ValidData(g, data) && (forall q :: q in rs ==> q < RelationCount(g)) && r < RelationCount(g) && r !in rs
    requires forall p :: p in ps ==> Within(g, p, AttrsJoined(g, rs))
    ensures Cross(Filter(CrossSeq(ScansOf(g, data, rs)), SameWords(g, ps)), Scanned(g, data, r))
         == Filter(Cross(CrossSeq(ScansOf(g, data, rs)), Scanned(g, data, r)), SameWords(g, ps))
  {
    hide CrossSeq, Within, SameWords, Scanned, ScansOf;
    var all, scan := CrossSeq(ScansOf(g, data, rs)), Scanned(g, data, r);
    var always: Tuple -> bool := y => true;
    CrossKeys(g, data, rs);
    ScannedKeys(g, data, r);
    AttrsJoinedSnoc(g, rs, r);
    forall x, y | x in all && y in scan ensures SameWords(g, ps)(x + y) == (SameWords(g, ps)(x) && always(y)) {
      OuterOnly(g, ps, AttrsJoined(g, rs), x, y);
    }
    FilterCross(all, scan, SameWords(g, ps), SameWords(g, ps), always);
    FilterAll(scan, always);
  }

  lemma SelectedProduct(g: QueryGraph, data: Data, rs: seq<nat>, ps: seq<Predicate>, r: nat, es: seq<Predicate>)
    requires TypesGiven(g) && ValidData(g, data) && (forall q :: q in rs ==> q < RelationCount(g)) && r < RelationCount(g) && r !in rs
    requires forall p :: p in ps ==> Within(g, p, AttrsJoined(g, rs))
    ensures forall q :: q in rs + [r] ==> q < RelationCount(g)
    ensures Filter(Cross(Filter(CrossSeq(ScansOf(g, data, rs)), SameWords(g, ps)), Scanned(g, data, r)), SameWords(g, es))
         == Filter(CrossSeq(ScansOf(g, data, rs + [r])), SameWords(g, ps + es))
  {
    hide CrossSeq, Within, Worded, SatAll, Scanned, TypesIn;
    var all, scan := CrossSeq(ScansOf(g, data, rs)), Scanned(g, data, r);
    SelectedInside(g, data, rs, ps, r);
    FilterTwice(Cross(all, scan), SameWords(g, ps), SameWords(g, es));
    forall t | t in Cross(all, scan) ensures Filters.Both(SameWords(g, ps), SameWords(g, es))(t) == SameWords(g, ps + es)(t) {
      SatBoth(Worded(t, TypesIn(g)), g, ps, es);
    }
    FilterSame(Cross(all, scan), Filters.Both(SameWords(g, ps), SameWords(g, es)), SameWords(g, ps + es));
    assert ScansOf(g, data, rs + [r]) == ScansOf(g, data, rs) + [scan];
    CrossSeqSnoc(ScansOf(g, data, rs), scan);
  }

  lemma SatBoth(t: Tuple, g: QueryGraph, ps: seq<Predicate>, es: seq<Predicate>)
    ensures SatAll(t, g, ps + es) <==> SatAll(t, g, ps) && SatAll(t, g, es)
  {
    hide Sat;
    assert forall p :: p in ps + es <==> p in ps || p in es;
  }

  lemma SatOuter(u: Tuple, v: Tuple, g: QueryGraph, ps: seq<Predicate>, attrs: set<Attr>)
    requires (forall p :: p in ps ==> Within(g, p, attrs)) && u.Keys == attrs && v.Keys !! attrs
    ensures SatAll(u + v, g, ps) <==> SatAll(u, g, ps)
  {
    hide LeftOf, RightOf;
    forall p | p in ps ensures Sat(u + v, g, p) <==> Sat(u, g, p) { assert Within(g, p, attrs); }
  }

  /** Predicates on one factor's columns do not see the other factor. */
  lemma OuterOnly(g: QueryGraph, ps: seq<Predicate>, attrs: set<Attr>, x: Tuple, y: Tuple)
    requires TypesGiven(g) && (forall p :: p in ps ==> Within(g, p, attrs)) && x.Keys == attrs && y.Keys !! attrs
    ensures SameWords(g, ps)(x + y) == SameWords(g, ps)(x)
  {
    hide TypesIn, Worded, SatAll, Within;
    var types := TypesIn(g);
    WordedPlus(x, y, types);
    WordedKeys(x, types);
    WordedKeys(y, types);
    SatOuter(Worded(x, types), Worded(y, types), g, ps, attrs);
  }

  lemma ScannedKeys(g: QueryGraph, data: Data, r: nat)
    requires TypesGiven(g) && ValidData(g, data) && r < RelationCount(g)
    ensures forall x :: x in Scanned(g, data, r) ==> x.Keys == AttributesOf(g, r)
  {}

  /** The rows the query asks for. */
  ghost function JoinRows(g: QueryGraph, data: Data): seq<Tuple>
    requires TypesGiven(g) && ValidData(g, data)
  {
    FlatJoin(g, data, NonSelf(g.predicates))
  }

  /** The rows the executor finds. */
  ghost function FoundRows(g: QueryGraph, data: Data): seq<Tuple>
    requires TypesGiven(g) && ValidData(g, data)
  {
    WordJoin(g, data, NonSelf(g.predicates))
  }

  //
  // The answer of a whole plan
  //

  lemma {:induction false} CountsOnce(a: seq<nat>, x: nat)
    requires NoDup(a)
    ensures multiset(a)[x] == if x in a then 1 else 0
  {
    if a != [] {
      assert a == [a[0]] + a[1..];
      CountsOnce(a[1..], x);
      if x == a[0] { assert x !in a[1..]; }
    }
  }

  lemma DistinctPerm(a: seq<nat>, b: seq<nat>)
    requires NoDup(a) && NoDup(b) && forall x :: x in a <==> x in b
    ensures Perm(a, b)
  {
    forall x: nat ensures multiset(a)[x] == multiset(b)[x] {
      CountsOnce(a, x);
      CountsOnce(b, x);
    }
  }

  lemma AllRelations(g: QueryGraph, steps: seq<PlanStep>)
    requires StepsIn(g, steps) && AllConnect(g, steps) && |steps| == RelationCount(g)
    ensures Perm(RelationsOf(steps), Relations(g))
  {
    var rs := RelationsOf(steps);
    RelationsIn(g, steps);
    forall i, j | 0 <= i < j < |rs| ensures rs[i] != rs[j] {
      assert StepConnects(g, steps, j);
      DistinctRelations(g, steps, i, j);
    }
    DistinctSize(rs);
    assert SetOf(rs) <= UpTo(RelationCount(g));
    SubsetSize(SetOf(rs), UpTo(RelationCount(g)));
    forall x ensures x in rs <==> x in Relations(g) {
      assert x in rs <==> x in SetOf(rs);
      if x in UpTo(RelationCount(g)) { assert Relations(g)[x] == x; }
    }
    DistinctPerm(rs, Relations(g));
  }

  lemma {:induction false} DistinctSize(rs: seq<nat>)
    requires NoDup(rs)
    ensures |SetOf(rs)| == |rs|
    decreases |rs|
  {
    if rs != [] {
      DistinctSize(rs[1..]);
      assert SetOf(rs) == SetOf(rs[1..]) + {rs[0]};
    }
  }

  /** The answer of a covering plan is what is found by all predicates between two relations. */
  lemma WholeAnswer(g: QueryGraph, data: Data, steps: seq<PlanStep>)
    requires TypesGiven(g) && ValidData(g, data) && StepsIn(g, steps) && AllConnect(g, steps) && Covers(g, steps)
    requires forall r :: r in RelationsOf(steps) ==> r < RelationCount(g)
    ensures Perm(Answer(g, data, steps), FoundRows(g, data))
  {
    hide CrossSeq, Worded, TypesIn, Sat;
    AllRelations(g, steps);
    var a, b := CrossSeq(ScansOf(g, data, RelationsOf(steps))), CrossSeq(ScansOf(g, data, Relations(g)));
    ScansAnyOrder(g, data, RelationsOf(steps), Relations(g));
    FilterPerm(a, b, SameWords(g, EdgesOf(steps)));
    PermMembers(EdgesOf(steps), NonSelf(g.predicates));
    FilterSame(b, SameWords(g, EdgesOf(steps)), SameWords(g, NonSelf(g.predicates)));
  }

  //
  // Where the widths agree, what is found is what was asked for
  //

  lemma ColumnRanged(g: QueryGraph, data: Data, r: nat)
    requires TypesGiven(g) && ValidData(g, data) && r < RelationCount(g)
    ensures AllRanged(Scanned(g, data, r), TypesIn(g))
  {
    forall t | t in Scanned(g, data, r) ensures TupleRanged(t, TypesIn(g)) {
      var i :| 0 <= i < |data[r]| && t == TupleOf(g, r, data[r][i]);
      assert ValidRow(g, r, data[r][i]);
      RowRanged(g, r, data[r][i]);
    }
  }

  lemma {:induction false} ProductRanged(bs: seq<seq<Tuple>>, types: Types)
    requires forall i :: 0 <= i < |bs| ==> AllRanged(bs[i], types)
    ensures AllRanged(CrossSeq(bs), types)
  {
    if bs != [] {
      ProductRanged(bs[1..], types);
      CrossRanged(bs[0], CrossSeq(bs[1..]), types);
    }
  }

  /** Every combination of rows stays within the columns' widths. */
  lemma RowsRanged(g: QueryGraph, data: Data)
    requires TypesGiven(g) && ValidData(g, data)
    ensures AllRanged(CrossSeq(ScansOf(g, data, Relations(g))), TypesIn(g)) && AllRanged(FoundRows(g, data), TypesIn(g))
  {
    hide Scanned, TypesIn, TupleRanged, CrossSeq;
    var scans := ScansOf(g, data, Relations(g));
    forall i | 0 <= i < |scans| ensures AllRanged(scans[i], TypesIn(g)) { ColumnRanged(g, data, Relations(g)[i]); }
    ProductRanged(scans, TypesIn(g));
    FilterMembers(CrossSeq(scans), SameWords(g, NonSelf(g.predicates)));
  }

  /** Two columns of one width have the same bits exactly if they are equal. */
  lemma SameWidthSat(g: QueryGraph, p: Predicate, t: Tuple)
    requires TypesGiven(g) && PredicateIn(g, p) && TupleRanged(t, TypesIn(g))
    requires g.columnTypes[p.left][p.leftColumn] == g.columnTypes[p.right][p.rightColumn]
    ensures Sat(Worded(t, TypesIn(g)), g, p) <==> Sat(t, g, p)
  {
    hide TypesIn;
    TypeOfColumn(g, p.left, p.leftColumn);
    TypeOfColumn(g, p.right, p.rightColumn);
    if LeftOf(g, p) in t && RightOf(g, p) in t {
      UnsignedInjective(g.columnTypes[p.left][p.leftColumn], t[LeftOf(g, p)], t[RightOf(g, p)]);
    }
  }

  /** Where predicates between two relations compare columns of one width, the rows found are the
      rows asked for. */
  lemma FoundAsAsked(g: QueryGraph, data: Data)
    requires ValidGraph(g) && WidthsAgree(g) && ValidData(g, data)
    ensures FoundRows(g, data) == JoinRows(g, data)
  {
    hide CrossSeq, Worded, TypesIn, TupleRanged, Sat;
    var all, ps := CrossSeq(ScansOf(g, data, Relations(g))), NonSelf(g.predicates);
    RowsRanged(g, data);
    NonSelfMembers(g.predicates);
    forall t | t in all ensures SameWords(g, ps)(t) == Satisfies(g, ps)(t) {
      forall p | p in ps ensures Sat(Worded(t, TypesIn(g)), g, p) <==> Sat(t, g, p) {
        assert p in g.predicates && p.left != p.right;
        SameWidthSat(g, p, t);
      }
    }
    FilterSame(all, SameWords(g, ps), Satisfies(g, ps));
  }
}
