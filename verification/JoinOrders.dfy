/** What taking a hypergraph apart decides: whether its edges can be put in an order in which what
    each has in common with those before it is all in one of them. */
module JoinOrders {
  import opened Acyclic

  /** One earlier edge has every vertex that edge `i` shares with earlier ones. */
  ghost predicate AttachedTo(s: seq<Edge>, i: nat, j: nat)
    requires i < |s|
  {
    j < i && forall k, v :: 0 <= k < i && v in s[k] && v in s[i] ==> v in s[j]
  }

  ghost predicate Hangs(s: seq<Edge>, i: nat)
    requires i < |s|
  {
    exists j: nat :: AttachedTo(s, i, j)
  }

  /** Every edge but the first hangs on an earlier one. */
  ghost predicate InJoinOrder(s: seq<Edge>) {
    forall i :: 0 < i < |s| ==> Hangs(s, i)
  }

  /** The edges of the hypergraph can be put in such an order. */
  ghost predicate HasJoinOrder(h: Hyper) {
    exists s: seq<Edge> :: multiset(s) == h && InJoinOrder(s)
  }

  lemma PrefixInOrder(s: seq<Edge>, n: nat)
    requires InJoinOrder(s) && n <= |s|
    ensures InJoinOrder(s[..n])
  {
    forall i | 0 < i < n ensures Hangs(s[..n], i) {
      assert Hangs(s, i);
      var j: nat :| AttachedTo(s, i, j);
      assert AttachedTo(s[..n], i, j);
    }
  }

  lemma SnocInOrder(s: seq<Edge>, e: Edge, j: nat)
    requires InJoinOrder(s) && (s != [] ==> AttachedTo(s + [e], |s|, j))
    ensures InJoinOrder(s + [e])
  {
    var more := s + [e];
    forall i | 0 < i < |more| ensures Hangs(more, i) {
      if i < |s| {
        assert Hangs(s, i);
        var k: nat :| AttachedTo(s, i, k);
        assert AttachedTo(more, i, k);
      }
    }
  }

  //
  // An order empties
  //

  lemma LastOut(rest: seq<Edge>, e: Edge)
    ensures multiset(rest + [e]) - multiset{e} == multiset(rest)
  {}

  /** The last edge of an order can be taken apart. */
  lemma {:induction false} OrderEmpties(s: seq<Edge>)
    requires InJoinOrder(s)
    ensures Emptied(multiset(s))
    decreases |s|, if s == [] then 0 else |s[|s| - 1]|
  {
    hide Removal, Emptied, EmptiedIn, InJoinOrder;
    if s == [] {
      NothingEmptied();
      assert multiset(s) == multiset{};
    } else {
      var n := |s| - 1;
      var rest, e := s[..n], s[n];
      assert s == rest + [e];
      PrefixInOrder(s, n);
      LastOut(rest, e);
      if v :| v in e && forall k :: 0 <= k < n ==> v !in rest[k] {
        StripLast(rest, e, v);
        OrderEmpties(rest + [e - {v}]);
        RemovalSame(multiset(s), multiset(rest + [e - {v}]));
      } else {
        DropLast(rest, e);
        OrderEmpties(rest);
        RemovalSame(multiset(s), multiset(rest));
      }
    }
  }

  lemma NothingEmptied()
    ensures Emptied(multiset{})
  {
    assert EmptiedIn(multiset{}, 0);
  }

  lemma StripLast(rest: seq<Edge>, e: Edge, v: nat)
    requires InJoinOrder(rest + [e]) && InJoinOrder(rest) && v in e && forall k :: 0 <= k < |rest| ==> v !in rest[k]
    ensures Removal(multiset(rest + [e]), multiset(rest + [e - {v}])) && InJoinOrder(rest + [e - {v}])
  {
    var h := multiset(rest + [e]);
    LastOut(rest, e);
    assert Lone(h, e, v);
    assert WithoutVertex(h, e, v) == multiset(rest + [e - {v}]);
    if rest != [] {
      assert Hangs(rest + [e], |rest|);
      var j: nat :| AttachedTo(rest + [e], |rest|, j);
      var s, t := rest + [e], rest + [e - {v}];
      forall k, u | 0 <= k < |rest| && u in t[k] && u in t[|rest|] ensures u in t[j] { assert u in s[k] && u in s[|rest|] && u in s[j]; }
      assert AttachedTo(t, |rest|, j);
      SnocInOrder(rest, e - {v}, j);
    } else {
      SnocInOrder(rest, e - {v}, 0);
    }
  }

  lemma DropLast(rest: seq<Edge>, e: Edge)
    requires InJoinOrder(rest + [e]) && forall v :: v in e ==> exists k :: 0 <= k < |rest| && v in rest[k]
    ensures Removal(multiset(rest + [e]), multiset(rest))
  {
    var h, s := multiset(rest + [e]), rest + [e];
    LastOut(rest, e);
    assert WithoutEdge(h, e) == multiset(rest);
    if e != {} {
      var v :| v in e;
      assert Hangs(s, |rest|);
      var j: nat :| AttachedTo(s, |rest|, j);
      forall u | u in e ensures u in rest[j] {
        var k :| 0 <= k < |rest| && u in rest[k];
        assert u in s[k] && u in s[|rest|];
      }
      assert rest[j] in multiset(rest) && e <= rest[j];
    }
    assert Droppable(h, e);
  }

  //
  // What can be emptied has an order
  //

  lemma {:induction false} EmptiedOrders(h: Hyper, n: nat) returns (s: seq<Edge>)
    requires EmptiedIn(h, n)
    ensures multiset(s) == h && InJoinOrder(s)
    decreases n
  {
    hide InJoinOrder, Removal;
    if n == 0 {
      s := [];
      NothingInOrder();
    } else {
      var k :| Removal(h, k) && EmptiedIn(k, n - 1);
      var t := EmptiedOrders(k, n - 1);
      s := PutBack(h, k, t);
    }
  }

  lemma PutBack(h: Hyper, k: Hyper, t: seq<Edge>) returns (s: seq<Edge>)
    requires Removal(h, k) && multiset(t) == k && InJoinOrder(t)
    ensures multiset(s) == h && InJoinOrder(s)
  {
    hide InJoinOrder, Lone, Droppable, WithoutVertex, WithoutEdge;
    if e, v :| Lone(h, e, v) && k == WithoutVertex(h, e, v) {
      s := PutVertex(h, t, e, v);
    } else {
      var e :| Droppable(h, e) && k == WithoutEdge(h, e);
      s := t + [e];
      PutLast(h, t, e);
    }
  }

  lemma NothingInOrder()
    ensures InJoinOrder([])
  {}

  /** A vertex of one edge only, put back. */
  lemma PutVertex(h: Hyper, t: seq<Edge>, e: Edge, v: nat) returns (s: seq<Edge>)
    requires Lone(h, e, v) && multiset(t) == WithoutVertex(h, e, v) && InJoinOrder(t)
    ensures multiset(s) == h && InJoinOrder(s)
  {
    assert e - {v} in multiset(t);
    var i: nat :| i < |t| && t[i] == e - {v};
    s := t[i := e];
    assert multiset(s) == multiset(t) - multiset{e - {v}} + multiset{e};
    OnlyThere(h, t, e, v, i);
    VertexInOrder(t, e, v, i);
  }

  lemma OnlyThere(h: Hyper, t: seq<Edge>, e: Edge, v: nat, i: nat)
    requires Lone(h, e, v) && multiset(t) == WithoutVertex(h, e, v) && i < |t| && t[i] == e - {v}
    ensures forall j :: 0 <= j < |t| && j != i ==> v !in t[j]
  {
    assert multiset(t) - multiset{e - {v}} == h - multiset{e};
    forall j | 0 <= j < |t| && j != i ensures v !in t[j] { PlaceOther(t, i, j); }
  }

  lemma VertexInOrder(t: seq<Edge>, e: Edge, v: nat, i: nat)
    requires InJoinOrder(t) && i < |t| && t[i] == e - {v} && forall j :: 0 <= j < |t| && j != i ==> v !in t[j]
    ensures InJoinOrder(t[i := e])
  {
    var s := t[i := e];
    forall p | 0 < p < |s| ensures Hangs(s, p) {
      assert Hangs(t, p);
      var j: nat :| AttachedTo(t, p, j);
      forall k, u | 0 <= k < p && u in s[k] && u in s[p] ensures u in s[j] { assert u != v && u in t[k] && u in t[p]; }
      assert AttachedTo(s, p, j);
    }
  }

  /** A dropped edge, put back at the end. */
  lemma PutLast(h: Hyper, t: seq<Edge>, e: Edge)
    requires Droppable(h, e) && multiset(t) == WithoutEdge(h, e) && InJoinOrder(t)
    ensures multiset(t + [e]) == h && InJoinOrder(t + [e])
  {
    var j: nat := 0;
    if t != [] && e != {} {
      var f :| f in h - multiset{e} && e <= f;
      j :| 0 <= j < |t| && t[j] == f;
    }
    if t != [] { assert AttachedTo(t + [e], |t|, j); }
    SnocInOrder(t, e, j);
  }

  /** A hypergraph can be emptied by removals exactly if its edges have a join order. */
  lemma EmptiedIffOrdered(h: Hyper)
    ensures Emptied(h) <==> HasJoinOrder(h)
  {
    hide EmptiedIn, InJoinOrder;
    if Emptied(h) {
      var n :| EmptiedIn(h, n);
      var s := EmptiedOrders(h, n);
    }
    if HasJoinOrder(h) {
      var s: seq<Edge> :| multiset(s) == h && InJoinOrder(s);
      OrderEmpties(s);
    }
  }

  //
  // The smallest cyclic hypergraph, and one that is not
  //

  /** Three edges that pairwise share a vertex none of them all have are in no join order. */
  lemma TriangleStays(a: nat, b: nat, c: nat)
    requires a != b && b != c && a != c
    ensures !Emptied(multiset{{a, b}, {b, c}, {a, c}})
  {
    hide Emptied, InJoinOrder;
    var h := multiset{{a, b}, {b, c}, {a, c}};
    EmptiedIffOrdered(h);
    forall s: seq<Edge> | multiset(s) == h ensures !InJoinOrder(s) { NoOrder(s, a, b, c); }
  }

  lemma NoOrder(s: seq<Edge>, a: nat, b: nat, c: nat)
    requires a != b && b != c && a != c && multiset(s) == multiset{{a, b}, {b, c}, {a, c}}
    ensures !InJoinOrder(s)
  {
    assert |s| == |multiset(s)|;
    Distinct(s, a, b, c);
  }

  lemma Distinct(s: seq<Edge>, a: nat, b: nat, c: nat)
    requires a != b && b != c && a != c && |s| == 3 && multiset(s) == multiset{{a, b}, {b, c}, {a, c}}
    ensures !Hangs(s, 2)
  {
    assert s == [s[0], s[1], s[2]];
    assert multiset(s) == multiset{s[0], s[1], s[2]};
    assert s[0] in multiset(s) && s[1] in multiset(s) && s[2] in multiset(s);
    Differ(a, b, c);
    assert s[0] != s[1] && s[1] != s[2] && s[0] != s[2];
    if j: nat :| AttachedTo(s, 2, j) {
      forall v | v in s[2] ensures v in s[j] { assert v in s[0] || v in s[1]; }
    }
  }

  lemma Differ(a: nat, b: nat, c: nat)
    requires a != b && b != c && a != c
    ensures {a, b} != {b, c} && {b, c} != {a, c} && {a, b} != {a, c}
    ensures var h := multiset{{a, b}, {b, c}, {a, c}}; h[{a, b}] == h[{b, c}] == h[{a, c}] == 1
  {
    assert c !in {a, b} && c in {b, c} && c in {a, c} && b in {a, b} && b !in {a, c} && b in {b, c};
  }

  /** A chain is taken apart. */
  lemma ChainGoes(a: nat, b: nat)
    ensures Emptied(multiset{{a}, {a, b}, {b}})
  {
    var s := [{a}, {a, b}, {b}];
    assert multiset(s) == multiset{{a}, {a, b}, {b}};
    assert AttachedTo(s, 1, 0) && AttachedTo(s, 2, 1);
    assert Hangs(s, 1) && Hangs(s, 2) && InJoinOrder(s);
    EmptiedIffOrdered(multiset(s));
  }
}
