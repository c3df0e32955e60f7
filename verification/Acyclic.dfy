/** Whether a join graph is acyclic, by taking its hypergraph apart. */
module Acyclic {
  import opened Bags
  import opened Graphs
  import opened Equalities

  type Edge = set<nat>

  /** The hyperedges, each as often as some relation has it. */
  type Hyper = multiset<Edge>

  //
  // Single removals
  //

  /** No other edge has the vertex. */
  ghost predicate Lone(h: Hyper, e: Edge, v: nat) {
    e in h && v in e && forall f :: f in h - multiset{e} ==> v !in f
  }

  /** Another edge has all of the edge's vertices. */
  ghost predicate Inside(h: Hyper, e: Edge) {
    e in h && exists f :: f in h - multiset{e} && e <= f
  }

  function WithoutVertex(h: Hyper, e: Edge, v: nat): Hyper {
    h - multiset{e} + multiset{e - {v}}
  }

  function WithoutEdge(h: Hyper, e: Edge): Hyper {
    h - multiset{e}
  }

  /** One removal: a vertex of one edge only, an edge inside another, or an empty edge. */
  ghost predicate Removal(h: Hyper, k: Hyper) {
    || (exists e, v :: Lone(h, e, v) && k == WithoutVertex(h, e, v))
    || (exists e :: Droppable(h, e) && k == WithoutEdge(h, e))
  }

  ghost predicate Droppable(h: Hyper, e: Edge) {
    Inside(h, e) || (e in h && e == {})
  }

  /** `n` removals leave nothing. */
  ghost predicate EmptiedIn(h: Hyper, n: nat)
    decreases n
  {
    if n == 0 then h == multiset{} else exists k :: Removal(h, k) && EmptiedIn(k, n - 1)
  }

  ghost predicate Emptied(h: Hyper) {
    exists n :: EmptiedIn(h, n)
  }

  ghost predicate Stuck(h: Hyper) {
    forall k :: !Removal(h, k)
  }

  //
  // Two removals from one hypergraph meet again
  //

  lemma LoneStays(h: Hyper, e: Edge, v: nat, f: Edge, w: nat)
    requires Lone(h, e, v) && Lone(h, f, w) && (e != f || v != w)
    ensures e == f ==> Lone(WithoutVertex(h, e, v), e - {v}, w)
    ensures e != f ==> Lone(WithoutVertex(h, e, v), f, w)
  {
    var k := WithoutVertex(h, e, v);
    if e == f {
      forall x | x in k - multiset{e - {v}} ensures w !in x { assert x in h - multiset{e}; }
    } else {
      assert f in h - multiset{e} && e in h - multiset{f};
      forall x | x in k - multiset{f} ensures w !in x {
        if x != e - {v} { assert x in h - multiset{f}; }
      }
    }
  }

  lemma SwapVertices(h: Hyper, e: Edge, v: nat, f: Edge, w: nat)
    requires e in h && f in h && e != f
    ensures WithoutVertex(WithoutVertex(h, e, v), f, w) == WithoutVertex(WithoutVertex(h, f, w), e, v)
  {}

  lemma SwapInEdge(h: Hyper, e: Edge, v: nat, w: nat)
    requires e in h
    ensures WithoutVertex(WithoutVertex(h, e, v), e - {v}, w) == WithoutVertex(WithoutVertex(h, e, w), e - {w}, v)
  {
    assert e - {v} - {w} == e - {w} - {v};
  }

  lemma TwoVertices(h: Hyper, e: Edge, v: nat, f: Edge, w: nat)
    requires Lone(h, e, v) && Lone(h, f, w) && (e != f || v != w)
    ensures exists m :: Removal(WithoutVertex(h, e, v), m) && Removal(WithoutVertex(h, f, w), m)
  {
    LoneStays(h, e, v, f, w);
    LoneStays(h, f, w, e, v);
    hide Lone, WithoutVertex;
    var k, l := WithoutVertex(h, e, v), WithoutVertex(h, f, w);
    LoneIn(h, e, v);
    LoneIn(h, f, w);
    if e == f {
      SwapInEdge(h, e, v, w);
      assert Removal(k, WithoutVertex(k, e - {v}, w)) && Removal(l, WithoutVertex(l, e - {w}, v));
    } else {
      SwapVertices(h, e, v, f, w);
      assert Removal(k, WithoutVertex(k, f, w)) && Removal(l, WithoutVertex(l, e, v));
    }
  }

  lemma LoneIn(h: Hyper, e: Edge, v: nat)
    requires Lone(h, e, v)
    ensures e in h && !Inside(h, e) && e != {}
  {
    forall b | b in h - multiset{e} ensures !(e <= b) { assert v in e && v !in b; }
  }

  lemma LoneAfterEdge(h: Hyper, e: Edge, v: nat, a: Edge)
    requires Lone(h, e, v) && a in h && a != e
    ensures Lone(WithoutEdge(h, a), e, v)
  {
    forall x | x in WithoutEdge(h, a) - multiset{e} ensures v !in x { assert x in h - multiset{e}; }
  }

  lemma DroppableAfterVertex(h: Hyper, e: Edge, v: nat, a: Edge)
    requires Lone(h, e, v) && Droppable(h, a) && a != e
    ensures Droppable(WithoutVertex(h, e, v), a)
  {
    var k := WithoutVertex(h, e, v);
    if Inside(h, a) {
      var b :| b in h - multiset{a} && a <= b;
      assert v !in a by { assert a in h - multiset{e}; }
      if b == e {
        assert e - {v} in k - multiset{a} && a <= e - {v};
      } else {
        assert b in k - multiset{a};
      }
    }
  }

  lemma SwapVertexEdge(h: Hyper, e: Edge, v: nat, a: Edge)
    requires e in h && a in h && a != e
    ensures WithoutEdge(WithoutVertex(h, e, v), a) == WithoutVertex(WithoutEdge(h, a), e, v)
  {}

  lemma VertexAndEdge(h: Hyper, e: Edge, v: nat, a: Edge)
    requires Lone(h, e, v) && Droppable(h, a)
    ensures exists m :: Removal(WithoutVertex(h, e, v), m) && Removal(WithoutEdge(h, a), m)
  {
    LoneIn(h, e, v);
    LoneAfterEdge(h, e, v, a);
    DroppableAfterVertex(h, e, v, a);
    SwapVertexEdge(h, e, v, a);
    hide Lone, WithoutVertex, WithoutEdge;
    var k, l := WithoutVertex(h, e, v), WithoutEdge(h, a);
    assert Removal(k, WithoutEdge(k, a)) && Removal(l, WithoutVertex(l, e, v));
  }

  lemma TwoEdges(h: Hyper, a: Edge, b: Edge)
    requires Droppable(h, a) && Droppable(h, b) && a != b
    ensures exists m :: Removal(WithoutEdge(h, a), m) && Removal(WithoutEdge(h, b), m)
  {
    StillDroppable(h, a, b);
    StillDroppable(h, b, a);
    assert WithoutEdge(WithoutEdge(h, a), b) == WithoutEdge(WithoutEdge(h, b), a);
    assert Removal(WithoutEdge(h, a), WithoutEdge(WithoutEdge(h, a), b));
    assert Removal(WithoutEdge(h, b), WithoutEdge(WithoutEdge(h, b), a));
  }

  /** What was inside a dropped edge is inside whatever that one was inside. */
  lemma StillDroppable(h: Hyper, a: Edge, b: Edge)
    requires Droppable(h, a) && Droppable(h, b) && a != b
    ensures Droppable(WithoutEdge(h, a), b)
  {
    var k := WithoutEdge(h, a);
    assert b in k;
    if b != {} {
      var f :| f in h - multiset{b} && b <= f;
      if f in k - multiset{b} {
      } else {
        assert f == a;
        var g :| g in h - multiset{a} && a <= g;
        assert g != b;
        assert g in k - multiset{b} && b <= g;
      }
    }
  }

  /** Different results of one removal each reach a common hypergraph by one more. */
  lemma Diamond(h: Hyper, k: Hyper, l: Hyper)
    requires Removal(h, k) && Removal(h, l) && k != l
    ensures exists m :: Removal(k, m) && Removal(l, m)
  {
    if e, v :| Lone(h, e, v) && k == WithoutVertex(h, e, v) {
      if f, w :| Lone(h, f, w) && l == WithoutVertex(h, f, w) {
        TwoVertices(h, e, v, f, w);
      } else {
        var b :| Droppable(h, b) && l == WithoutEdge(h, b);
        VertexAndEdge(h, e, v, b);
      }
    } else {
      var a :| Droppable(h, a) && k == WithoutEdge(h, a);
      if f, w :| Lone(h, f, w) && l == WithoutVertex(h, f, w) {
        VertexAndEdge(h, f, w, a);
      } else {
        var b :| Droppable(h, b) && l == WithoutEdge(h, b);
        TwoEdges(h, a, b);
      }
    }
  }

  //
  // The order does not matter
  //

  /** A removal loses nothing: what could be emptied before can be emptied after, in one less. */
  lemma {:induction false} RemovalKeeps(h: Hyper, n: nat, k: Hyper)
    requires EmptiedIn(h, n) && Removal(h, k)
    ensures n > 0 && EmptiedIn(k, n - 1)
    decreases n
  {
    hide Removal;
    if n == 0 {
      NothingToRemove(k);
    } else {
      var l :| Removal(h, l) && EmptiedIn(l, n - 1);
      if l != k {
        Diamond(h, k, l);
        var m :| Removal(k, m) && Removal(l, m);
        RemovalKeeps(l, n - 1, m);
      }
    }
  }

  lemma NothingToRemove(k: Hyper)
    ensures !Removal(multiset{}, k)
  {}

  /** A removal changes nothing about whether the hypergraph can be emptied. */
  lemma RemovalSame(h: Hyper, k: Hyper)
    requires Removal(h, k)
    ensures Emptied(h) <==> Emptied(k)
  {
    hide Removal;
    if Emptied(h) {
      var n :| EmptiedIn(h, n);
      RemovalKeeps(h, n, k);
    }
    if Emptied(k) {
      var n: nat :| EmptiedIn(k, n);
      assert EmptiedIn(h, n + 1);
    }
  }

  ghost predicate Removals(run: seq<Hyper>) {
    run != [] && forall i: nat :: i + 1 < |run| ==> RemovalAt(run, i)
  }

  ghost predicate RemovalAt(run: seq<Hyper>, i: nat)
    requires i + 1 < |run|
  {
    Removal(run[i], run[i + 1])
  }

  lemma {:induction false} RunSame(run: seq<Hyper>, i: nat)
    requires Removals(run) && i < |run|
    ensures Emptied(run[0]) <==> Emptied(run[i])
  {
    hide Removal, Emptied;
    if i > 0 {
      RunSame(run, i - 1);
      assert RemovalAt(run, i - 1);
      RemovalSame(run[i - 1], run[i]);
    }
  }

  lemma StuckIs(h: Hyper)
    requires Stuck(h)
    ensures Emptied(h) <==> h == multiset{}
  {
    if Emptied(h) {
      var n :| EmptiedIn(h, n);
    } else if h == multiset{} {
      assert EmptiedIn(h, 0);
    }
  }

  /** Any two ways of removing until nothing can be removed agree on whether anything is left. */
  lemma AnyMaximalAgrees(one: seq<Hyper>, other: seq<Hyper>)
    requires Removals(one) && Removals(other) && one[0] == other[0] && Stuck(one[|one| - 1]) && Stuck(other[|other| - 1])
    ensures one[|one| - 1] == multiset{} <==> other[|other| - 1] == multiset{}
  {
    hide Removal, Emptied, Stuck;
    RunSame(one, |one| - 1);
    RunSame(other, |other| - 1);
    StuckIs(one[|one| - 1]);
    StuckIs(other[|other| - 1]);
  }

  //
  // The loop
  //

  ghost predicate Same(h: Hyper, k: Hyper) {
    Emptied(h) <==> Emptied(k)
  }

  /** How many edges have the vertex. */
  function Occurrences(live: seq<Edge>, v: nat): nat {
    if live == [] then 0 else (if v in live[0] then 1 else 0) + Occurrences(live[1..], v)
  }

  lemma {:induction false} OccursNowhere(live: seq<Edge>, v: nat)
    ensures Occurrences(live, v) == 0 <==> forall i :: 0 <= i < |live| ==> v !in live[i]
  {
    if live != [] {
      OccursNowhere(live[1..], v);
      assert forall i :: 0 < i < |live| ==> live[i] == live[1..][i - 1];
    }
  }

  lemma {:induction false} OccursOnce(live: seq<Edge>, v: nat, i: nat)
    requires i < |live| && v in live[i]
    ensures Occurrences(live, v) == 1 <==> forall j :: 0 <= j < |live| && j != i ==> v !in live[j]
  {
    var rest := live[1..];
    assert forall j :: 0 < j < |live| ==> live[j] == rest[j - 1];
    if i == 0 {
      OccursNowhere(rest, v);
    } else {
      OccursOnce(rest, v, i - 1);
      OccursNowhere(rest, v);
      if v in live[0] {
        assert Occurrences(rest, v) != 0;
      } else {
        assert (forall j :: 0 <= j < |live| && j != i ==> v !in live[j]) <==> forall j :: 0 <= j < |rest| && j != i - 1 ==> v !in rest[j];
      }
    }
  }

  /** Another edge of the list: at another place. */
  lemma OtherPlace(live: seq<Edge>, i: nat, f: Edge) returns (j: nat)
    requires i < |live| && f in multiset(live) - multiset{live[i]}
    ensures j < |live| && j != i && live[j] == f
  {
    MultisetWithout(live, i);
    var rest := live[..i] + live[i + 1..];
    assert f in multiset(rest);
    assert f in rest;
    var k: nat :| k < |rest| && rest[k] == f;
    j := if k < i then k else k + 1;
  }

  lemma PlaceOther(live: seq<Edge>, i: nat, j: nat)
    requires i < |live| && j < |live| && i != j
    ensures live[j] in multiset(live) - multiset{live[i]}
  {
    MultisetWithout(live, i);
    var rest := live[..i] + live[i + 1..];
    assert live[j] in rest by { assert rest[if j < i then j else j - 1] == live[j]; }
  }

  lemma PutEdge(live: seq<Edge>, i: nat, e: Edge)
    requires i < |live|
    ensures multiset(live[i := e]) == multiset(live) - multiset{live[i]} + multiset{e}
  {}

  /** Taking a vertex that occurs once out of its edge. */
  lemma StripOne(before: seq<Edge>, out: seq<Edge>, i: nat, v: nat)
    requires |out| == |before| && i < |out| && v in out[i] && Occurrences(before, v) == 1
    requires forall j :: 0 <= j < |out| ==> out[j] <= before[j]
    ensures Same(multiset(out), multiset(out[i := out[i] - {v}]))
  {
    hide Emptied, Removal;
    OccursOnce(before, v, i);
    forall f | f in multiset(out) - multiset{out[i]} ensures v !in f {
      var j := OtherPlace(out, i, f);
    }
    PutEdge(out, i, out[i] - {v});
    assert Lone(multiset(out), out[i], v);
    LoneRemoval(multiset(out), out[i], v);
    RemovalSame(multiset(out), WithoutVertex(multiset(out), out[i], v));
  }

  lemma LoneRemoval(h: Hyper, e: Edge, v: nat)
    requires Lone(h, e, v)
    ensures Removal(h, WithoutVertex(h, e, v))
  {}

  lemma EdgeRemoval(h: Hyper, e: Edge)
    requires Droppable(h, e)
    ensures Removal(h, WithoutEdge(h, e))
  {}

  /** Takes every vertex of one edge only out of its edge; the occurrences are counted once,
      before anything is removed. */
  method StripLone(live: seq<Edge>) returns (out: seq<Edge>, changed: bool)
    ensures Same(multiset(live), multiset(out)) && |out| == |live| && forall i :: 0 <= i < |out| ==> out[i] <= live[i]
    ensures changed <==> out != live
    ensures !changed ==> forall i, v :: 0 <= i < |live| && v in live[i] ==> Occurrences(live, v) != 1
  {
    hide Same, Occurrences;
    out, changed := live, false;
    SameSelf(multiset(live));
    for i := 0 to |live|
      invariant |out| == |live| && Same(multiset(live), multiset(out)) && (changed <==> out != live)
      invariant forall j :: 0 <= j < |out| ==> out[j] <= live[j]
      invariant forall j :: i <= j < |out| ==> out[j] == live[j]
      invariant !changed ==> forall j, v :: 0 <= j < i && v in live[j] ==> Occurrences(live, v) != 1
    {
      var left := live[i];
      while left != {}
        invariant |out| == |live| && Same(multiset(live), multiset(out)) && (changed <==> out != live) && left <= out[i]
        invariant forall j :: 0 <= j < |out| ==> out[j] <= live[j]
        invariant forall j :: i < j < |out| ==> out[j] == live[j]
        invariant !changed ==> forall j, v :: 0 <= j < i && v in live[j] ==> Occurrences(live, v) != 1
        invariant !changed ==> forall v :: v in live[i] - left ==> Occurrences(live, v) != 1
        decreases |left|
      {
        var v :| v in left;
        if Occurrences(live, v) == 1 {
          StripOne(live, out, i, v);
          SameTrans(multiset(live), multiset(out), multiset(out[i := out[i] - {v}]));
          out, changed := out[i := out[i] - {v}], true;
          assert v !in out[i];
        }
        left := left - {v};
      }
    }
  }

  lemma SameSelf(h: Hyper)
    ensures Same(h, h)
  {}

  lemma SameTrans(h: Hyper, k: Hyper, l: Hyper)
    requires Same(h, k) && Same(k, l)
    ensures Same(h, l)
  {}

  /** How much there is to remove. */
  function Total(live: seq<Edge>): nat {
    if live == [] then 0 else |live[0]| + 1 + Total(live[1..])
  }

  lemma {:induction false} TotalLess(live: seq<Edge>, out: seq<Edge>)
    requires |out| == |live| && forall i :: 0 <= i < |out| ==> out[i] <= live[i]
    ensures Total(out) <= Total(live) && (out != live ==> Total(out) < Total(live))
  {
    if live != [] {
      assert forall i :: 0 <= i < |out[1..]| ==> out[1..][i] == out[i + 1] && live[1..][i] == live[i + 1];
      TotalLess(live[1..], out[1..]);
      SmallerSet(out[0], live[0]);
      assert out == [out[0]] + out[1..] && live == [live[0]] + live[1..];
    }
  }

  lemma SmallerSet(a: Edge, b: Edge)
    requires a <= b
    ensures |a| <= |b| && (a != b ==> |a| < |b|)
  {
    assert b == a + (b - a);
  }

  lemma {:induction false} TotalWithout(live: seq<Edge>, i: nat)
    requires i < |live|
    ensures Total(live[..i] + live[i + 1..]) < Total(live)
  {
    if i == 0 {
      assert live[..0] + live[1..] == live[1..];
    } else {
      assert (live[..i] + live[i + 1..])[1..] == live[1..][..i - 1] + live[1..][i..];
      TotalWithout(live[1..], i - 1);
    }
  }

  lemma DropSame(live: seq<Edge>, i: nat)
    requires i < |live| && Droppable(multiset(live), live[i])
    ensures Same(multiset(live), multiset(live[..i] + live[i + 1..]))
  {
    hide Emptied, Removal;
    MultisetWithout(live, i);
    EdgeRemoval(multiset(live), live[i]);
    RemovalSame(multiset(live), WithoutEdge(multiset(live), live[i]));
  }

  /** Drops the edges without vertices. */
  method DropEmpty(live: seq<Edge>) returns (out: seq<Edge>)
    ensures Same(multiset(live), multiset(out)) && {} !in out && Total(out) <= Total(live)
    ensures {} !in live ==> out == live
  {
    hide Same, Total;
    out := live;
    SameSelf(multiset(live));
    var i: nat := 0;
    while i < |out|
      invariant i <= |out| && Same(multiset(live), multiset(out)) && {} !in out[..i] && Total(out) <= Total(live)
      invariant {} !in live ==> out == live
      decreases |out| - i
    {
      if out[i] == {} {
        DropSame(out, i);
        TotalWithout(out, i);
        SameTrans(multiset(live), multiset(out), multiset(out[..i] + out[i + 1..]));
        assert out[i] in out;
        out := out[..i] + out[i + 1..];
      } else {
        i := i + 1;
      }
    }
    assert out[..i] == out;
  }

  /** Drops the first edge that lies inside another. */
  method DropInside(live: seq<Edge>) returns (out: seq<Edge>, changed: bool)
    requires {} !in live
    ensures Same(multiset(live), multiset(out)) && {} !in out
    ensures if changed then Total(out) < Total(live)
            else out == live && forall i, j :: 0 <= i < |live| && 0 <= j < |live| && i != j ==> !(live[i] <= live[j])
  {
    hide Same, Total;
    SameSelf(multiset(live));
    for i := 0 to |live|
      invariant forall a, b :: 0 <= a < i && 0 <= b < |live| && a != b ==> !(live[a] <= live[b])
    {
      for j := 0 to |live|
        invariant forall b :: 0 <= b < j && i != b ==> !(live[i] <= live[b])
      {
        if i != j && live[i] <= live[j] {
          PlaceOther(live, i, j);
          assert Inside(multiset(live), live[i]);
          DropSame(live, i);
          TotalWithout(live, i);
          return live[..i] + live[i + 1..], true;
        }
      }
    }
    return live, false;
  }

  /** Nothing occurs once, nothing lies inside another edge, nothing is empty. */
  lemma NothingLeftToDo(live: seq<Edge>)
    requires {} !in live && forall i, v :: 0 <= i < |live| && v in live[i] ==> Occurrences(live, v) != 1
    requires forall i, j :: 0 <= i < |live| && 0 <= j < |live| && i != j ==> !(live[i] <= live[j])
    ensures Stuck(multiset(live))
  {
    hide Lone, Droppable, Occurrences;
    forall e, v ensures !Lone(multiset(live), e, v) { NoneLone(live, e, v); }
    forall e ensures !Droppable(multiset(live), e) { NoneDroppable(live, e); }
  }

  lemma NoneLone(live: seq<Edge>, e: Edge, v: nat)
    requires forall i, v :: 0 <= i < |live| && v in live[i] ==> Occurrences(live, v) != 1
    ensures !Lone(multiset(live), e, v)
  {
    if Lone(multiset(live), e, v) { LoneOccurs(live, e, v); }
  }

  lemma NoneDroppable(live: seq<Edge>, e: Edge)
    requires {} !in live && forall i, j :: 0 <= i < |live| && 0 <= j < |live| && i != j ==> !(live[i] <= live[j])
    ensures !Droppable(multiset(live), e)
  {
    if Inside(multiset(live), e) {
      assert e in live;
      var i: nat :| i < |live| && live[i] == e;
      var f :| f in multiset(live) - multiset{e} && e <= f;
      var j := OtherPlace(live, i, f);
    }
  }

  lemma LoneOccurs(live: seq<Edge>, e: Edge, v: nat)
    requires Lone(multiset(live), e, v)
    ensures exists i :: 0 <= i < |live| && v in live[i] && Occurrences(live, v) == 1
  {
    assert e in live;
    var i: nat :| i < |live| && live[i] == e;
    OccursOnce(live, v, i);
    forall j | 0 <= j < |live| && j != i ensures v !in live[j] { PlaceOther(live, i, j); }
  }

  //
  // Join graphs
  //

  /** The classes of the columns these predicates name on a relation. */
  function EdgeOf(g: QueryGraph, roots: Roots, ps: seq<Predicate>, r: nat): Edge
    requires |roots| == TotalAttributes(g)
  {
    if ps == [] then {}
    else
      var p, before := ps[|ps| - 1], EdgeOf(g, roots, ps[..|ps| - 1], r);
      before
        + (if p.left == r && r < RelationCount(g) && LeftOf(g, p) < |roots| then {roots[LeftOf(g, p)]} else {})
        + (if p.right == r && r < RelationCount(g) && RightOf(g, p) < |roots| then {roots[RightOf(g, p)]} else {})
  }

  function EdgesOf(g: QueryGraph, roots: Roots, ps: seq<Predicate>): (es: seq<Edge>)
    requires |roots| == TotalAttributes(g)
    ensures |es| == RelationCount(g) && forall r :: 0 <= r < |es| ==> es[r] == EdgeOf(g, roots, ps, r)
  {
    seq(RelationCount(g), r requires 0 <= r < RelationCount(g) => EdgeOf(g, roots, ps, r))
  }

  function NonEmpty(es: seq<Edge>): seq<Edge> {
    if es == [] then []
    else NonEmpty(es[..|es| - 1]) + if es[|es| - 1] != {} then [es[|es| - 1]] else []
  }

  /** A graph's hypergraph: per relation the classes of its join columns. */
  ghost function HyperOf(g: QueryGraph): Hyper {
    multiset(NonEmpty(EdgesOf(g, After(g, g.predicates), g.predicates)))
  }

  /** A predicate names a column of the relation that is in the class. */
  ghost predicate JoinsBy(g: QueryGraph, roots: Roots, ps: seq<Predicate>, r: nat, v: nat)
    requires |roots| == TotalAttributes(g) && forall p :: p in ps ==> PredicateIn(g, p)
  {
    exists p :: p in ps && NamesClass(g, roots, p, r, v)
  }

  ghost predicate NamesClass(g: QueryGraph, roots: Roots, p: Predicate, r: nat, v: nat)
    requires |roots| == TotalAttributes(g) && PredicateIn(g, p)
  {
    AttributeInjective(g, p.left, p.leftColumn, p.left, p.leftColumn);
    AttributeInjective(g, p.right, p.rightColumn, p.right, p.rightColumn);
    || (p.left == r && roots[LeftOf(g, p)] == v)
    || (p.right == r && roots[RightOf(g, p)] == v)
  }

  /** The classes a relation is joined by. */
  ghost function JoinClasses(g: QueryGraph, r: nat): Edge
    requires ValidGraph(g)
  {
    set v: nat | v < TotalAttributes(g) && JoinsBy(g, After(g, g.predicates), g.predicates, r, v)
  }

  ghost function JoinedBy(g: QueryGraph, e: Edge): set<nat>
    requires ValidGraph(g)
  {
    set r: nat | r < |g.columnCounts| && JoinClasses(g, r) == e
  }

  /** Each non-empty edge occurs as often as there are relations joined by exactly its classes. */
  ghost predicate IsHyper(g: QueryGraph, h: Hyper)
    requires ValidGraph(g)
  {
    forall e: Edge :: h[e] == if e == {} then 0 else |JoinedBy(g, e)|
  }

  lemma {:induction false} EdgeIs(g: QueryGraph, roots: Roots, ps: seq<Predicate>, r: nat, v: nat)
    requires |roots| == TotalAttributes(g) && r < RelationCount(g) && forall p :: p in ps ==> PredicateIn(g, p)
    ensures v in EdgeOf(g, roots, ps, r) <==> JoinsBy(g, roots, ps, r, v)
    decreases |ps|
  {
    if ps != [] {
      var n := |ps| - 1;
      var p := ps[n];
      assert p in ps && forall q :: q in ps[..n] ==> q in ps;
      EdgeIs(g, roots, ps[..n], r, v);
      AttributeInjective(g, p.left, p.leftColumn, p.left, p.leftColumn);
      AttributeInjective(g, p.right, p.rightColumn, p.right, p.rightColumn);
      assert forall q :: q in ps <==> q in ps[..n] || q == p;
      assert v in EdgeOf(g, roots, ps, r) <==> v in EdgeOf(g, roots, ps[..n], r) || NamesClass(g, roots, p, r, v);
    }
  }

  /** The positions of an edge. */
  ghost function PlacesOf(es: seq<Edge>, e: Edge): set<nat> {
    set r: nat | r < |es| && es[r] == e
  }

  lemma {:induction false} NonEmptyCounts(es: seq<Edge>, e: Edge)
    ensures multiset(NonEmpty(es))[e] == if e == {} then 0 else |PlacesOf(es, e)|
    decreases |es|
  {
    if es == [] {
      assert PlacesOf(es, e) == {};
    } else {
      var n := |es| - 1;
      NonEmptyCounts(es[..n], e);
      assert es == es[..n] + [es[n]];
      LastPlace(es[..n], es[n], e);
      LastKept(es, e);
    }
  }

  lemma LastKept(es: seq<Edge>, e: Edge)
    requires es != []
    ensures var n := |es| - 1;
      multiset(NonEmpty(es))[e] == multiset(NonEmpty(es[..n]))[e] + (if es[n] == e && e != {} then 1 else 0)
  {
    hide NonEmpty;
    NonEmptyIs(es);
  }

  lemma NonEmptyIs(es: seq<Edge>)
    requires es != []
    ensures NonEmpty(es) == NonEmpty(es[..|es| - 1]) + (if es[|es| - 1] != {} then [es[|es| - 1]] else [])
  {}

  lemma LastPlace(rest: seq<Edge>, last: Edge, e: Edge)
    ensures PlacesOf(rest + [last], e) == PlacesOf(rest, e) + (if last == e then {|rest|} else {}) && |rest| !in PlacesOf(rest, e)
  {}

  /** The hypergraph taken apart is the one of the relations' join classes. */
  lemma HyperIs(g: QueryGraph)
    requires ValidGraph(g)
    ensures IsHyper(g, HyperOf(g))
  {
    hide EdgeOf, JoinsBy, After, NonEmpty;
    var roots := After(g, g.predicates);
    var es := EdgesOf(g, roots, g.predicates);
    AfterValid(g, g.predicates);
    forall r: nat | r < RelationCount(g) ensures es[r] == JoinClasses(g, r) {
      forall v ensures v in es[r] <==> v in JoinClasses(g, r) {
        EdgeIs(g, roots, g.predicates, r, v);
        if v in es[r] { ClassBelow(g, roots, g.predicates, r, v); }
      }
    }
    forall e: Edge ensures HyperOf(g)[e] == if e == {} then 0 else |JoinedBy(g, e)| {
      NonEmptyCounts(es, e);
      assert PlacesOf(es, e) == JoinedBy(g, e);
    }
  }

  lemma ClassBelow(g: QueryGraph, roots: Roots, ps: seq<Predicate>, r: nat, v: nat)
    requires |roots| == TotalAttributes(g) && ValidRoots(roots) && (forall p :: p in ps ==> PredicateIn(g, p)) && JoinsBy(g, roots, ps, r, v)
    ensures v < TotalAttributes(g)
  {
    var p :| p in ps && NamesClass(g, roots, p, r, v);
    AttributeInjective(g, p.left, p.leftColumn, p.left, p.leftColumn);
    AttributeInjective(g, p.right, p.rightColumn, p.right, p.rightColumn);
  }

  lemma HyperOnly(g: QueryGraph, h: Hyper)
    requires ValidGraph(g) && IsHyper(g, h)
    ensures h == HyperOf(g)
  {
    hide HyperOf;
    HyperIs(g);
    forall e: Edge ensures h[e] == HyperOf(g)[e] {}
  }

  predicate RelationsInRange(g: QueryGraph) {
    forall p :: p in g.predicates ==> p.left < RelationCount(g) && p.right < RelationCount(g)
  }

  /** One more predicate adds its two classes. */
  lemma EdgesStep(g: QueryGraph, roots: Roots, ps: seq<Predicate>, i: nat, edges: seq<Edge>)
    requires |roots| == TotalAttributes(g) && i < |ps| && PredicateIn(g, ps[i]) && edges == EdgesOf(g, roots, ps[..i])
    ensures var p := ps[i];
      && LeftOf(g, p) < |roots| && RightOf(g, p) < |roots|
      && var once := edges[p.left := edges[p.left] + {roots[LeftOf(g, p)]}];
         once[p.right := once[p.right] + {roots[RightOf(g, p)]}] == EdgesOf(g, roots, ps[..i + 1])
  {
    var p := ps[i];
    AttributeInjective(g, p.left, p.leftColumn, p.left, p.leftColumn);
    AttributeInjective(g, p.right, p.rightColumn, p.right, p.rightColumn);
    assert ps[..i + 1][..i] == ps[..i];
    var once := edges[p.left := edges[p.left] + {roots[LeftOf(g, p)]}];
    var twice := once[p.right := once[p.right] + {roots[RightOf(g, p)]}];
    forall r | 0 <= r < |twice| ensures twice[r] == EdgesOf(g, roots, ps[..i + 1])[r] {
      assert EdgeOf(g, roots, ps[..i + 1], r) == edges[r]
        + (if p.left == r then {roots[LeftOf(g, p)]} else {}) + (if p.right == r then {roots[RightOf(g, p)]} else {});
    }
  }

  /** One edge per relation, from the predicates. */
  method CollectEdges(g: QueryGraph) returns (edges: seq<Edge>)
    requires ValidGraph(g)
    ensures edges == EdgesOf(g, After(g, g.predicates), g.predicates)
  {
    hide LeadTo, After, EdgesOf, EdgeOf;
    var classes := new EquivalenceClasses.Closed(g);
    NoEdges(g);
    ghost var roots, ps := After(g, g.predicates), g.predicates;
    edges := seq(RelationCount(g), r => {});
    for i := 0 to |g.predicates|
      invariant classes.Valid() && classes.roots == roots && edges == EdgesOf(g, roots, ps[..i])
    {
      var p := g.predicates[i];
      assert p in g.predicates;
      EdgesStep(g, roots, ps, i, edges);
      var left := classes.Find(LeftOf(g, p));
      edges := edges[p.left := edges[p.left] + {left}];
      var right := classes.Find(RightOf(g, p));
      edges := edges[p.right := edges[p.right] + {right}];
    }
    assert ps[..|ps|] == ps;
  }

  lemma NoEdges(g: QueryGraph)
    ensures EdgesOf(g, After(g, g.predicates), []) == seq(RelationCount(g), r => {})
  {}

  lemma {:induction false} NonEmptyHas(es: seq<Edge>)
    ensures {} !in NonEmpty(es)
  {
    if es != [] { NonEmptyHas(es[..|es| - 1]); }
  }

  /** Takes the hypergraph apart, a round at a time. A graph naming a relation it does not have is
      not provably acyclic. */
  method IsAcyclic(g: QueryGraph) returns (acyclic: bool)
    requires (forall p :: p in g.predicates ==> p.left < |g.columnCounts| && p.right < |g.columnCounts|) ==> ValidGraph(g)
    ensures acyclic <==> RelationsInRange(g) && Emptied(HyperOf(g))
    ensures acyclic ==> forall p :: p in g.predicates ==> p.left < |g.columnCounts| && p.right < |g.columnCounts|
    ensures ValidGraph(g) ==> forall h :: IsHyper(g, h) ==> (acyclic <==> Emptied(h))
  {
    if ValidGraph(g) {
      forall h | IsHyper(g, h) ensures h == HyperOf(g) { HyperOnly(g, h); }
    }
    if g.predicates == [] {
      NoPredicates(g);
      return true;
    }
    for i := 0 to |g.predicates|
      invariant forall j :: 0 <= j < i ==> g.predicates[j].left < RelationCount(g) && g.predicates[j].right < RelationCount(g)
    {
      var p := g.predicates[i];
      assert p in g.predicates;
      if p.left >= RelationCount(g) || p.right >= RelationCount(g) { return false; }
    }
    var edges := CollectEdges(g);
    var live: seq<Edge> := [];
    for i := 0 to |edges|
      invariant live == NonEmpty(edges[..i])
    {
      assert edges[..i + 1][..i] == edges[..i];
      if edges[i] != {} { live := live + [edges[i]]; }
    }
    assert edges[..|edges|] == edges;
    NonEmptyHas(edges);
    acyclic := TakeApart(live);
  }

  lemma NoPredicates(g: QueryGraph)
    requires g.predicates == []
    ensures Emptied(HyperOf(g))
  {
    var es := EdgesOf(g, After(g, []), []);
    AllEmpty(es);
    assert EmptiedIn(HyperOf(g), 0);
  }

  lemma {:induction false} AllEmpty(es: seq<Edge>)
    requires forall r :: 0 <= r < |es| ==> es[r] == {}
    ensures NonEmpty(es) == []
  {
    if es != [] { AllEmpty(es[..|es| - 1]); }
  }

  method TakeApart(start: seq<Edge>) returns (acyclic: bool)
    requires {} !in start
    ensures acyclic <==> Emptied(multiset(start))
  {
    hide Emptied, Total, Occurrences, Stuck;
    var live, changed := start, true;
    SameSelf(multiset(start));
    while changed && live != []
      invariant Same(multiset(start), multiset(live)) && {} !in live
      invariant !changed ==> Stuck(multiset(live))
      decreases Total(live), changed
    {
      var stripped, one := StripLone(live);
      TotalLess(live, stripped);
      var full := DropEmpty(stripped);
      var fewer, two := DropInside(full);
      Chain(multiset(start), multiset(live), multiset(stripped), multiset(full), multiset(fewer));
      if !one && !two { NothingLeftToDo(live); }
      live, changed := fewer, one || two;
    }
    Verdict(multiset(start), live, changed);
    acyclic := live == [];
  }

  lemma Chain(a: Hyper, b: Hyper, c: Hyper, d: Hyper, e: Hyper)
    requires Same(a, b) && Same(b, c) && Same(c, d) && Same(d, e)
    ensures Same(a, e)
  {}

  lemma Verdict(start: Hyper, live: seq<Edge>, changed: bool)
    requires Same(start, multiset(live)) && (live == [] || (!changed && Stuck(multiset(live))))
    ensures Emptied(start) <==> live == []
  {
    if live == [] {
      assert EmptiedIn(multiset(live), 0);
    } else {
      StuckIs(multiset(live));
      assert live[0] in multiset(live);
    }
  }
}
