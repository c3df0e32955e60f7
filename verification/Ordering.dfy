/** Ordering the input nodes a level draws on, so that a nested loop fixes every parent before its
    child. */
module Ordering {
  import opened Bags
  import opened FTrees
  import opened Flattening
  import opened Reordering
  import opened Restructuring
  import opened Outcomes

  /** Its parent is fixed elsewhere, or earlier in this level. */
  predicate Ready(p: Path, sources: seq<Path>, ordered: seq<Path>) {
    p == [] || Parent(p) !in sources || Parent(p) in ordered
  }

  /** Every node comes after its parent, the parents of other levels being fixed already. */
  ghost predicate ParentsFirst(ordered: seq<Path>, outside: set<Path>) {
    forall k :: 0 <= k < |ordered| ==> ordered[k] == [] || Parent(ordered[k]) in outside || Parent(ordered[k]) in ordered[..k]
  }

  lemma ShiftedPrefix<T>(done: seq<T>, ordered: seq<T>, k: nat)
    requires k + 1 < |ordered|
    ensures (done + [ordered[0]]) + ordered[1..][..k] == done + ordered[..k + 1]
  {
    assert ordered[..k + 1] == [ordered[0]] + ordered[1..][..k];
  }

  lemma {:induction false} ParentsFirstIs(ordered: seq<Path>, done: seq<Path>, outside: set<Path>)
    ensures Topological(ordered, outside + SetOf(done)) <==>
      forall k :: 0 <= k < |ordered| ==> ordered[k] == [] || Parent(ordered[k]) in outside || Parent(ordered[k]) in done + ordered[..k]
    decreases |ordered|
  {
    if ordered != [] {
      var rest := ordered[1..];
      ParentsFirstIs(rest, done + [ordered[0]], outside);
      assert outside + SetOf(done) + {ordered[0]} == outside + SetOf(done + [ordered[0]]);
      forall k | 0 <= k < |rest| ensures (done + [ordered[0]]) + rest[..k] == done + ordered[..k + 1] && rest[k] == ordered[k + 1] {
        ShiftedPrefix(done, ordered, k);
      }
      if forall k :: 0 <= k < |ordered| ==> ordered[k] == [] || Parent(ordered[k]) in outside || Parent(ordered[k]) in done + ordered[..k] {
        assert done + ordered[..0] == done;
        forall k | 0 <= k < |rest|
          ensures rest[k] == [] || Parent(rest[k]) in outside || Parent(rest[k]) in (done + [ordered[0]]) + rest[..k]
        {
          assert rest[k] == ordered[k + 1];
        }
      }
      if Topological(ordered, outside + SetOf(done)) {
        forall k | 0 <= k < |ordered|
          ensures ordered[k] == [] || Parent(ordered[k]) in outside || Parent(ordered[k]) in done + ordered[..k]
        {
          if k > 0 { assert ordered[k] == rest[k - 1]; } else { assert done + ordered[..0] == done; }
        }
      }
    }
  }

  lemma TopologicalIs(ordered: seq<Path>, outside: set<Path>)
    ensures Topological(ordered, outside) <==> ParentsFirst(ordered, outside)
  {
    ParentsFirstIs(ordered, [], outside);
    assert outside + SetOf([]) == outside;
    assert forall k :: 0 <= k <= |ordered| ==> [] + ordered[..k] == ordered[..k];
  }

  /** As long as a node is missing, one whose parent is not missing is. */
  lemma {:induction false} SomeReady(sources: seq<Path>, ordered: seq<Path>, p: Path) returns (q: Path)
    requires p in sources && p !in ordered
    ensures q in sources && q !in ordered && Ready(q, sources, ordered)
    decreases |p|
  {
    if Ready(p, sources, ordered) { q := p; } else { q := SomeReady(sources, ordered, Parent(p)); }
  }

  lemma {:induction false} CountsOneEach<T>(a: seq<T>, x: T)
    requires NoDup(a)
    ensures multiset(a)[x] == if x in a then 1 else 0
  {
    if a != [] {
      assert a == [a[0]] + a[1..];
      CountsOneEach(a[1..], x);
      if x == a[0] { assert x !in a[1..]; }
    }
  }

  lemma SameMembersPerm<T(!new)>(a: seq<T>, b: seq<T>)
    requires NoDup(a) && NoDup(b) && forall x :: x in a <==> x in b
    ensures Perm(a, b)
  {
    forall x ensures multiset(a)[x] == multiset(b)[x] {
      CountsOneEach(a, x);
      CountsOneEach(b, x);
    }
  }

  /** What has been placed: some of the sources, parents first. */
  ghost predicate Placed(sources: seq<Path>, ordered: seq<Path>, outside: set<Path>) {
    NoDup(ordered) && ParentsFirst(ordered, outside) && forall p :: p in ordered ==> p in sources
  }

  lemma PlaceOne(sources: seq<Path>, ordered: seq<Path>, outside: set<Path>, owned: set<Path>, p: Path)
    requires Placed(sources, ordered, outside) && p in sources && p !in ordered && Ready(p, sources, ordered)
    requires outside == owned - SetOf(sources) && (p == [] || Parent(p) in owned)
    ensures Placed(sources, ordered + [p], outside)
  {
    var more := ordered + [p];
    forall k | 0 <= k < |more| ensures more[k] == [] || Parent(more[k]) in outside || Parent(more[k]) in more[..k] {
      if k < |ordered| {
        assert more[..k] == ordered[..k];
      } else {
        assert more[..k] == ordered;
        if p != [] && Parent(p) !in ordered { assert Parent(p) !in SetOf(sources); }
      }
    }
  }

  lemma PlacedLength(sources: seq<Path>, ordered: seq<Path>)
    requires NoDup(sources) && NoDup(ordered) && forall p :: p in ordered ==> p in sources
    ensures |ordered| <= |sources|
    ensures |ordered| == |sources| ==> forall p :: p in sources ==> p in ordered
  {
    SizeOfSet(sources);
    SizeOfSet(ordered);
    Subset(SetOf(ordered), SetOf(sources));
    if |ordered| == |sources| {
      forall p | p in sources ensures p in ordered { assert p in SetOf(sources); }
    }
  }

  lemma {:induction false} SizeOfSet(s: seq<Path>)
    requires NoDup(s)
    ensures |SetOf(s)| == |s|
  {
    if s != [] {
      SizeOfSet(s[1..]);
      assert SetOf(s) == SetOf(s[1..]) + {s[0]};
    }
  }

  lemma Subset(a: set<Path>, b: set<Path>)
    requires a <= b
    ensures |a| <= |b| && (|a| == |b| ==> a == b)
  {
    assert b == a + (b - a);
  }

  /** Every source's parent, when it has one, belongs to some level. */
  predicate ParentsOwned(sources: seq<Path>, owned: set<Path>) {
    forall p :: p in sources ==> p == [] || Parent(p) in owned
  }

  /** One pass: every source whose parent is fixed by then is placed after the others. */
  method PlacePass(sources: seq<Path>, before: seq<Path>, owned: set<Path>) returns (r: Outcome<seq<Path>>)
    requires NoDup(sources) && SetOf(sources) <= owned && Placed(sources, before, owned - SetOf(sources))
    ensures r.Failed? ==> r.error == Malformed && !ParentsOwned(sources, owned)
    ensures r.Ok? ==> before <= r.value && Placed(sources, r.value, owned - SetOf(sources))
    ensures r.Ok? ==> forall p :: p in sources && p !in before ==> p == [] || Parent(p) in owned
    ensures r.Ok? && before == [] && ParentsFirst(sources, owned - SetOf(sources)) ==> r.value == sources
    ensures r.Ok? && r.value == before ==> forall p :: p in sources && p !in before ==> !Ready(p, sources, before)
  {
    hide ParentsFirst, NoDup;
    ghost var outside := owned - SetOf(sources);
    var ordered := before;
    for i := 0 to |sources|
      invariant Placed(sources, ordered, outside) && before <= ordered
      invariant forall q :: q in ordered ==> q in before || q in sources[..i]
      invariant forall j :: 0 <= j < i && sources[j] !in before ==> sources[j] == [] || Parent(sources[j]) in owned
      invariant before == [] && ParentsFirst(sources, outside) ==> ordered == sources[..i]
      invariant ordered == before ==> forall j :: 0 <= j < i && sources[j] !in before ==> !Ready(sources[j], sources, before)
    {
      var p := sources[i];
      assert sources[..i + 1] == sources[..i] + [p] && p in sources;
      NoDupAt(sources, i);
      if before == [] && ParentsFirst(sources, outside) { InOrderReady(sources, outside, i); }
      if p in ordered { continue; }
      if p != [] && Parent(p) !in owned { return Failed(Malformed); }
      if Ready(p, sources, ordered) {
        PlaceOne(sources, ordered, outside, owned, p);
        ordered := ordered + [p];
      }
    }
    assert sources[..|sources|] == sources;
    return Ok(ordered);
  }

  lemma InOrderReady(sources: seq<Path>, outside: set<Path>, i: nat)
    requires NoDup(sources) && ParentsFirst(sources, outside) && i < |sources| && outside !! SetOf(sources)
    ensures sources[i] !in sources[..i] && Ready(sources[i], sources, sources[..i])
  {
    NoDupAt(sources, i);
    if sources[i] != [] && Parent(sources[i]) in outside { assert Parent(sources[i]) !in SetOf(sources); }
  }

  lemma {:induction false} NoDupAt<T>(s: seq<T>, i: nat)
    requires NoDup(s) && i < |s|
    ensures s[i] !in s[..i]
  {
    if i > 0 {
      NoDupAt(s[1..], i - 1);
      assert s[..i] == [s[0]] + s[1..][..i - 1] && s[i] in s[1..];
    }
  }

  /** Passes over the sources, placing those whose parent is placed or belongs to another level,
      until all are. It always gets there; nothing is moved that was in order already. */
  method OrderSources(sources: seq<Path>, owned: set<Path>) returns (r: Outcome<seq<Path>>)
    requires NoDup(sources) && SetOf(sources) <= owned
    ensures r.Ok? <==> ParentsOwned(sources, owned)
    ensures r.Failed? ==> r.error == Malformed
    ensures r.Ok? ==> Perm(r.value, sources) && Topological(r.value, owned - SetOf(sources))
    ensures r.Ok? && Topological(sources, owned - SetOf(sources)) ==> r.value == sources
  {
    hide Topological, Perm, Ready, ParentsFirst, NoDup;
    ghost var outside := owned - SetOf(sources);
    TopologicalIs(sources, outside);
    var ordered: seq<Path>, progress := [], true;
    NothingPlaced(sources, outside);
    while |ordered| < |sources| && progress
      invariant Placed(sources, ordered, outside)
      invariant ordered != [] || !progress ==> ParentsOwned(sources, owned)
      invariant ordered != [] && ParentsFirst(sources, outside) ==> ordered == sources
      invariant !progress ==> forall p :: p in sources && p !in ordered ==> !Ready(p, sources, ordered)
      decreases |sources| - |ordered|, progress
    {
      var more :- PlacePass(sources, ordered, owned);
      PlacedLength(sources, more);
      progress := more != ordered;
      ordered := more;
    }
    PlacedLength(sources, ordered);
    if |ordered| < |sources| { PlacedAllOrSome(sources, ordered); }
    TopologicalIs(ordered, outside);
    SameMembersPerm(ordered, sources);
    return Ok(ordered);
  }

  lemma NothingPlaced(sources: seq<Path>, outside: set<Path>)
    ensures Placed(sources, [], outside)
  {}

  lemma PlacedAllOrSome(sources: seq<Path>, ordered: seq<Path>)
    requires NoDup(sources) && NoDup(ordered) && (forall p :: p in ordered ==> p in sources)
    requires forall p :: p in sources && p !in ordered ==> !Ready(p, sources, ordered)
    ensures |ordered| == |sources|
  {
    PlacedLength(sources, ordered);
    if |ordered| < |sources| {
      if p :| p in sources && p !in ordered {
        var q := SomeReady(sources, ordered, p);
      } else {
        PlacedLength(ordered, sources);
      }
    }
  }

  /** The sources that restructuring gives a node are in order already, whatever else is owned, so
      the plan iterates them as they stand. */
  lemma PlannedSourcesStand(n: FNode, bound: set<Path>, owned: set<Path>)
    requires WellPlaced(n, bound) && Fresh(n.sources, bound) && bound + SetOf(n.sources) <= owned
    ensures Topological(n.sources, owned - SetOf(n.sources))
    ensures forall p :: p in n.sources ==> p == [] || Parent(p) in owned
  {
    TopologicalMonotone(n.sources, bound, owned - SetOf(n.sources));
    TopologicalIs(n.sources, owned - SetOf(n.sources));
    forall p | p in n.sources && p != [] ensures Parent(p) in owned {
      var k :| 0 <= k < |n.sources| && n.sources[k] == p;
      if Parent(p) in n.sources[..k] { assert Parent(p) in n.sources && Parent(p) in SetOf(n.sources); }
    }
  }
}
