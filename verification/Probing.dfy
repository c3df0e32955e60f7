/** Linear probing over a circular table. A table is described by the home of every slot's
    occupant, -1 where there is none. */
module Probing {
  /** The slot after `at`. */
  function Next(n: nat, at: nat): nat
    requires at < n
  {
    if at + 1 == n then 0 else at + 1
  }

  /** The slot `k` steps from `home`. */
  function Walk(n: nat, home: nat, k: nat): (s: nat)
    requires home < n && k < n
    ensures s < n
  {
    if home + k < n then home + k else home + k - n
  }

  /** How many steps from `home` to `s`. */
  function Dist(n: nat, home: nat, s: nat): (k: nat)
    requires home < n && s < n
    ensures k < n && Walk(n, home, k) == s
  {
    if s >= home then s - home else s + n - home
  }

  /** No empty slot lies between an occupant's home and the slot it is in. */
  ghost predicate Probed(homes: seq<int>) {
    forall s :: 0 <= s < |homes| ==> SlotProbed(homes, s)
  }

  ghost predicate SlotProbed(homes: seq<int>, s: nat)
    requires s < |homes|
  {
    && -1 <= homes[s] < |homes|
    && (homes[s] >= 0 ==> forall k :: 0 <= k < Dist(|homes|, homes[s], s) ==> homes[Walk(|homes|, homes[s], k)] >= 0)
  }

  function Occupied(homes: seq<int>): (c: nat)
    ensures c <= |homes|
  {
    if homes == [] then 0 else (if homes[0] >= 0 then 1 else 0) + Occupied(homes[1..])
  }

  lemma {:induction false} OccupiedPut(homes: seq<int>, s: nat, h: nat)
    requires s < |homes| && homes[s] < 0
    ensures Occupied(homes[s := h]) == Occupied(homes) + 1
  {
    if s > 0 {
      assert homes[s := h][0] == homes[0] && homes[s := h][1..] == homes[1..][s - 1 := h];
      OccupiedPut(homes[1..], s - 1, h);
    } else {
      assert homes[s := h][1..] == homes[1..];
    }
  }

  lemma {:induction false} OccupiedFull(homes: seq<int>)
    requires forall s :: 0 <= s < |homes| ==> homes[s] >= 0
    ensures Occupied(homes) == |homes|
  {
    if homes != [] { OccupiedFull(homes[1..]); }
  }

  lemma {:induction false} OccupiedNone(homes: seq<int>)
    requires forall s :: 0 <= s < |homes| ==> homes[s] < 0
    ensures Occupied(homes) == 0
  {
    if homes != [] { OccupiedNone(homes[1..]); }
  }

  lemma {:induction false} OccupiedSnoc(homes: seq<int>, i: nat)
    requires i < |homes|
    ensures Occupied(homes[..i + 1]) == Occupied(homes[..i]) + if homes[i] >= 0 then 1 else 0
    ensures Occupied(homes[..i + 1]) <= Occupied(homes)
  {
    OccupiedAppend(homes[..i], [homes[i]]);
    OccupiedAppend(homes[..i + 1], homes[i + 1..]);
    assert homes[..i + 1] == homes[..i] + [homes[i]] && homes == homes[..i + 1] + homes[i + 1..];
    assert [homes[i]][1..] == [];
  }

  lemma {:induction false} OccupiedAppend(a: seq<int>, b: seq<int>)
    ensures Occupied(a + b) == Occupied(a) + Occupied(b)
  {
    if a == [] {
      assert a + b == b;
    } else {
      assert (a + b)[0] == a[0] && (a + b)[1..] == a[1..] + b;
      OccupiedAppend(a[1..], b);
    }
  }

  /** The first `k` slots from `home` are taken. */
  ghost predicate Taken(homes: seq<int>, home: nat, k: nat)
    requires home < |homes| && k <= |homes|
  {
    forall j :: 0 <= j < k ==> homes[Walk(|homes|, home, j)] >= 0
  }

  /** A table with a free slot ends every walk. */
  lemma WalkEnds(homes: seq<int>, home: nat, k: nat)
    requires home < |homes| && k <= |homes| && Occupied(homes) < |homes| && Taken(homes, home, k)
    ensures k < |homes|
  {
    if k == |homes| {
      forall s | 0 <= s < |homes| ensures homes[s] >= 0 { var j := Dist(|homes|, home, s); }
      OccupiedFull(homes);
    }
  }

  /** Whatever has this home lies before the first free slot of the walk. */
  lemma FoundBefore(homes: seq<int>, home: nat, k: nat, s: nat)
    requires Probed(homes) && home < |homes| && k < |homes| && s < |homes|
    requires homes[Walk(|homes|, home, k)] < 0 && homes[s] == home
    ensures Dist(|homes|, home, s) < k
  {
    assert SlotProbed(homes, s);
    assert homes[Walk(|homes|, homes[s], k)] < 0;
  }

  /** Taking the first free slot of the walk. */
  lemma PutProbed(homes: seq<int>, home: nat, k: nat)
    requires Probed(homes) && home < |homes| && k < |homes|
    requires Taken(homes, home, k) && homes[Walk(|homes|, home, k)] < 0
    ensures Probed(homes[Walk(|homes|, home, k) := home])
  {
    var at := Walk(|homes|, home, k);
    var put := homes[at := home];
    forall s | 0 <= s < |homes| ensures SlotProbed(put, s) {
      assert SlotProbed(homes, s);
      if s == at {
        assert Dist(|homes|, home, at) == k;
      }
    }
  }

  lemma NextStep(n: nat, home: nat, k: nat)
    requires home < n && k + 1 < n
    ensures Next(n, Walk(n, home, k)) == Walk(n, home, k + 1)
  {}

  lemma EmptyProbed(homes: seq<int>)
    requires forall s :: 0 <= s < |homes| ==> homes[s] == -1
    ensures Probed(homes)
  {}
}
