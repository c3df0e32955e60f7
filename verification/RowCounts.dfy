/** The rows of a SQL join, counted by the positions of the tuples they are made of. */
module RowCounts {
  import opened Bags
  import opened FlatJoins
  import opened SqlJoins

  /** The positions of tuples that meet. */
  ghost function Pairs(a: seq<Tuple>, b: seq<Tuple>, ka: seq<Attr>, kb: seq<Attr>, how: Comparing): set<(nat, nat)> {
    set i: nat, j: nat | i < |a| && j < |b| && Meets(how, KeyOf(a[i], ka), KeyOf(b[j], kb)) :: (i, j)
  }

  /** The positions in `a` of tuples that meet one of `b`. */
  ghost function Joining(a: seq<Tuple>, b: seq<Tuple>, ka: seq<Attr>, kb: seq<Attr>, how: Comparing): set<nat> {
    set i: nat | i < |a| && exists j: nat :: j < |b| && Meets(how, KeyOf(a[i], ka), KeyOf(b[j], kb))
  }

  /** The positions in `a` of tuples that meet none of `b`. */
  ghost function Alone(a: seq<Tuple>, b: seq<Tuple>, ka: seq<Attr>, kb: seq<Attr>, how: Comparing): set<nat> {
    set i: nat | i < |a| && forall j: nat :: j < |b| ==> !Meets(how, KeyOf(a[i], ka), KeyOf(b[j], kb))
  }

  /** The positions in `b` that meet a key. */
  ghost function Hits(b: seq<Tuple>, kb: seq<Attr>, k: seq<int>, how: Comparing): set<nat> {
    set j: nat | j < |b| && Meets(how, k, KeyOf(b[j], kb))
  }

  lemma {:induction false} HitsCount(b: seq<Tuple>, kb: seq<Attr>, k: seq<int>, how: Comparing)
    ensures |Hits(b, kb, k, how)| == |Meeting(b, kb, k, how)|
    decreases |b|
  {
    if b != [] {
      hide Meets, KeyOf, Meeting, Hits;
      var n := |b| - 1;
      var rest := b[..n];
      HitsCount(rest, kb, k, how);
      assert b == rest + [b[n]];
      MeetingAppend(rest, [b[n]], kb, k, how);
      MeetingOne(b[n], kb, k, how);
      LastHit(rest, b[n], kb, k, how);
    }
  }

  lemma LastHit(rest: seq<Tuple>, t: Tuple, kb: seq<Attr>, k: seq<int>, how: Comparing)
    ensures Hits(rest + [t], kb, k, how) == Hits(rest, kb, k, how) + (if Meets(how, k, KeyOf(t, kb)) then {|rest|} else {})
    ensures |rest| !in Hits(rest, kb, k, how)
  {
    hide Meets, KeyOf;
    var b := rest + [t];
    forall j: nat | j < |b| ensures b[j] == if j < |rest| then rest[j] else t {}
  }

  lemma MeetingOne(t: Tuple, kb: seq<Attr>, k: seq<int>, how: Comparing)
    ensures Meeting([t], kb, k, how) == if Meets(how, k, KeyOf(t, kb)) then [t] else []
  {
    assert [t][1..] == [];
  }

  /** A tuple meets one of `b` if there is something it meets. */
  lemma MeetsSome(b: seq<Tuple>, kb: seq<Attr>, k: seq<int>, how: Comparing)
    ensures Meeting(b, kb, k, how) != [] <==> exists j: nat :: j < |b| && Meets(how, k, KeyOf(b[j], kb))
  {
    var m := Meeting(b, kb, k, how);
    MeetingMembers(b, kb, k, how);
    if m != [] {
      assert m[0] in m;
      var j :| 0 <= j < |b| && b[j] == m[0];
    }
    if j: nat :| j < |b| && Meets(how, k, KeyOf(b[j], kb)) { assert b[j] in m; }
  }

  /** The pairs with one first position. */
  ghost function Row(n: nat, js: set<nat>): set<(nat, nat)> {
    set j | j in js :: (n, j)
  }

  lemma {:induction false} RowSize(n: nat, js: set<nat>)
    ensures |Row(n, js)| == |js|
    decreases |js|
  {
    if js == {} {
      assert Row(n, js) == {};
    } else {
      var j :| j in js;
      RowSize(n, js - {j});
      assert Row(n, js) == Row(n, js - {j}) + {(n, j)} && (n, j) !in Row(n, js - {j});
    }
  }

  lemma {:induction false} JoinCounted(a: seq<Tuple>, b: seq<Tuple>, ka: seq<Attr>, kb: seq<Attr>, how: Comparing)
    ensures |BagJoin(a, b, ka, kb, how)| == |Pairs(a, b, ka, kb, how)|
    decreases |a|
  {
    if a != [] {
      hide Meets, KeyOf, Pairs, Hits, Row, BagJoin, Meeting;
      var n := |a| - 1;
      var rest, t := a[..n], a[n];
      JoinCounted(rest, b, ka, kb, how);
      assert a == rest + [t];
      BagJoinAppend(rest, [t], b, ka, kb, how);
      JoinOne(t, b, ka, kb, how);
      HitsCount(b, kb, KeyOf(t, ka), how);
      RowSize(n, Hits(b, kb, KeyOf(t, ka), how));
      LastPairs(rest, t, b, ka, kb, how);
    } else {
      assert Pairs(a, b, ka, kb, how) == {};
    }
  }

  lemma LastPairs(rest: seq<Tuple>, t: Tuple, b: seq<Tuple>, ka: seq<Attr>, kb: seq<Attr>, how: Comparing)
    ensures var row := Row(|rest|, Hits(b, kb, KeyOf(t, ka), how));
      Pairs(rest + [t], b, ka, kb, how) == Pairs(rest, b, ka, kb, how) + row && Pairs(rest, b, ka, kb, how) !! row
  {
    hide Meets, KeyOf;
    var a := rest + [t];
    forall i: nat | i < |a| ensures a[i] == if i < |rest| then rest[i] else t {}
  }

  lemma JoinOne(t: Tuple, b: seq<Tuple>, ka: seq<Attr>, kb: seq<Attr>, how: Comparing)
    ensures |BagJoin([t], b, ka, kb, how)| == |Meeting(b, kb, KeyOf(t, ka), how)|
  {
    assert [t][1..] == [];
  }

  lemma {:induction false} SplitCounted(a: seq<Tuple>, b: seq<Tuple>, ka: seq<Attr>, kb: seq<Attr>, how: Comparing)
    ensures |Partnered(a, b, ka, kb, how)| == |Joining(a, b, ka, kb, how)|
    ensures |Unpartnered(a, b, ka, kb, how)| == |Alone(a, b, ka, kb, how)|
    decreases |a|
  {
    if a != [] {
      hide Meets, KeyOf;
      var n := |a| - 1;
      var rest := a[..n];
      SplitCounted(rest, b, ka, kb, how);
      assert a == rest + [a[n]];
      SplitSnoc(rest, a[n], b, ka, kb, how);
      LastOne(rest, a[n], b, ka, kb, how);
    }
  }

  lemma LastOne(rest: seq<Tuple>, t: Tuple, b: seq<Tuple>, ka: seq<Attr>, kb: seq<Attr>, how: Comparing)
    ensures var meets := Meeting(b, kb, KeyOf(t, ka), how) != [];
      && Joining(rest + [t], b, ka, kb, how) == Joining(rest, b, ka, kb, how) + (if meets then {|rest|} else {})
      && Alone(rest + [t], b, ka, kb, how) == Alone(rest, b, ka, kb, how) + (if meets then {} else {|rest|})
  {
    hide Meets, KeyOf;
    var a := rest + [t];
    MeetsSome(b, kb, KeyOf(t, ka), how);
    forall i: nat | i < |a| ensures a[i] == if i < |rest| then rest[i] else t {}
  }

  lemma {:induction false} SplitSnoc(a: seq<Tuple>, t: Tuple, b: seq<Tuple>, ka: seq<Attr>, kb: seq<Attr>, how: Comparing)
    ensures var m := Meeting(b, kb, KeyOf(t, ka), how);
      && |Partnered(a + [t], b, ka, kb, how)| == |Partnered(a, b, ka, kb, how)| + (if m != [] then 1 else 0)
      && |Unpartnered(a + [t], b, ka, kb, how)| == |Unpartnered(a, b, ka, kb, how)| + (if m == [] then 1 else 0)
  {
    if a == [] {
      assert [] + [t] == [t] && [t][1..] == [];
    } else {
      assert (a + [t])[1..] == a[1..] + [t];
      SplitSnoc(a[1..], t, b, ka, kb, how);
    }
  }

  /** A join has a row for every pair of tuples that meet, and for every tuple without a partner on a
      side it preserves; a semi join one for every tuple of its side with a partner, an anti join one
      for every tuple without. */
  lemma SqlRowsCounted(kind: JoinKind, preserve: Preserve, a: seq<Tuple>, b: seq<Tuple>, ka: seq<Attr>, kb: seq<Attr>, how: Comparing)
    requires Legal(kind, preserve)
    ensures |SqlRows(kind, preserve, a, b, ka, kb, how)| == match kind
      case PRODUCT => |Pairs(a, b, ka, kb, how)| + (if preserve in {BUILD, BOTH} then |Alone(a, b, ka, kb, how)| else 0)
                      + (if preserve in {PROBE, BOTH} then |Alone(b, a, kb, ka, Mirrored(how))| else 0)
      case SEMI => if preserve == BUILD then |Joining(a, b, ka, kb, how)| else |Joining(b, a, kb, ka, Mirrored(how))|
      case ANTI => if preserve == BUILD then |Alone(a, b, ka, kb, how)| else |Alone(b, a, kb, ka, Mirrored(how))|
  {
    hide Pairs, Alone, Joining;
    JoinCounted(a, b, ka, kb, how);
    SplitCounted(a, b, ka, kb, how);
    SplitCounted(b, a, kb, ka, Mirrored(how));
  }
}
