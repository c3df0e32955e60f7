/** Tables of groups, and what their rows say about the rows grouped. */
module GroupTables {
  import opened Bags
  import opened FlatJoins
  import opened Sums
  import opened Groups

  /** One emitted group: its aggregates, and how many rows it stands for. */
  datatype GroupRow = GroupRow(values: seq<int>, count: nat)

  type GroupTable = map<seq<int>, GroupRow>

  /** An aggregate over a bag. With `dirty`, a zero no row carries competes for the extreme. */
  function ValueOf(b: seq<Tuple>, a: Aggregate, dirty: bool): int {
    if IsSum(a) then SumOf(b, a.attr)
    else if IsExtreme(a) then Tainted(dirty, ExtremeOf(b, a.attr, WantsMax(a)), WantsMax(a))
    else |b|
  }

  ghost predicate RowIs(row: GroupRow, b: seq<Tuple>, aggs: seq<Aggregate>, dirty: bool) {
    && row.count == |b| && |row.values| == |aggs|
    && forall i :: 0 <= i < |aggs| ==> row.values[i] == ValueOf(b, aggs[i], dirty)
  }

  /** The table holds exactly the groups of the bag. */
  ghost predicate GroupsAre(groups: GroupTable, b: seq<Tuple>, keys: seq<Attr>, aggs: seq<Aggregate>, dirty: bool) {
    forall k :: && (k in groups <==> Matching(b, keys, k) != [])
                && (k in groups ==> RowIs(groups[k], Matching(b, keys, k), aggs, dirty))
  }

  /** The groups depend on the bag only. */
  lemma GroupsPerm(groups: GroupTable, a: seq<Tuple>, b: seq<Tuple>, keys: seq<Attr>, aggs: seq<Aggregate>, dirty: bool)
    requires GroupsAre(groups, a, keys, aggs, dirty) && Perm(a, b) && InRanges(a, aggs)
    ensures GroupsAre(groups, b, keys, aggs, dirty)
  {
    forall k
      ensures (k in groups <==> Matching(b, keys, k) != []) && (k in groups ==> RowIs(groups[k], Matching(b, keys, k), aggs, dirty))
    {
      var p, q := Matching(a, keys, k), Matching(b, keys, k);
      MatchingPerm(a, b, keys, k);
      PermLength(p, q);
      if k in groups {
        forall i | 0 <= i < |aggs| ensures ValueOf(p, aggs[i], dirty) == ValueOf(q, aggs[i], dirty) {
          SumPerm(p, q, aggs[i].attr);
          MatchingMembers(a, keys, k);
          assert InRange64(a, aggs[i].attr);
          ExtremePerm(p, q, aggs[i].attr, WantsMax(aggs[i]));
        }
      }
    }
  }

  /** Keys that carry the same values group the same. */
  lemma {:induction false} MatchingRekeyed(b: seq<Tuple>, ks: seq<Attr>, ls: seq<Attr>, k: seq<int>)
    requires forall t :: t in b ==> KeyOf(t, ks) == KeyOf(t, ls)
    ensures Matching(b, ks, k) == Matching(b, ls, k)
  {
    if b != [] {
      assert b[0] in b && forall t :: t in b[1..] ==> t in b;
      MatchingRekeyed(b[1..], ks, ls, k);
    }
  }

  lemma GroupsRekeyed(groups: GroupTable, b: seq<Tuple>, ks: seq<Attr>, ls: seq<Attr>, aggs: seq<Aggregate>, dirty: bool)
    requires GroupsAre(groups, b, ks, aggs, dirty) && forall t :: t in b ==> KeyOf(t, ks) == KeyOf(t, ls)
    ensures GroupsAre(groups, b, ls, aggs, dirty)
  {
    forall k ensures Matching(b, ks, k) == Matching(b, ls, k) { MatchingRekeyed(b, ks, ls, k); }
  }

  //
  // What a table says
  //

  /** The positions of the rows of a group. */
  ghost function Members(b: seq<Tuple>, keys: seq<Attr>, k: seq<int>): set<nat> {
    set j: nat | j < |b| && KeyOf(b[j], keys) == k
  }

  /** What a column adds up to over the rows of a group. */
  ghost function SumWithin(b: seq<Tuple>, keys: seq<Attr>, k: seq<int>, x: Attr): int {
    if b == [] then 0
    else
      var t := b[|b| - 1];
      SumWithin(b[..|b| - 1], keys, k, x) + (if KeyOf(t, keys) == k && x in t then t[x] else 0)
  }

  /** The value is the greatest of the column at these positions. With `dirty` a zero that no row
      carries competes. */
  ghost predicate IsGreatest(value: int, b: seq<Tuple>, rows: set<nat>, x: Attr, dirty: bool)
    requires forall j :: j in rows ==> j < |b|
  {
    && (forall j :: j in rows && x in b[j] ==> b[j][x] <= value) && (dirty ==> 0 <= value)
    && ((dirty && value == 0) || exists j :: j in rows && x in b[j] && b[j][x] == value)
  }

  ghost predicate IsLeast(value: int, b: seq<Tuple>, rows: set<nat>, x: Attr, dirty: bool)
    requires forall j :: j in rows ==> j < |b|
  {
    && (forall j :: j in rows && x in b[j] ==> value <= b[j][x]) && (dirty ==> value <= 0)
    && ((dirty && value == 0) || exists j :: j in rows && x in b[j] && b[j][x] == value)
  }

  /** A value is what its kind says about the rows of the group. */
  ghost predicate Tells(value: int, b: seq<Tuple>, keys: seq<Attr>, k: seq<int>, kind: Kind, x: Attr, dirty: bool) {
    match kind
    case COUNT => value == |Members(b, keys, k)|
    case SUM => value == SumWithin(b, keys, k, x)
    case AVG => value == SumWithin(b, keys, k, x)
    case MIN => IsLeast(value, b, Members(b, keys, k), x, dirty)
    case MAX => IsGreatest(value, b, Members(b, keys, k), x, dirty)
    case SUM_PRODUCT => true
  }

  lemma {:induction false} MembersCounted(b: seq<Tuple>, keys: seq<Attr>, k: seq<int>)
    ensures |Matching(b, keys, k)| == |Members(b, keys, k)|
    decreases |b|
  {
    if b != [] {
      hide KeyOf, Members, Matching;
      var n := |b| - 1;
      assert b == b[..n] + [b[n]];
      MembersCounted(b[..n], keys, k);
      MatchingAppend(b[..n], [b[n]], keys, k);
      MatchingOne(b[n], keys, k);
      LastMember(b[..n], b[n], keys, k);
    } else {
      assert Members(b, keys, k) == {};
    }
  }

  lemma LastMember(rest: seq<Tuple>, t: Tuple, keys: seq<Attr>, k: seq<int>)
    ensures Members(rest + [t], keys, k) == Members(rest, keys, k) + (if KeyOf(t, keys) == k then {|rest|} else {})
    ensures |rest| !in Members(rest, keys, k)
  {
    hide KeyOf;
    var b := rest + [t];
    forall j: nat | j < |b| ensures b[j] == if j < |rest| then rest[j] else t {}
  }

  lemma MatchingOne(t: Tuple, keys: seq<Attr>, k: seq<int>)
    ensures Matching([t], keys, k) == if KeyOf(t, keys) == k then [t] else []
  {
    assert [t][1..] == [];
  }

  lemma {:induction false} SummedWithin(b: seq<Tuple>, keys: seq<Attr>, k: seq<int>, x: Attr)
    ensures SumOf(Matching(b, keys, k), x) == SumWithin(b, keys, k, x)
    decreases |b|
  {
    if b != [] {
      var n := |b| - 1;
      assert b == b[..n] + [b[n]];
      SummedWithin(b[..n], keys, k, x);
      MatchingAppend(b[..n], [b[n]], keys, k);
      MatchingOne(b[n], keys, k);
      SumAppend(Matching(b[..n], keys, k), Matching([b[n]], keys, k), x);
    }
  }

  /** The extreme of a group bounds its rows and is carried by one of them. */
  lemma ExtremeWithin(b: seq<Tuple>, keys: seq<Attr>, k: seq<int>, x: Attr, dirty: bool)
    requires InRange64(b, x) && Matching(b, keys, k) != [] && forall t :: t in b ==> x in t
    ensures IsGreatest(ValueOf(Matching(b, keys, k), Aggregate(MAX, x), dirty), b, Members(b, keys, k), x, dirty)
    ensures IsLeast(ValueOf(Matching(b, keys, k), Aggregate(MIN, x), dirty), b, Members(b, keys, k), x, dirty)
  {
    hide KeyOf, ExtremeOf, Matching;
    var m, rows := Matching(b, keys, k), Members(b, keys, k);
    MatchingMembers(b, keys, k);
    assert m[0] in m && !Lacks(m, x);
    ExtremeIs(m, x, true);
    ExtremeIs(m, x, false);
    forall j | j in rows ensures b[j] in m {}
    var high :| high in m && x in high && high[x] == ExtremeOf(m, x, true);
    var low :| low in m && x in low && low[x] == ExtremeOf(m, x, false);
    var i: nat :| i < |b| && b[i] == high;
    var j: nat :| j < |b| && b[j] == low;
    assert i in rows && j in rows;
  }

  /** A table of groups has a row for every key some row carries, and no other; it says how many rows
      carry the key, and of each aggregate what its kind asks for. */
  lemma TableAnswers(groups: GroupTable, b: seq<Tuple>, keys: seq<Attr>, aggs: seq<Aggregate>, dirty: bool, k: seq<int>)
    requires GroupsAre(groups, b, keys, aggs, dirty) && InRanges(b, aggs)
    requires forall t, i :: t in b && 0 <= i < |aggs| && aggs[i].kind in {MIN, MAX} ==> aggs[i].attr in t
    ensures k in groups <==> Members(b, keys, k) != {}
    ensures k in groups ==> groups[k].count == |Members(b, keys, k)| && |groups[k].values| == |aggs|
    ensures k in groups ==> forall i :: 0 <= i < |aggs| ==> Tells(groups[k].values[i], b, keys, k, aggs[i].kind, aggs[i].attr, dirty)
  {
    hide KeyOf, Matching, Members, SumOf, SumWithin, ExtremeOf, IsLeast, IsGreatest;
    MembersCounted(b, keys, k);
    if k in groups {
      forall i | 0 <= i < |aggs| ensures Tells(groups[k].values[i], b, keys, k, aggs[i].kind, aggs[i].attr, dirty) {
        SummedWithin(b, keys, k, aggs[i].attr);
        if aggs[i].kind in {MIN, MAX} {
          forall t | t in b ensures aggs[i].attr in t {}
          ExtremeWithin(b, keys, k, aggs[i].attr, dirty);
          assert aggs[i] == Aggregate(aggs[i].kind, aggs[i].attr);
        }
      }
    }
  }
}
