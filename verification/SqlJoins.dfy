/** What the four join kinds mean on flat bags, and that the counting walk with its sweep
    over the lower side counts exactly that. */
module SqlJoins {
  import opened Bags
  import opened FReps
  import opened FTrees
  import opened Flattening
  import opened Reordering
  import opened Restructuring
  import opened Transforming
  import opened FlatJoins
  import opened Joins
  import opened Instances
  import opened FactorizedJoins
  import opened CountJoins
  import opened Reaching
  import opened Lookups

  datatype JoinMode = TOP_INSERT | BOTTOM_INSERT

  datatype Preserve = NEITHER | BUILD | PROBE | BOTH

  datatype JoinKind = PRODUCT | SEMI | ANTI

  //
  // The meaning of the join kinds
  //

  /** The tuples of `a` with a partner in `b`. */
  function Partnered(a: seq<Tuple>, b: seq<Tuple>, ka: seq<Attr>, kb: seq<Attr>, how: Comparing): seq<Tuple> {
    if a == [] then []
    else if Meeting(b, kb, KeyOf(a[0], ka), how) != [] then [a[0]] + Partnered(a[1..], b, ka, kb, how)
    else Partnered(a[1..], b, ka, kb, how)
  }

  function Unpartnered(a: seq<Tuple>, b: seq<Tuple>, ka: seq<Attr>, kb: seq<Attr>, how: Comparing): seq<Tuple> {
    if a == [] then []
    else if Meeting(b, kb, KeyOf(a[0], ka), how) == [] then [a[0]] + Unpartnered(a[1..], b, ka, kb, how)
    else Unpartnered(a[1..], b, ka, kb, how)
  }

  /** A semi- or anti-join has to emit exactly one side. */
  predicate Legal(kind: JoinKind, preserve: Preserve) {
    kind == PRODUCT || preserve == BUILD || preserve == PROBE
  }

  /** The rows of a join of the flat bags `a` (build) and `b` (probe), `how` comparing build keys
      with probe keys; a tuple a join preserves for want of a partner stands for itself,
      null-extended. */
  function SqlRows(kind: JoinKind, preserve: Preserve, a: seq<Tuple>, b: seq<Tuple>, ka: seq<Attr>, kb: seq<Attr>, how: Comparing): seq<Tuple>
    requires Legal(kind, preserve)
  {
    match kind
    case PRODUCT =>
      BagJoin(a, b, ka, kb, how)
      + (if preserve in {BUILD, BOTH} then Unpartnered(a, b, ka, kb, how) else [])
      + (if preserve in {PROBE, BOTH} then Unpartnered(b, a, kb, ka, Mirrored(how)) else [])
    case SEMI => if preserve == BUILD then Partnered(a, b, ka, kb, how) else Partnered(b, a, kb, ka, Mirrored(how))
    case ANTI => if preserve == BUILD then Unpartnered(a, b, ka, kb, how) else Unpartnered(b, a, kb, ka, Mirrored(how))
  }

  //
  // What the code does
  //

  datatype UpperFold = FoldProduct | FoldPreserve | FoldSemi | FoldAnti | MarkOnly

  function FoldOf(kind: JoinKind, preserveUpper: bool): UpperFold {
    match kind
    case PRODUCT => if preserveUpper then FoldPreserve else FoldProduct
    case SEMI => if preserveUpper then FoldSemi else MarkOnly
    case ANTI => if preserveUpper then FoldAnti else MarkOnly
  }

  /** What the fold at the insertion level makes of a size, given the matched size. */
  function Folded(fold: UpperFold, size: nat, matched: nat): nat {
    match fold
    case FoldProduct => size * matched
    case FoldPreserve => size * (if matched == 0 then 1 else matched)
    case FoldSemi => if matched > 0 then size else 0
    case FoldAnti => if matched == 0 then size else 0
    case MarkOnly => size
  }

  function MatchedSize(es: seq<Entry>, k: seq<int>, how: Comparing): nat {
    SizeAll(Filed(es, k, how))
  }

  function SizesUnder(es: seq<Entry>, how: Comparing): seq<int> -> nat {
    k => MatchedSize(es, k, how)
  }

  /** What the fold makes of a key, given the total size filed under it. */
  function FoldFactor(fold: UpperFold, total: seq<int> -> nat): seq<int> -> nat {
    k => Folded(fold, 1, total(k))
  }

  function Factor(fold: UpperFold, es: seq<Entry>, how: Comparing): seq<int> -> nat {
    FoldFactor(fold, SizesUnder(es, how))
  }

  /** Each fold multiplies by a factor of the key. */
  lemma FoldIsFactor(fold: UpperFold, size: nat, total: seq<int> -> nat, k: seq<int>)
    ensures Folded(fold, size, total(k)) == size * FoldFactor(fold, total)(k)
  {}

  /** One of the keys meets this one. */
  predicate Met(keys: seq<seq<int>>, l: seq<int>, how: Comparing) {
    exists k :: k in keys && Meets(how, k, l)
  }

  /** The sweep over the lower side: the entries whose mark is as wanted. */
  function Sweep(es: seq<Entry>, keys: seq<seq<int>>, wanted: bool, how: Comparing): nat {
    if es == [] then 0
    else (if Met(keys, es[0].key, how) == wanted then Size(es[0].rec) else 0) + Sweep(es[1..], keys, wanted, how)
  }

  function JoinCount(kind: JoinKind, preserveUpper: bool, preserveLower: bool, es: seq<Entry>, walk: Visit, how: Comparing): nat {
    (if kind != PRODUCT && preserveLower then 0 else walk.size)
    + (if preserveLower then Sweep(es, walk.keys, kind == SEMI, how) else 0)
  }

  //
  // Counting bags
  //

  lemma PartneredCount(a: seq<Tuple>, b: seq<Tuple>, ka: seq<Attr>, kb: seq<Attr>, f: seq<int> -> nat, how: Comparing)
    requires forall k :: f(k) == if Meeting(b, kb, k, how) != [] then 1 else 0
    ensures |Partnered(a, b, ka, kb, how)| == Weighted(a, ka, f)
  {}

  lemma UnpartneredCount(a: seq<Tuple>, b: seq<Tuple>, ka: seq<Attr>, kb: seq<Attr>, f: seq<int> -> nat, how: Comparing)
    requires forall k :: f(k) == if Meeting(b, kb, k, how) == [] then 1 else 0
    ensures |Unpartnered(a, b, ka, kb, how)| == Weighted(a, ka, f)
  {}

  lemma JoinedCount(a: seq<Tuple>, b: seq<Tuple>, ka: seq<Attr>, kb: seq<Attr>, f: seq<int> -> nat, how: Comparing)
    requires forall k :: f(k) == |Meeting(b, kb, k, how)|
    ensures |BagJoin(a, b, ka, kb, how)| == Weighted(a, ka, f)
  {}

  lemma PreservedCount(a: seq<Tuple>, b: seq<Tuple>, ka: seq<Attr>, kb: seq<Attr>, f: seq<int> -> nat, how: Comparing)
    requires forall k :: f(k) == if Meeting(b, kb, k, how) == [] then 1 else |Meeting(b, kb, k, how)|
    ensures |BagJoin(a, b, ka, kb, how)| + |Unpartnered(a, b, ka, kb, how)| == Weighted(a, ka, f)
  {}

  lemma WeightedOne(a: seq<Tuple>, ka: seq<Attr>, f: seq<int> -> nat)
    requires forall k :: f(k) == 1
    ensures Weighted(a, ka, f) == |a|
  {}

  lemma {:induction false} JoinOneMore(a: Tuple, rest: seq<Tuple>, b: seq<Tuple>, ka: seq<Attr>, kb: seq<Attr>, how: Comparing)
    ensures |BagJoin(b, [a] + rest, kb, ka, Mirrored(how))|
         == |Meeting(b, kb, KeyOf(a, ka), how)| + |BagJoin(b, rest, kb, ka, Mirrored(how))|
    decreases |b|
  {
    if b != [] {
      JoinOneMore(a, rest, b[1..], ka, kb, how);
      MeetsMirrored(how, KeyOf(a, ka), KeyOf(b[0], kb));
      assert ([a] + rest)[1..] == rest;
    }
  }

  /** The join counts the same from either side. */
  lemma {:induction false} JoinSymmetric(a: seq<Tuple>, b: seq<Tuple>, ka: seq<Attr>, kb: seq<Attr>, how: Comparing)
    ensures |BagJoin(a, b, ka, kb, how)| == |BagJoin(b, a, kb, ka, Mirrored(how))|
    decreases |a|
  {
    if a == [] {
      BagJoinNothing(b, kb, ka, Mirrored(how));
    } else {
      JoinSymmetric(a[1..], b, ka, kb, how);
      JoinOneMore(a[0], a[1..], b, ka, kb, how);
      assert [a[0]] + a[1..] == a;
    }
  }

  /** Some tuple's key meets this one. */
  ghost predicate HasPartner(a: seq<Tuple>, ka: seq<Attr>, l: seq<int>, how: Comparing) {
    exists u :: u in a && Meets(how, KeyOf(u, ka), l)
  }

  lemma PartnerIsMeeting(a: seq<Tuple>, ka: seq<Attr>, l: seq<int>, how: Comparing)
    ensures HasPartner(a, ka, l, how) <==> Meeting(a, ka, l, Mirrored(how)) != []
  {
    var m := Meeting(a, ka, l, Mirrored(how));
    MeetingMembers(a, ka, l, Mirrored(how));
    if m != [] {
      assert m[0] in m;
      MeetsMirrored(how, KeyOf(m[0], ka), l);
    }
    if u :| u in a && Meets(how, KeyOf(u, ka), l) {
      MeetsMirrored(how, KeyOf(u, ka), l);
      assert u in m;
    }
  }

  //
  // The table of the lower side
  //

  lemma MatchedIsMatching(lower: FRelation, lk: seq<Attr>, strategy: PathStrategy, k: seq<int>, how: Comparing)
    requires ValidRelation(lower) && Converges(PathTree(lower.tree, lk, strategy), lk)
    ensures MatchedSize(LowerEntries(lower, lk, strategy), k, how) == |Meeting(FlatAll(lower.roots), lk, k, how)|
  {
    var n, es := PathTree(lower.tree, lk, strategy), LowerEntries(lower, lk, strategy);
    KeyLevelHolds(n, lk);
    EntriesAnswer(lower, lk, strategy, KeyLevel(n, lk), how);
    assert FiledUnder(es, how)(k) == Filed(es, k, how);
    PermLength(FlatAll(Filed(es, k, how)), Meeting(FlatAll(lower.roots), lk, k, how));
    SizeAllIsCount(Filed(es, k, how));
  }

  /** The entries with the wanted mark hold the tuples whose key has it. */
  lemma {:induction false} SweepList(roots: seq<Rec>, cs: seq<Ctx>, t: FNode, n: FNode, kp: Path, kb: seq<Attr>,
                                     keys: seq<seq<int>>, wanted: bool, f: seq<int> -> nat, how: Comparing)
    requires ConformsAll(roots, t) && Sourced(t, n) && AtMostOnce(AttrBag(n)) && KeysAt(n, kp, kb)
    requires forall c :: c in cs ==> Typed(c, t) && PathBound(c, n, kp)
    requires forall k :: f(k) == if Met(keys, k, how) == wanted then 1 else 0
    ensures Sweep(EntriesOf(roots, cs, n, kp, kb), keys, wanted, how)
         == Weighted(FlatMap(cs, FlatOf(LowerAt(roots, n, kp))), kb, f)
    decreases |cs|
  {
    if cs != [] {
      var c, low := cs[0], LowerNode(roots, cs[0], n, kp);
      assert c in cs && forall d :: d in cs[1..] ==> d in cs;
      SweepList(roots, cs[1..], t, n, kp, kb, keys, wanted, f, how);
      WeightedAppend(Flat(low), FlatMap(cs[1..], FlatOf(LowerAt(roots, n, kp))), kb, f);
      var own := InstanceKey(c, n, kp, kb);
      forall u | u in Flat(low) ensures KeyOf(u, kb) == own { InstanceHasKey(roots, c, t, n, kp, kb, u); }
      WeightedOneKey(Flat(low), kb, f, own);
      SizeIsCount(low);
    }
  }

  lemma SweepMeaning(lower: FRelation, lk: seq<Attr>, strategy: PathStrategy, keys: seq<seq<int>>, wanted: bool, f: seq<int> -> nat, how: Comparing)
    requires ValidRelation(lower) && Converges(PathTree(lower.tree, lk, strategy), lk)
    requires forall k :: f(k) == if Met(keys, k, how) == wanted then 1 else 0
    ensures Sweep(LowerEntries(lower, lk, strategy), keys, wanted, how) == Weighted(FlatAll(lower.roots), lk, f)
  {
    var n, none: Ctx := PathTree(lower.tree, lk, strategy), map[];
    var kp := KeyLevel(n, lk);
    var cs := PathIter(lower.roots, none, n, kp);
    KeyLevelHolds(n, lk);
    PathTreeValid(lower.tree, lk, strategy);
    Restructure(lower, lk, strategy);
    LowerMeaning(lower.roots, none, n, kp, {});
    forall c | c in cs ensures Typed(c, lower.tree) && PathBound(c, n, kp) {
      PathIterTyped(lower.roots, none, lower.tree, n, kp, c);
      PathIterBound(lower.roots, none, n, kp, c);
    }
    SweepList(lower.roots, cs, lower.tree, n, kp, lk, keys, wanted, f, how);
    WeightedPerm(FlatMap(cs, FlatOf(LowerAt(lower.roots, n, kp))), FlatAll(lower.roots), lk, f);
  }

  //
  // The count
  //

  ghost predicate Countable(upper: FRelation, lower: FRelation, uk: seq<Attr>, lk: seq<Attr>, strategy: PathStrategy) {
    && ValidRelation(upper) && ValidRelation(lower)
    && Converges(PathTree(upper.tree, uk, strategy), uk) && Converges(PathTree(lower.tree, lk, strategy), lk)
  }

  /** What the walk computes under each fold. */
  lemma WalkCount(upper: FRelation, lower: FRelation, uk: seq<Attr>, lk: seq<Attr>, strategy: PathStrategy, fold: UpperFold, how: Comparing)
    requires Countable(upper, lower, uk, lk, strategy)
    ensures var a, b := FlatAll(upper.roots), FlatAll(lower.roots);
            UpperWalk(upper, uk, strategy, Factor(fold, LowerEntries(lower, lk, strategy), how)).size
            == match fold
               case FoldProduct => |BagJoin(a, b, uk, lk, how)|
               case FoldPreserve => |BagJoin(a, b, uk, lk, how)| + |Unpartnered(a, b, uk, lk, how)|
               case FoldSemi => |Partnered(a, b, uk, lk, how)|
               case FoldAnti => |Unpartnered(a, b, uk, lk, how)|
               case MarkOnly => |a|
  {
    hide UpperWalk, LowerEntries, Converges, PathTree, ValidRelation;
    var a, b, es := FlatAll(upper.roots), FlatAll(lower.roots), LowerEntries(lower, lk, strategy);
    var f := Factor(fold, es, how);
    UpperWalkSize(upper, uk, strategy, f);
    forall k ensures f(k) == Folded(fold, 1, |Meeting(b, lk, k, how)|) {
      MatchedIsMatching(lower, lk, strategy, k, how);
      assert SizesUnder(es, how)(k) == MatchedSize(es, k, how);
    }
    match fold {
      case FoldProduct => JoinedCount(a, b, uk, lk, f, how);
      case FoldPreserve => PreservedCount(a, b, uk, lk, f, how);
      case FoldSemi => PartneredCount(a, b, uk, lk, f, how);
      case FoldAnti => UnpartneredCount(a, b, uk, lk, f, how);
      case MarkOnly => WeightedOne(a, uk, f);
    }
  }

  /** No lower tuple's key is met by one the walk over the upper side looks up although no upper
      tuple's key meets it. */
  ghost predicate MarksRight(upper: FRelation, lower: FRelation, uk: seq<Attr>, lk: seq<Attr>, strategy: PathStrategy, how: Comparing) {
    forall t :: t in FlatAll(lower.roots) && Met(LookedUp(upper, uk, strategy), KeyOf(t, lk), how)
      ==> HasPartner(FlatAll(upper.roots), uk, KeyOf(t, lk), how)
  }

  lemma {:induction false} WeightedCompare(a: seq<Tuple>, ka: seq<Attr>, f: seq<int> -> nat, g: seq<int> -> nat)
    requires forall t :: t in a ==> f(KeyOf(t, ka)) <= g(KeyOf(t, ka))
    ensures Weighted(a, ka, f) <= Weighted(a, ka, g)
    ensures Weighted(a, ka, f) == Weighted(a, ka, g) <==> forall t :: t in a ==> f(KeyOf(t, ka)) == g(KeyOf(t, ka))
  {
    if a != [] {
      assert a[0] in a && forall t :: t in a[1..] ==> t in a;
      assert forall t :: t in a ==> t == a[0] || t in a[1..];
      WeightedCompare(a[1..], ka, f, g);
    }
  }

  /** Where the marks agree with the tuples, and that they are never too few. */
  lemma MarksCompare(a: seq<Tuple>, b: seq<Tuple>, ka: seq<Attr>, kb: seq<Attr>, keys: seq<seq<int>>, wanted: bool, sum: nat,
                     how: Comparing)
    requires forall k :: HasKey(a, ka, k) ==> k in keys
    requires forall f: seq<int> -> nat ::
      (forall k :: f(k) == if Met(keys, k, how) == wanted then 1 else 0) ==> sum == Weighted(b, kb, f)
    ensures sum == (if wanted then |Partnered(b, a, kb, ka, Mirrored(how))| else |Unpartnered(b, a, kb, ka, Mirrored(how))|)
      <==> forall t :: t in b && Met(keys, KeyOf(t, kb), how) ==> HasPartner(a, ka, KeyOf(t, kb), how)
  {
    hide Meets, Meeting, KeyOf, Partnered, Unpartnered;
    var marked: seq<int> -> nat := k => if Met(keys, k, how) == wanted then 1 else 0;
    var meant: seq<int> -> nat := k => if (Meeting(a, ka, k, Mirrored(how)) != []) == wanted then 1 else 0;
    forall k ensures HasPartner(a, ka, k, how) <==> Meeting(a, ka, k, Mirrored(how)) != [] { PartnerIsMeeting(a, ka, k, how); }
    forall k | HasPartner(a, ka, k, how) ensures Met(keys, k, how) { PartnersMet(a, ka, keys, k, how); }
    if wanted {
      PartneredCount(b, a, kb, ka, meant, Mirrored(how));
      WeightedCompare(b, kb, meant, marked);
    } else {
      UnpartneredCount(b, a, kb, ka, meant, Mirrored(how));
      WeightedCompare(b, kb, marked, meant);
    }
    forall t | t in b
      ensures marked(KeyOf(t, kb)) == meant(KeyOf(t, kb))
        <==> (Met(keys, KeyOf(t, kb), how) ==> HasPartner(a, ka, KeyOf(t, kb), how))
    {}
  }

  lemma PartnersMet(a: seq<Tuple>, ka: seq<Attr>, keys: seq<seq<int>>, l: seq<int>, how: Comparing)
    requires HasPartner(a, ka, l, how) && forall k :: HasKey(a, ka, k) ==> k in keys
    ensures Met(keys, l, how)
  {
    var u :| u in a && Meets(how, KeyOf(u, ka), l);
    assert HasKey(a, ka, KeyOf(u, ka));
  }

  /** The sweep adds what it should exactly if no mark is wrong. */
  lemma SweepExactIff(upper: FRelation, lower: FRelation, uk: seq<Attr>, lk: seq<Attr>, strategy: PathStrategy,
                      factor: seq<int> -> nat, wanted: bool, how: Comparing)
    requires Countable(upper, lower, uk, lk, strategy)
    ensures var a, b := FlatAll(upper.roots), FlatAll(lower.roots);
            Sweep(LowerEntries(lower, lk, strategy), UpperWalk(upper, uk, strategy, factor).keys, wanted, how)
            == (if wanted then |Partnered(b, a, lk, uk, Mirrored(how))| else |Unpartnered(b, a, lk, uk, Mirrored(how))|)
            <==> MarksRight(upper, lower, uk, lk, strategy, how)
  {
    hide UpperWalk, LowerEntries, Converges, PathTree, ValidRelation, HasKey, HasPartner, Met, LookedUp, Partnered, Unpartnered;
    var a, b := FlatAll(upper.roots), FlatAll(lower.roots);
    var keys := UpperWalk(upper, uk, strategy, factor).keys;
    var sum := Sweep(LowerEntries(lower, lk, strategy), keys, wanted, how);
    LookedUpAlways(upper, uk, strategy, factor);
    forall k | HasKey(a, uk, k) ensures k in keys { TupleKeysLookedUp(upper, uk, strategy, k); }
    forall f: seq<int> -> nat | forall k :: f(k) == if Met(keys, k, how) == wanted then 1 else 0 ensures sum == Weighted(b, lk, f) {
      SweepMeaning(lower, lk, strategy, keys, wanted, f, how);
    }
    MarksCompare(a, b, uk, lk, keys, wanted, sum, how);
  }

  lemma MirroredTwice(how: Comparing)
    ensures Mirrored(Mirrored(how)) == how
  {}

  /** What the fused count of a join computes, with the build side on top or beneath. */
  ghost function FusedCount(kind: JoinKind, preserve: Preserve, mode: JoinMode, build: FRelation, probe: FRelation,
                            kb: seq<Attr>, kp: seq<Attr>, strategy: PathStrategy, how: Comparing): nat
    requires Converges(PathTree(build.tree, kb, strategy), kb) && Converges(PathTree(probe.tree, kp, strategy), kp)
  {
    if mode == BOTTOM_INSERT then
      SidesCount(kind, preserve in {BUILD, BOTH}, preserve in {PROBE, BOTH}, build, probe, kb, kp, strategy, how)
    else
      SidesCount(kind, preserve in {PROBE, BOTH}, preserve in {BUILD, BOTH}, probe, build, kp, kb, strategy, Mirrored(how))
  }

  ghost function SidesCount(kind: JoinKind, preserveUpper: bool, preserveLower: bool, upper: FRelation, lower: FRelation,
                            uk: seq<Attr>, lk: seq<Attr>, strategy: PathStrategy, how: Comparing): nat
    requires Converges(PathTree(lower.tree, lk, strategy), lk)
  {
    var es := LowerEntries(lower, lk, strategy);
    JoinCount(kind, preserveUpper, preserveLower, es, UpperWalk(upper, uk, strategy, Factor(FoldOf(kind, preserveUpper), es, how)), how)
  }

  /** The marks a join leaves are right, if it leaves any. */
  ghost predicate MarksFit(preserve: Preserve, mode: JoinMode, build: FRelation, probe: FRelation, kb: seq<Attr>, kp: seq<Attr>,
                           strategy: PathStrategy, how: Comparing) {
    if mode == BOTTOM_INSERT then preserve in {PROBE, BOTH} ==> MarksRight(build, probe, kb, kp, strategy, how)
    else preserve in {BUILD, BOTH} ==> MarksRight(probe, build, kp, kb, strategy, Mirrored(how))
  }

  /** The rows of a join, as the side on top sees them: its own, and those of the side beneath. */
  lemma SidesExactIff(kind: JoinKind, pu: bool, pl: bool, upper: FRelation, lower: FRelation, uk: seq<Attr>, lk: seq<Attr>,
                      strategy: PathStrategy, rows: nat, how: Comparing)
    requires Countable(upper, lower, uk, lk, strategy)
    requires var a, b := FlatAll(upper.roots), FlatAll(lower.roots);
             rows == match kind
               case PRODUCT => |BagJoin(a, b, uk, lk, how)| + (if pu then |Unpartnered(a, b, uk, lk, how)| else 0)
                               + (if pl then |Unpartnered(b, a, lk, uk, Mirrored(how))| else 0)
               case SEMI => if pl then |Partnered(b, a, lk, uk, Mirrored(how))| else |Partnered(a, b, uk, lk, how)|
               case ANTI => if pl then |Unpartnered(b, a, lk, uk, Mirrored(how))| else |Unpartnered(a, b, uk, lk, how)|
    requires kind != PRODUCT ==> pu != pl
    ensures SidesCount(kind, pu, pl, upper, lower, uk, lk, strategy, how) == rows
      <==> (pl ==> MarksRight(upper, lower, uk, lk, strategy, how))
  {
    hide UpperWalk, LowerEntries, Converges, PathTree, ValidRelation, MarksRight, Partnered, Unpartnered, BagJoin;
    WalkCount(upper, lower, uk, lk, strategy, FoldOf(kind, pu), how);
    if pl {
      SweepExactIff(upper, lower, uk, lk, strategy, Factor(FoldOf(kind, pu), LowerEntries(lower, lk, strategy), how), kind == SEMI, how);
    }
  }

  /** The fused count of a join of any legal kind, in either mode, is the number of its rows
      exactly if the marks it leaves on the lower side are right. */
  lemma CountExactIff(kind: JoinKind, preserve: Preserve, mode: JoinMode, build: FRelation, probe: FRelation,
                      kb: seq<Attr>, kp: seq<Attr>, strategy: PathStrategy, how: Comparing)
    requires Legal(kind, preserve) && Countable(build, probe, kb, kp, strategy)
    ensures FusedCount(kind, preserve, mode, build, probe, kb, kp, strategy, how)
         == |SqlRows(kind, preserve, FlatAll(build.roots), FlatAll(probe.roots), kb, kp, how)|
      <==> MarksFit(preserve, mode, build, probe, kb, kp, strategy, how)
  {
    hide UpperWalk, LowerEntries, Converges, PathTree, ValidRelation, MarksRight, SidesCount, Partnered, Unpartnered, BagJoin;
    var a, b := FlatAll(build.roots), FlatAll(probe.roots);
    var rows := |SqlRows(kind, preserve, a, b, kb, kp, how)|;
    JoinSymmetric(a, b, kb, kp, how);
    if mode == BOTTOM_INSERT {
      SidesExactIff(kind, preserve in {BUILD, BOTH}, preserve in {PROBE, BOTH}, build, probe, kb, kp, strategy, rows, how);
    } else {
      MirroredTwice(how);
      SidesExactIff(kind, preserve in {PROBE, BOTH}, preserve in {BUILD, BOTH}, probe, build, kp, kb, strategy, rows, Mirrored(how));
    }
  }

  /** Without empty records above, every mark is right. */
  lemma PrunedMarksRight(upper: FRelation, lower: FRelation, uk: seq<Attr>, lk: seq<Attr>, strategy: PathStrategy, how: Comparing)
    requires Countable(upper, lower, uk, lk, strategy) && PrunedAll(upper.roots)
    ensures MarksRight(upper, lower, uk, lk, strategy, how)
  {
    hide Meets;
    forall t | t in FlatAll(lower.roots) && Met(LookedUp(upper, uk, strategy), KeyOf(t, lk), how)
      ensures HasPartner(FlatAll(upper.roots), uk, KeyOf(t, lk), how)
    {
      var k :| k in LookedUp(upper, uk, strategy) && Meets(how, k, KeyOf(t, lk));
      UpperWalkKeys(upper, uk, strategy, x => 1, k);
      var u :| u in FlatAll(upper.roots) && KeyOf(u, uk) == k;
    }
  }

  /** The fused count of a join of any legal kind is the number of its rows when the side on top,
      should the other one be marked, has no empty records. */
  lemma CountTheorem(kind: JoinKind, preserve: Preserve, mode: JoinMode, build: FRelation, probe: FRelation,
                     kb: seq<Attr>, kp: seq<Attr>, strategy: PathStrategy, how: Comparing)
    requires Legal(kind, preserve) && Countable(build, probe, kb, kp, strategy)
    requires mode == BOTTOM_INSERT && preserve in {PROBE, BOTH} ==> PrunedAll(build.roots)
    requires mode == TOP_INSERT && preserve in {BUILD, BOTH} ==> PrunedAll(probe.roots)
    ensures FusedCount(kind, preserve, mode, build, probe, kb, kp, strategy, how)
         == |SqlRows(kind, preserve, FlatAll(build.roots), FlatAll(probe.roots), kb, kp, how)|
  {
    CountExactIff(kind, preserve, mode, build, probe, kb, kp, strategy, how);
    if mode == BOTTOM_INSERT {
      if preserve in {PROBE, BOTH} { PrunedMarksRight(build, probe, kb, kp, strategy, how); }
    } else {
      if preserve in {BUILD, BOTH} { PrunedMarksRight(probe, build, kp, kb, strategy, Mirrored(how)); }
    }
  }
}
