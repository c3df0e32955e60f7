/** The columns a join is bucketed on, told from the classes alone. */
module SliceChoices {
  import opened Graphs
  import opened Equalities
  import opened Plans
  import opened Slicing
  import opened SliceKeys

  /** In each relation the first column of the class, or nothing where there is none. */
  ghost predicate HoldsClass(g: QueryGraph, key: KeyColumns, root: nat) {
    |key| == |g.columnCounts| && forall r :: 0 <= r < |key| ==> HoldsAt(g, key[r], root, r)
  }

  ghost predicate HoldsAt(g: QueryGraph, column: int, root: nat, r: nat)
    requires r < |g.columnCounts|
  {
    if column < 0 then column == -1 && forall c :: 0 <= c < g.columnCounts[r] ==> !InClass(g, r, c, root)
    else column < g.columnCounts[r] && InClass(g, r, column, root) && forall c :: 0 <= c < column ==> !InClass(g, r, c, root)
  }

  /** The column is one of those all predicates make equal to `root`. */
  ghost predicate InClass(g: QueryGraph, r: nat, c: nat, root: nat)
    requires r < |g.columnCounts| && c < g.columnCounts[r]
  {
    AttributeInjective(g, r, c, r, c);
    After(g, g.predicates)[AttributeOf(g, r, c)] == root
  }

  /** The relations a choice has a column on. */
  ghost function Reached(key: KeyColumns): set<nat> {
    set r: nat | r < |key| && key[r] >= 0
  }

  ghost predicate StartsIn(key: KeyColumns, steps: seq<PlanStep>) {
    steps != [] && steps[0].relation in Reached(key)
  }

  lemma {:induction false} ColumnIs(g: QueryGraph, root: nat, r: nat, n: nat)
    requires r < |g.columnCounts| && n <= g.columnCounts[r]
    ensures var c := ColumnBelow(g, After(g, g.predicates), root, r, n);
      if c < 0 then c == -1 && forall d :: 0 <= d < n ==> !InClass(g, r, d, root)
      else c < n && InClass(g, r, c, root) && forall d :: 0 <= d < c ==> !InClass(g, r, d, root)
  {
    hide After;
    if n > 0 {
      ColumnIs(g, root, r, n - 1);
      AttributeInjective(g, r, n - 1, r, n - 1);
    }
  }

  lemma ColumnsForHold(g: QueryGraph, root: nat)
    ensures HoldsClass(g, ColumnsFor(g, After(g, g.predicates), root), root)
  {
    hide After, ColumnBelow;
    var key := ColumnsFor(g, After(g, g.predicates), root);
    forall r | 0 <= r < |key| ensures HoldsAt(g, key[r], root, r) { ColumnIs(g, root, r, g.columnCounts[r]); }
  }

  lemma HoldOnly(g: QueryGraph, key: KeyColumns, root: nat)
    requires HoldsClass(g, key, root)
    ensures key == ColumnsFor(g, After(g, g.predicates), root)
  {
    hide InClass, ColumnsFor, After;
    ColumnsForHold(g, root);
    var other := ColumnsFor(g, After(g, g.predicates), root);
    forall r | 0 <= r < |key| ensures key[r] == other[r] {
      assert HoldsAt(g, key[r], root, r) && HoldsAt(g, other[r], root, r);
    }
  }

  lemma {:induction false} ReachIs(key: KeyColumns)
    ensures Reach(key) == |Reached(key)|
    decreases |key|
  {
    if key == [] {
      assert Reached(key) == {};
    } else {
      var n := |key| - 1;
      assert key == key[..n] + [key[n]];
      ReachIs(key[..n]);
      ReachSnoc(key[..n], key[n]);
      LastReached(key[..n], key[n]);
    }
  }

  lemma {:induction false} ReachSnoc(key: KeyColumns, c: int)
    ensures Reach(key + [c]) == Reach(key) + (if c >= 0 then 1 else 0)
  {
    if key == [] {
      assert [] + [c] == [c] && [c][1..] == [];
    } else {
      assert (key + [c])[1..] == key[1..] + [c];
      ReachSnoc(key[1..], c);
    }
  }

  lemma LastReached(key: KeyColumns, c: int)
    ensures Reached(key + [c]) == Reached(key) + (if c >= 0 then {|key|} else {}) && |key| !in Reached(key)
  {}

  /** The class is chosen before the other: it reaches where the plan starts and the other does not,
      or, both or neither doing that, it reaches more relations, or as many and has the lesser root. */
  ghost predicate Goes(g: QueryGraph, steps: seq<PlanStep>, key: KeyColumns, root: nat, other: KeyColumns, otherRoot: nat) {
    || (StartsIn(key, steps) && !StartsIn(other, steps))
    || (StartsIn(key, steps) == StartsIn(other, steps)
        && (|Reached(key)| > |Reached(other)| || (|Reached(key)| == |Reached(other)| && root <= otherRoot)))
  }

  lemma GoesIs(g: QueryGraph, steps: seq<PlanStep>, key: KeyColumns, root: nat, other: KeyColumns, otherRoot: nat)
    requires |key| == |other| == |g.columnCounts|
    ensures Goes(g, steps, key, root, other, otherRoot) <==> Beats(key, other, steps) || (!Beats(other, key, steps) && root <= otherRoot)
  {
    ReachIs(key);
    ReachIs(other);
  }

  /** The class chosen is the first of those it does not beat. */
  lemma {:induction false} FirstBest(g: QueryGraph, steps: seq<PlanStep>, roots: Roots, n: nat, other: nat)
    requires |roots| == TotalAttributes(g) && other < n && Reach(ColumnsFor(g, roots, other)) > 1
    ensures var best := BestBelow(g, steps, roots, n);
      best.Choice? && best.root < n && (Beats(ColumnsFor(g, roots, best.root), ColumnsFor(g, roots, other), steps)
        || (!Beats(ColumnsFor(g, roots, other), ColumnsFor(g, roots, best.root), steps) && best.root <= other))
  {
    hide ColumnsFor, Reach, CoversBase;
    BestIs(g, steps, roots, n - 1);
    if other < n - 1 { FirstBest(g, steps, roots, n - 1, other); }
  }

  lemma HeldReach(g: QueryGraph, key: KeyColumns, root: nat)
    requires HoldsClass(g, key, root)
    ensures key == ColumnsFor(g, After(g, g.predicates), root) && Reach(key) == |Reached(key)|
  {
    HoldOnly(g, key, root);
    ReachIs(key);
  }

  ghost predicate IsChosen(g: QueryGraph, steps: seq<PlanStep>, key: KeyColumns, root: nat) {
    && root < TotalAttributes(g) && HoldsClass(g, key, root) && |Reached(key)| >= 2
    && forall otherRoot: nat, other :: otherRoot < TotalAttributes(g) && HoldsClass(g, other, otherRoot) && |Reached(other)| >= 2 ==>
         Goes(g, steps, key, root, other, otherRoot)
  }

  /** A class may be bucketed on where it reaches two relations. */
  ghost predicate Splits(g: QueryGraph, key: KeyColumns, root: nat) {
    root < TotalAttributes(g) && HoldsClass(g, key, root) && |Reached(key)| >= 2
  }

  lemma BestIsChosen(g: QueryGraph, steps: seq<PlanStep>, root: nat)
    requires var roots := After(g, g.predicates); BestBelow(g, steps, roots, |roots|) == Choice(root)
    ensures IsChosen(g, steps, ColumnsFor(g, After(g, g.predicates), root), root)
  {
    hide ColumnsFor, After, Reach, HoldsClass, Beats, Reached, Goes, BestBelow;
    var roots := After(g, g.predicates);
    var key := ColumnsFor(g, roots, root);
    BestIs(g, steps, roots, |roots|);
    ColumnsForHold(g, root);
    HeldReach(g, key, root);
    forall otherRoot: nat, other | otherRoot < TotalAttributes(g) && HoldsClass(g, other, otherRoot) && |Reached(other)| >= 2
      ensures Goes(g, steps, key, root, other, otherRoot)
    {
      HeldReach(g, other, otherRoot);
      FirstBest(g, steps, roots, |roots|, otherRoot);
      HeldLength(g, key, root);
      HeldLength(g, other, otherRoot);
      GoesIs(g, steps, key, root, other, otherRoot);
    }
  }

  lemma HeldLength(g: QueryGraph, key: KeyColumns, root: nat)
    requires HoldsClass(g, key, root)
    ensures |key| == |g.columnCounts|
  {}

  /** Nothing is chosen exactly if no class reaches two relations; otherwise it is the class that
      goes before all others that do. */
  lemma ChosenIs(g: QueryGraph, steps: seq<PlanStep>)
    ensures ChosenKey(g, steps) == [] <==> forall root: nat, key :: !Splits(g, key, root)
    ensures ChosenKey(g, steps) != [] ==> exists root :: IsChosen(g, steps, ChosenKey(g, steps), root)
  {
    hide ColumnsFor, After, Reach, HoldsClass, Beats, Reached, Goes, BestBelow, IsChosen;
    var roots := After(g, g.predicates);
    var best := BestBelow(g, steps, roots, |roots|);
    BestIs(g, steps, roots, |roots|);
    if best.Choice? {
      BestIsChosen(g, steps, best.root);
      ChosenSplits(g, steps, ChosenKey(g, steps), best.root);
    } else {
      forall root: nat, key | Splits(g, key, root) ensures false { HeldReach(g, key, root); }
    }
  }

  lemma ChosenSplits(g: QueryGraph, steps: seq<PlanStep>, key: KeyColumns, root: nat)
    requires IsChosen(g, steps, key, root)
    ensures Splits(g, key, root) && key != []
  {
    var r: nat :| r in Reached(key);
  }

  /** Every class that reaches two relations is listed, once, by the number of relations it reaches,
      the lesser root first among those that reach as many. */
  lemma RankedIs(g: QueryGraph, ranked: seq<nat>, out: seq<KeyColumns>)
    requires Ranked(g, After(g, g.predicates), ranked, TotalAttributes(g)) && |out| == |ranked|
    requires forall i :: 0 <= i < |out| ==> out[i] == ColumnsFor(g, After(g, g.predicates), ranked[i])
    ensures forall i :: 0 <= i < |out| ==> Splits(g, out[i], ranked[i])
    ensures forall root: nat, key :: Splits(g, key, root) ==> exists i :: 0 <= i < |out| && ranked[i] == root && out[i] == key
    ensures forall i, j :: 0 <= i < j < |out| ==>
      |Reached(out[i])| > |Reached(out[j])| || (|Reached(out[i])| == |Reached(out[j])| && ranked[i] < ranked[j])
  {
    hide ColumnsFor, After, Reach, HoldsClass, Reached;
    forall i | 0 <= i < |out| ensures HoldsClass(g, out[i], ranked[i]) && Reach(out[i]) == |Reached(out[i])| && ranked[i] in ranked {
      ColumnsForHold(g, ranked[i]);
      HeldReach(g, out[i], ranked[i]);
    }
    forall root: nat, key | Splits(g, key, root) ensures exists i :: 0 <= i < |out| && ranked[i] == root && out[i] == key {
      HeldReach(g, key, root);
      assert root in ranked;
    }
  }
}
