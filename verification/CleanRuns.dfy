/** Which runs answer with the total: exactly those in which no thread throws, every bucket's count
    comes back and the total fits 64 bits. Any other that finishes answers with the replaced plan. */
module CleanRuns {
  import opened Checked
  import opened Protocol

  /** One thread's step. */
  datatype Move = Move(thread: nat, step: Step)

  /** A run together with the steps it takes. */
  ghost predicate IsMoved(c: Config, run: seq<State>, moves: seq<Move>) {
    run != [] && |run| == |moves| + 1 && Init(c, run[0]) && forall k :: 0 <= k < |moves| ==> MovedAt(c, run, moves, k)
  }

  ghost predicate MovedAt(c: Config, run: seq<State>, moves: seq<Move>, k: nat)
    requires k < |moves| && k + 1 < |run|
  {
    Enabled(c, run[k], moves[k].thread, moves[k].step) && run[k + 1] == Apply(c, run[k], moves[k].thread, moves[k].step)
  }

  /** Every run takes some steps. */
  lemma {:induction false} RunMoves(c: Config, run: seq<State>) returns (moves: seq<Move>)
    requires IsRun(c, run)
    ensures IsMoved(c, run, moves)
  {
    hide Enabled, Apply;
    moves := [];
    while |moves| + 1 < |run|
      invariant |moves| + 1 <= |run| && forall k :: 0 <= k < |moves| ==> MovedAt(c, run, moves, k)
    {
      var k := |moves|;
      assert Follows(c, run, k);
      var i: nat, step: Step :| Enabled(c, run[k], i, step) && run[k + 1] == Apply(c, run[k], i, step);
      var more := moves + [Move(i, step)];
      forall j | 0 <= j < |more| ensures MovedAt(c, run, more, j) { if j < k { assert MovedAt(c, run, moves, j); } }
      moves := more;
    }
  }

  lemma MovesRun(c: Config, run: seq<State>, moves: seq<Move>)
    requires IsMoved(c, run, moves)
    ensures IsRun(c, run)
  {
    hide Enabled, Apply;
    forall k: nat | k + 1 < |run| ensures Follows(c, run, k) { assert MovedAt(c, run, moves, k); }
  }

  /** The step does not lose a bucket: it is no throw, and a bucket's count comes back. */
  predicate Clean(step: Step) {
    !step.Throw? && (step.Execute? ==> step.result.Ok?)
  }

  //
  // Nothing fails
  //

  /** Nobody has failed, fallen back or heard of a failure. */
  predicate Calm(s: State) {
    !s.error && !s.fellBack && s.phase == NONE && forall i :: 0 <= i < |s.pcs| ==> CalmAt(s.pcs[i])
  }

  predicate CalmAt(pc: Pc) {
    !pc.Throwing? && !pc.Broken? && !pc.Falling? && !pc.Driving? && !pc.Helping? && !pc.Scanning? && (pc.Counted? ==> pc.result.Ok?)
  }

  /** Counting one more bucket cannot exceed the sum of all. */
  lemma {:induction false} TallyBelow(counts: seq<nat>, status: seq<Status>)
    requires |counts| == |status|
    ensures TallySum(counts, status) <= Sum(counts)
  {
    if status != [] { TallyBelow(counts[..|counts| - 1], status[..|status| - 1]); }
  }

  lemma TotalFits(c: Config, s: State, i: nat)
    requires BucketsOk(c, s) && !s.error && i < |s.pcs| && s.pcs[i].Counted? && s.pcs[i].result.Ok?
    ensures s.total + s.pcs[i].result.value <= Sum(c.counts)
  {
    var x := s.pcs[i].slice;
    assert HolderOk(c, s, i);
    TallyChange(c.counts, s.status, x, Tallied);
    TallyBelow(c.counts, s.status[x := Tallied]);
  }

  lemma CalmStep(c: Config, s: State, i: nat, step: Step)
    requires Inv(c, s) && Calm(s) && Enabled(c, s, i, step) && Clean(step) && Int64(Sum(c.counts))
    ensures Calm(Apply(c, s, i, step))
  {
    hide Inv, BucketsOk;
    assert CalmAt(s.pcs[i]);
    if step.Tally? {
      assert BucketsOk(c, s) by { InvBuckets(c, s); }
      TotalFits(c, s, i);
    }
    var t := Apply(c, s, i, step);
    forall j | 0 <= j < |t.pcs| ensures CalmAt(t.pcs[j]) { if j != i { assert CalmAt(s.pcs[j]); } }
  }

  lemma InvBuckets(c: Config, s: State)
    requires Inv(c, s)
    ensures BucketsOk(c, s)
  {}

  /** While nothing fails and the total fits, there is at every point no error, no fallback, and
      nobody that has thrown. */
  lemma {:induction false} StaysCalm(c: Config, run: seq<State>, moves: seq<Move>, k: nat)
    requires IsMoved(c, run, moves) && k < |run| && Slices(c) > 0 && Int64(Sum(c.counts))
    requires forall j :: 0 <= j < k ==> Clean(moves[j].step)
    ensures Calm(run[k])
  {
    hide Enabled, Apply, Inv;
    MovesRun(c, run, moves);
    if k > 0 {
      StaysCalm(c, run, moves, k - 1);
      RunInv(c, run, k - 1);
      assert MovedAt(c, run, moves, k - 1);
      CalmStep(c, run[k - 1], moves[k - 1].thread, moves[k - 1].step);
    }
  }

  /** Finishing calmly is having emitted the total. */
  lemma CalmEmits(c: Config, s: State)
    requires Inv(c, s) && Calm(s) && Over(s) && Slices(c) > 0
    ensures s.emitted == [Sum(c.counts)] && s.handed == []
  {
    assert FallerOk(s, 0);
    forall x | 0 <= x < |s.status| ensures s.status[x].Tallied? { assert StatusOk(s, x); }
    TallyAll(c.counts, s.status);
  }

  //
  // Something fails
  //

  /** A failure has left its mark: a bucket lost, a count that did not come back, or the error. */
  predicate Spoiled(s: State) {
    s.error || SomeLost(s.status) || exists i :: 0 <= i < |s.pcs| && FailedAt(s.pcs[i])
  }

  predicate FailedAt(pc: Pc) {
    pc.Counted? && pc.result.Failed?
  }

  lemma LostStays(c: Config, s: State, i: nat, step: Step)
    requires Inv(c, s) && Enabled(c, s, i, step) && SomeLost(s.status)
    ensures SomeLost(Apply(c, s, i, step).status)
  {
    hide Inv;
    InvBuckets(c, s);
    assert HolderOk(c, s, i);
    var x :| 0 <= x < |s.status| && s.status[x].Lost?;
    assert StatusOk(s, x);
    assert Apply(c, s, i, step).status[x].Lost?;
  }

  lemma FailedStays(c: Config, s: State, i: nat, step: Step, j: nat)
    requires Enabled(c, s, i, step) && j < |s.pcs| && FailedAt(s.pcs[j])
    ensures Spoiled(Apply(c, s, i, step))
  {
    var t := Apply(c, s, i, step);
    if j != i { assert FailedAt(t.pcs[j]); }
    if j == i && s.fellBack { assert t.status[s.pcs[i].slice].Lost?; }
  }

  lemma FailureMarks(c: Config, s: State, i: nat, step: Step)
    requires Enabled(c, s, i, step) && !Clean(step)
    ensures Spoiled(Apply(c, s, i, step))
  {
    var t := Apply(c, s, i, step);
    if step.Throw? { assert t.status[s.pcs[i].slice].Lost?; }
    if step.Execute? { assert FailedAt(t.pcs[i]); }
  }

  lemma ErrorStays(c: Config, s: State, i: nat, step: Step)
    requires Enabled(c, s, i, step) && s.error
    ensures Apply(c, s, i, step).error
  {}

  /** Marks stay. */
  lemma StaysSpoiled(c: Config, s: State, i: nat, step: Step)
    requires Inv(c, s) && Enabled(c, s, i, step) && (Spoiled(s) || !Clean(step))
    ensures Spoiled(Apply(c, s, i, step))
  {
    hide Inv, Enabled, Apply, Clean, SomeLost, FailedAt;
    if !Clean(step) {
      FailureMarks(c, s, i, step);
    } else if s.error {
      ErrorStays(c, s, i, step);
    } else if SomeLost(s.status) {
      LostStays(c, s, i, step);
    } else {
      var j :| 0 <= j < |s.pcs| && FailedAt(s.pcs[j]);
      FailedStays(c, s, i, step, j);
    }
  }

  lemma {:induction false} SpoiledOnce(c: Config, run: seq<State>, moves: seq<Move>, j: nat, k: nat)
    requires IsMoved(c, run, moves) && j < k < |run| && Slices(c) > 0 && !Clean(moves[j].step)
    ensures Spoiled(run[k])
    decreases k
  {
    hide Enabled, Apply, Inv, Spoiled;
    MovesRun(c, run, moves);
    RunInv(c, run, k - 1);
    assert MovedAt(c, run, moves, k - 1);
    if j < k - 1 { SpoiledOnce(c, run, moves, j, k - 1); }
    StaysSpoiled(c, run[k - 1], moves[k - 1].thread, moves[k - 1].step);
  }

  /** Where there has been a failure no total is emitted. */
  lemma SpoiledSilent(c: Config, s: State)
    requires Inv(c, s) && Spoiled(s) && Over(s) && Slices(c) > 0
    ensures s.emitted == []
  {
    if s.emitted != [] { NoneLost(c, s); }
  }

  /** A total that is there fits 64 bits. */
  lemma {:induction false} TotalIsInt64(c: Config, run: seq<State>, k: nat)
    requires IsRun(c, run) && k < |run|
    ensures Int64(run[k].total)
  {
    hide Enabled, Apply;
    if k > 0 {
      TotalIsInt64(c, run, k - 1);
      assert Follows(c, run, k - 1);
      var i: nat, step: Step :| Enabled(c, run[k - 1], i, step) && run[k] == Apply(c, run[k - 1], i, step);
      TotalStep(c, run[k - 1], i, step);
    }
  }

  lemma TotalStep(c: Config, s: State, i: nat, step: Step)
    requires Enabled(c, s, i, step) && Int64(s.total)
    ensures Int64(Apply(c, s, i, step).total)
  {}

  /** Nobody falls back without a plan to fall back to. */
  lemma {:induction false} FellRecoverable(c: Config, run: seq<State>, k: nat)
    requires IsRun(c, run) && k < |run|
    ensures run[k].fellBack ==> c.recoverable
  {
    hide Enabled, Apply;
    if k > 0 {
      FellRecoverable(c, run, k - 1);
      assert Follows(c, run, k - 1);
      var i: nat, step: Step :| Enabled(c, run[k - 1], i, step) && run[k] == Apply(c, run[k - 1], i, step);
      FallStep(c, run[k - 1], i, step);
    }
  }

  lemma FallStep(c: Config, s: State, i: nat, step: Step)
    requires Enabled(c, s, i, step) && (s.fellBack ==> c.recoverable)
    ensures Apply(c, s, i, step).fellBack ==> c.recoverable
  {}

  lemma SilentFell(c: Config, s: State)
    requires Inv(c, s) && Over(s) && Slices(c) > 0 && s.emitted == []
    ensures s.fellBack && multiset(s.handed) == c.stock
  {
    OverIsWhole(c, s);
    if !s.fellBack {
      assert FallerOk(s, 0);
      forall x | 0 <= x < |s.status| ensures s.status[x].Tallied? { assert StatusOk(s, x); }
      TallyAll(c.counts, s.status);
    }
  }

  /** A query that finishes is answered by its total exactly if no thread threw, every bucket's count
      came back and the total fits 64 bits, whether or not there is a plan to fall back to; otherwise
      it is answered by all rows of the replaced plan. */
  lemma TotalIff(c: Config, run: seq<State>, moves: seq<Move>, k: nat)
    requires IsMoved(c, run, moves) && k < |run| && Slices(c) > 0 && Over(run[k])
    ensures var s, clean := run[k], Int64(Sum(c.counts)) && forall j :: 0 <= j < k ==> Clean(moves[j].step);
      && (clean ==> s.emitted == [Sum(c.counts)] && s.handed == [])
      && (!clean ==> s.emitted == [] && multiset(s.handed) == c.stock && c.recoverable)
  {
    hide Enabled, Apply, Inv, Over, Spoiled, Calm, Clean;
    MovesRun(c, run, moves);
    RunInv(c, run, k);
    FellRecoverable(c, run, k);
    if run[k].emitted == [] { SilentFell(c, run[k]); }
    if !Int64(Sum(c.counts)) {
      TotalIsInt64(c, run, k);
      TooLargeSilent(c, run[k]);
    } else if forall j :: 0 <= j < k ==> Clean(moves[j].step) {
      StaysCalm(c, run, moves, k);
      CalmEmits(c, run[k]);
    } else {
      var j :| 0 <= j < k && !Clean(moves[j].step);
      SpoiledOnce(c, run, moves, j, k);
      SpoiledSilent(c, run[k]);
    }
  }

  lemma TooLargeSilent(c: Config, s: State)
    requires Inv(c, s) && Int64(s.total) && !Int64(Sum(c.counts)) && Slices(c) > 0
    ensures s.emitted == []
  {
    if s.emitted != [] { NoneLost(c, s); }
  }
}
