/** Threads counting buckets into one shared total, and handing the query over to the plan it
    replaced when something fails. */
module Protocol {
  import opened Outcomes

  type Row = seq<int>

  /** The buckets' counts, the rows the replaced plan would produce, and whether there is one. */
  datatype Config = Config(counts: seq<nat>, stock: multiset<Row>, recoverable: bool)

  datatype Phase = NONE | RUNNING | DONE | FAILED

  /** Where a thread stands. Every step between two of these is one critical section, or work
      that touches nothing shared. */
  datatype Pc =
    | Outside
    | Deciding
    | Counting(slice: nat)
    | Counted(slice: nat, result: Outcome<nat>)
    | Totalled
    | Throwing
    | Falling
    | Driving
    | Helping
    | Scanning
    | Finished
    | Broken

  datatype Scan = NoScan | At(position: nat)

  /** What became of a bucket. */
  datatype Status = Unclaimed | Held(holder: nat) | Tallied | Lost(holder: nat)

  /** The shared fields, every thread's place, and what has been seen so far: the totals emitted,
      the rows handed out, what became of each bucket, and which threads were the last finisher,
      the one that fell back and the one that drove. */
  datatype State = State(
    pcs: seq<Pc>, nextSlice: nat, completed: nat, total: nat, error: bool, fellBack: bool,
    phase: Phase, collected: seq<Row>, scan: Scan,
    left: multiset<Row>, emitted: seq<nat>, handed: seq<Row>, status: seq<Status>,
    last: nat, marker: nat, driver: nat, drives: nat)

  function Slices(c: Config): nat {
    |c.counts|
  }

  //
  // Steps
  //

  datatype Step =
    | Enter
    | Claim
    | Execute(result: Outcome<nat>)
    | Throw
    | Tally
    | Emit
    | Catch(fatal: bool)
    | Fall
    | Produce(row: Row)
    | Complete
    | Fail
    | Leave
    | Hand(n: nat)

  predicate Enabled(c: Config, s: State, i: nat, step: Step) {
    && i < |s.pcs|
    && match step
       case Enter => s.pcs[i].Outside?
       case Claim => s.pcs[i].Deciding?
       case Execute(r) => s.pcs[i].Counting? && s.pcs[i].slice < Slices(c) && (r.Ok? ==> r.value == c.counts[s.pcs[i].slice])
       case Throw => s.pcs[i].Counting? && s.pcs[i].slice < |s.status|
       case Tally => s.pcs[i].Counted? && s.pcs[i].slice < |s.status|
       case Emit => s.pcs[i].Totalled?
       case Catch(fatal) => s.pcs[i].Throwing?
       case Fall => s.pcs[i].Falling?
       case Produce(row) => (s.pcs[i].Driving? || s.pcs[i].Helping?) && s.phase == RUNNING && row in s.left
       case Complete => s.pcs[i].Driving? && s.left == multiset{}
       case Fail => s.pcs[i].Driving?
       case Leave => s.pcs[i].Helping? && s.phase != RUNNING
       case Hand(n) => s.pcs[i].Scanning? && (s.scan.At? ==> HandsOut(s, s.scan.position, n))
  }

  /** A chunk of what is left to scan: empty only when nothing is. */
  predicate HandsOut(s: State, position: nat, n: nat) {
    position <= |s.collected| && (position < |s.collected| ==> 0 < n <= |s.collected| - position)
  }

  function Put(s: State, i: nat, pc: Pc): State
    requires i < |s.pcs|
  {
    s.(pcs := s.pcs[i := pc])
  }

  /** The bucket is given up by the thread that held it. */
  function Lose(s: State, i: nat, slice: nat): State
    requires i < |s.pcs| && slice < |s.status|
  {
    Put(s.(status := s.status[slice := Lost(i)]), i, Throwing)
  }

  /** The bucket is counted; the thread that counts the last one holds the whole sum. */
  function Tick(c: Config, s: State, i: nat, slice: nat): State
    requires i < |s.pcs| && slice < |s.status|
  {
    var t := s.(status := s.status[slice := Tallied], completed := s.completed + 1);
    if t.completed == Slices(c) then Put(t.(last := i), i, Totalled) else Put(t, i, Outside)
  }

  function Apply(c: Config, s: State, i: nat, step: Step): State
    requires Enabled(c, s, i, step)
  {
    match step
    case Enter => Put(s, i, if s.fellBack then Falling else Deciding)
    case Claim =>
      var t := s.(nextSlice := s.nextSlice + 1);
      if s.nextSlice >= Slices(c) || s.nextSlice >= |s.status| then Put(t, i, Finished)
      else Put(t.(status := s.status[s.nextSlice := Held(i)]), i, Counting(s.nextSlice))
    case Execute(r) => Put(s, i, Counted(s.pcs[i].slice, r))
    case Throw => Lose(s, i, s.pcs[i].slice)
    case Tally =>
      var slice, r := s.pcs[i].slice, s.pcs[i].result;
      if s.fellBack then Put(s.(status := s.status[slice := Lost(i)]), i, Falling)
      else if r.Failed? then Tick(c, s.(error := true), i, slice)
      else if s.error then Tick(c, s, i, slice)
      else if Plus(s.total, r.value).Failed? then Lose(s, i, slice)
      else Tick(c, s.(total := s.total + r.value), i, slice)
    case Emit => if s.error then Put(s, i, Throwing) else Put(s.(emitted := s.emitted + [s.total]), i, Outside)
    case Catch(fatal) =>
      if fatal || !c.recoverable then Put(s, i, Broken)
      else Put(if s.fellBack then s else s.(fellBack := true, marker := i), i, Falling)
    case Fall =>
      if s.phase == NONE then Put(s.(phase := RUNNING, driver := i, drives := s.drives + 1), i, Driving) else Put(s, i, Helping)
    case Produce(row) => s.(collected := s.collected + [row], left := s.left - multiset{row})
    case Complete => Put(s.(phase := DONE, scan := At(0)), i, Scanning)
    case Fail => Put(s.(phase := FAILED), i, Broken)
    case Leave => Put(s, i, Scanning)
    case Hand(n) =>
      if s.scan.NoScan? || s.scan.position == |s.collected| then Put(s, i, Finished)
      else Put(s.(scan := At(s.scan.position + n), handed := s.handed + s.collected[s.scan.position..s.scan.position + n]), i, Outside)
  }

  ghost predicate Init(c: Config, s: State) {
    && |s.pcs| > 0 && (forall i :: 0 <= i < |s.pcs| ==> s.pcs[i] == Outside)
    && s.nextSlice == s.completed == s.total == s.drives == 0 && !s.error && !s.fellBack
    && s.phase == NONE && s.collected == [] && s.scan == NoScan && s.left == c.stock && s.emitted == [] && s.handed == []
    && |s.status| == Slices(c) && forall x :: 0 <= x < |s.status| ==> s.status[x] == Unclaimed
  }

  ghost predicate Next(c: Config, s: State, s': State) {
    exists i: nat, step: Step :: Enabled(c, s, i, step) && s' == Apply(c, s, i, step)
  }

  //
  // Tallies
  //

  function TallyCount(status: seq<Status>): nat {
    if status == [] then 0 else TallyCount(status[..|status| - 1]) + if status[|status| - 1].Tallied? then 1 else 0
  }

  function TallySum(counts: seq<nat>, status: seq<Status>): nat
    requires |counts| == |status|
  {
    if status == [] then 0
    else
      var n := |status| - 1;
      TallySum(counts[..n], status[..n]) + if status[n].Tallied? then counts[n] else 0
  }

  function Sum(counts: seq<nat>): nat {
    if counts == [] then 0 else Sum(counts[..|counts| - 1]) + counts[|counts| - 1]
  }

  lemma {:induction false} TallyChange(counts: seq<nat>, status: seq<Status>, x: nat, v: Status)
    requires |counts| == |status| && x < |status| && !status[x].Tallied?
    ensures TallyCount(status[x := v]) == TallyCount(status) + if v.Tallied? then 1 else 0
    ensures TallySum(counts, status[x := v]) == TallySum(counts, status) + if v.Tallied? then counts[x] else 0
  {
    var n := |status| - 1;
    if x < n {
      TallyChange(counts[..n], status[..n], x, v);
      assert status[x := v][..n] == status[..n][x := v];
    } else {
      assert status[x := v][..n] == status[..n];
    }
  }

  lemma {:induction false} TallyAll(counts: seq<nat>, status: seq<Status>)
    requires |counts| == |status|
    ensures TallyCount(status) <= |status|
    ensures TallyCount(status) == |status| <==> forall x :: 0 <= x < |status| ==> status[x].Tallied?
    ensures TallyCount(status) == |status| ==> TallySum(counts, status) == Sum(counts)
  {
    if status != [] {
      var n := |status| - 1;
      TallyAll(counts[..n], status[..n]);
      assert forall x :: 0 <= x < n ==> status[..n][x] == status[x];
      assert (forall x :: 0 <= x < |status| ==> status[x].Tallied?)
        <==> status[n].Tallied? && forall x :: 0 <= x < n ==> status[..n][x].Tallied?;
    }
  }

  lemma {:induction false} TallyNone(counts: seq<nat>, status: seq<Status>)
    requires |counts| == |status| && forall x :: 0 <= x < |status| ==> !status[x].Tallied?
    ensures TallyCount(status) == 0 && TallySum(counts, status) == 0
  {
    if status != [] { TallyNone(counts[..|status| - 1], status[..|status| - 1]); }
  }

  //
  // The invariant
  //

  predicate Holds(pc: Pc, slice: nat) {
    (pc.Counting? || pc.Counted?) && pc.slice == slice
  }

  predicate Stopped(pc: Pc) {
    pc.Throwing? || pc.Broken?
  }

  /** A bucket and the thread that answers for it agree. */
  ghost predicate StatusOk(s: State, x: nat)
    requires x < |s.status|
  {
    match s.status[x]
    case Unclaimed => s.nextSlice <= x
    case Held(i) => x < s.nextSlice && i < |s.pcs| && Holds(s.pcs[i], x)
    case Tallied => x < s.nextSlice
    case Lost(i) => x < s.nextSlice && i < |s.pcs| && (Stopped(s.pcs[i]) || s.fellBack)
  }

  ghost predicate HolderOk(c: Config, s: State, i: nat)
    requires i < |s.pcs|
  {
    var pc := s.pcs[i];
    && (pc.Counting? || pc.Counted? ==> pc.slice < |s.status| == Slices(c) && s.status[pc.slice] == Held(i))
    && (pc.Counted? && pc.result.Ok? ==> pc.result.value == c.counts[pc.slice])
  }

  ghost predicate BucketsOk(c: Config, s: State) {
    && |s.status| == Slices(c)
    && (forall x :: 0 <= x < |s.status| ==> StatusOk(s, x))
    && (forall i :: 0 <= i < |s.pcs| ==> HolderOk(c, s, i))
    && s.completed == TallyCount(s.status)
    && (!s.error ==> s.total == TallySum(c.counts, s.status))
  }

  predicate SomeLost(status: seq<Status>) {
    exists x :: 0 <= x < |status| && status[x].Lost?
  }

  /** Some bucket will never be counted, or all are and one of them failed. */
  predicate Trouble(c: Config, s: State) {
    SomeLost(s.status) || (s.completed == Slices(c) && s.error)
  }

  predicate Fell(pc: Pc) {
    pc.Falling? || pc.Driving? || pc.Helping? || pc.Scanning?
  }

  /** Nobody gives up on the buckets without a reason. */
  ghost predicate ReasonsOk(c: Config, s: State) {
    && (s.fellBack ==> Trouble(c, s))
    && forall i :: 0 <= i < |s.pcs| ==> ReasonOk(c, s, s.pcs[i])
  }

  ghost predicate ReasonOk(c: Config, s: State, pc: Pc) {
    (Stopped(pc) ==> Trouble(c, s)) && (Fell(pc) ==> s.fellBack)
  }

  /** The last finisher is alone, and until it has emitted or failed nothing has been emitted. */
  ghost predicate LastOk(c: Config, s: State) {
    && (forall i :: 0 <= i < |s.pcs| && s.pcs[i].Totalled? ==> s.completed == Slices(c) && i == s.last)
    && (s.completed < Slices(c) ==> s.emitted == [])
    && (s.completed == Slices(c) ==> s.last < |s.pcs|)
    && (s.emitted != [] ==> s.emitted == [Sum(c.counts)] && s.completed == Slices(c) && !s.error && !s.pcs[s.last].Totalled?)
    && (s.completed == Slices(c) && s.emitted == [] ==> s.pcs[s.last].Totalled? || Stopped(s.pcs[s.last]) || s.fellBack)
  }

  /** Exactly one thread drives the fallback, and the others wait for it. */
  ghost predicate FallbackOk(c: Config, s: State) {
    && (s.phase != NONE ==> s.fellBack && s.driver < |s.pcs|)
    && s.drives == (if s.phase == NONE then 0 else 1)
    && (s.fellBack && s.phase == NONE ==> s.marker < |s.pcs| && s.pcs[s.marker].Falling?)
    && (s.phase == RUNNING ==> s.pcs[s.driver].Driving?)
    && (s.phase == FAILED ==> s.pcs[s.driver].Broken?)
    && (s.phase == DONE ==> DriverOk(s, s.pcs[s.driver]))
    && forall i :: 0 <= i < |s.pcs| ==> FallerOk(s, i)
  }

  ghost predicate FallerOk(s: State, i: nat)
    requires i < |s.pcs|
  {
    && (s.pcs[i].Driving? ==> s.phase == RUNNING && s.driver == i)
    && (s.pcs[i].Helping? ==> s.phase != NONE)
    && (s.pcs[i].Scanning? ==> s.phase == DONE || s.phase == FAILED)
    && (s.pcs[i].Finished? ==> s.nextSlice >= |s.status| || s.phase == DONE || s.phase == FAILED)
  }

  /** The driver goes on scanning until there is nothing left. */
  ghost predicate DriverOk(s: State, pc: Pc) {
    && (pc.Outside? || pc.Falling? || pc.Helping? || pc.Scanning? || pc.Finished?)
    && (pc.Finished? ==> s.scan == At(|s.collected|))
  }

  /** The rows handed out are the collected ones up to the scan's position. */
  ghost predicate RowsOk(c: Config, s: State) {
    && multiset(s.collected) + s.left == c.stock
    && (s.scan.At? <==> s.phase == DONE) && (s.phase == DONE ==> s.left == multiset{})
    && s.handed == (if s.scan.At? && s.scan.position <= |s.collected| then s.collected[..s.scan.position] else [])
    && (s.scan.At? ==> s.scan.position <= |s.collected|)
  }

  ghost predicate Inv(c: Config, s: State) {
    |s.pcs| > 0 && BucketsOk(c, s) && ReasonsOk(c, s) && LastOk(c, s) && FallbackOk(c, s) && RowsOk(c, s)
  }

  lemma InitInv(c: Config, s: State)
    requires Init(c, s) && Slices(c) > 0
    ensures Inv(c, s)
  {
    TallyNone(c.counts, s.status);
    TallyAll(c.counts, s.status);
  }

  //
  // Every step keeps it
  //

  predicate Holding(pc: Pc) {
    pc.Counting? || pc.Counted?
  }

  /** A thread that holds no bucket, before or after, moves. */
  lemma BucketsFrame(c: Config, s: State, t: State, i: nat, pc: Pc)
    requires BucketsOk(c, s) && i < |s.pcs| && t.pcs == s.pcs[i := pc] && t.status == s.status && t.completed == s.completed
    requires t.total == s.total && t.error == s.error && !Holding(s.pcs[i]) && !Holding(pc)
    requires (s.fellBack ==> t.fellBack) && (Stopped(s.pcs[i]) ==> Stopped(pc) || t.fellBack)
    requires s.nextSlice == t.nextSlice || (s.nextSlice <= t.nextSlice && s.nextSlice >= |s.status|)
    ensures BucketsOk(c, t)
  {
    forall x | 0 <= x < |t.status| ensures StatusOk(t, x) { assert StatusOk(s, x); }
    forall j | 0 <= j < |t.pcs| ensures HolderOk(c, t, j) { assert HolderOk(c, s, j); }
  }

  lemma ReasonsFrame(c: Config, s: State, t: State, i: nat, pc: Pc)
    requires ReasonsOk(c, s) && i < |s.pcs| && t.pcs == s.pcs[i := pc] && (Trouble(c, s) ==> Trouble(c, t))
    requires (s.fellBack ==> t.fellBack) && (t.fellBack && !s.fellBack ==> Trouble(c, t)) && ReasonOk(c, t, pc)
    ensures ReasonsOk(c, t)
  {
    forall j | 0 <= j < |t.pcs| ensures ReasonOk(c, t, t.pcs[j]) { assert ReasonOk(c, s, s.pcs[j]); }
  }

  lemma LastFrame(c: Config, s: State, t: State, i: nat, pc: Pc)
    requires LastOk(c, s) && i < |s.pcs| && t.pcs == s.pcs[i := pc] && t.completed == s.completed && t.emitted == s.emitted
    requires t.last == s.last && t.error == s.error && !pc.Totalled? && (s.fellBack ==> t.fellBack)
    requires Stopped(s.pcs[i]) || s.pcs[i].Totalled? ==> Stopped(pc) || t.fellBack
    ensures LastOk(c, t)
  {}

  /** A thread other than the driver moves; the one that fell back only if somebody drives. */
  lemma FallbackFrame(c: Config, s: State, t: State, i: nat, pc: Pc)
    requires FallbackOk(c, s) && i < |s.pcs| && t.pcs == s.pcs[i := pc] && |t.status| == |s.status| && s.nextSlice <= t.nextSlice
    requires t.phase == s.phase && t.driver == s.driver && t.drives == s.drives && t.scan == s.scan && t.collected == s.collected
    requires t.fellBack == s.fellBack && t.marker == s.marker && !s.pcs[i].Driving? && FallerOk(t, i)
    requires s.phase == NONE ==> !s.pcs[i].Falling?
    requires s.phase == FAILED ==> !s.pcs[i].Broken?
    requires s.phase == DONE && i == s.driver ==> DriverOk(t, pc)
    ensures FallbackOk(c, t)
  {
    forall j | 0 <= j < |t.pcs| ensures FallerOk(t, j) { assert FallerOk(s, j); }
  }

  lemma RowsFrame(c: Config, s: State, t: State)
    requires RowsOk(c, s) && t.collected == s.collected && t.left == s.left && t.scan == s.scan && t.phase == s.phase && t.handed == s.handed
    ensures RowsOk(c, t)
  {}

  lemma EnterInv(c: Config, s: State, i: nat)
    requires Inv(c, s) && Enabled(c, s, i, Enter)
    ensures Inv(c, Apply(c, s, i, Enter))
  {
    var t := Apply(c, s, i, Enter);
    BucketsFrame(c, s, t, i, t.pcs[i]);
    ReasonsFrame(c, s, t, i, t.pcs[i]);
    LastFrame(c, s, t, i, t.pcs[i]);
    FallbackFrame(c, s, t, i, t.pcs[i]);
    RowsFrame(c, s, t);
  }

  lemma ClaimInv(c: Config, s: State, i: nat)
    requires Inv(c, s) && Enabled(c, s, i, Claim)
    ensures Inv(c, Apply(c, s, i, Claim))
  {
    var t := Apply(c, s, i, Claim);
    DecidingNotDriver(c, s, i);
    if s.nextSlice >= |s.status| {
      BucketsFrame(c, s, t, i, Finished);
    } else {
      ClaimBuckets(c, s, i);
      LostKept(s.status, s.nextSlice, Held(i));
    }
    ReasonsFrame(c, s, t, i, t.pcs[i]);
    LastFrame(c, s, t, i, t.pcs[i]);
    FallbackFrame(c, s, t, i, t.pcs[i]);
    RowsFrame(c, s, t);
  }

  /** A thread still counting is not the one that drove. */
  lemma DecidingNotDriver(c: Config, s: State, i: nat)
    requires Inv(c, s) && i < |s.pcs| && (s.pcs[i].Deciding? || Holding(s.pcs[i]) || s.pcs[i].Totalled? || s.pcs[i].Throwing?)
    ensures s.phase != NONE ==> i != s.driver
  {}

  lemma LostKept(status: seq<Status>, x: nat, v: Status)
    requires x < |status| && !status[x].Lost?
    ensures SomeLost(status) ==> SomeLost(status[x := v])
  {
    if SomeLost(status) {
      var y :| 0 <= y < |status| && status[y].Lost?;
      assert status[x := v][y].Lost?;
    }
  }

  lemma ClaimBuckets(c: Config, s: State, i: nat)
    requires Inv(c, s) && Enabled(c, s, i, Claim) && s.nextSlice < |s.status|
    ensures BucketsOk(c, Apply(c, s, i, Claim)) && s.status[s.nextSlice].Unclaimed?
  {
    var t := Apply(c, s, i, Claim);
    assert StatusOk(s, s.nextSlice);
    TallyChange(c.counts, s.status, s.nextSlice, Held(i));
    forall x | 0 <= x < |t.status| ensures StatusOk(t, x) { assert StatusOk(s, x); }
    forall j | 0 <= j < |t.pcs| ensures HolderOk(c, t, j) { assert HolderOk(c, s, j); }
  }

  lemma ExecuteInv(c: Config, s: State, i: nat, r: Outcome<nat>)
    requires Inv(c, s) && Enabled(c, s, i, Execute(r))
    ensures Inv(c, Apply(c, s, i, Execute(r)))
  {
    var t := Apply(c, s, i, Execute(r));
    DecidingNotDriver(c, s, i);
    forall x | 0 <= x < |t.status| ensures StatusOk(t, x) { assert StatusOk(s, x); }
    forall j | 0 <= j < |t.pcs| ensures HolderOk(c, t, j) { assert HolderOk(c, s, j) && HolderOk(c, s, i); }
    ReasonsFrame(c, s, t, i, t.pcs[i]);
    LastFrame(c, s, t, i, t.pcs[i]);
    FallbackFrame(c, s, t, i, t.pcs[i]);
    RowsFrame(c, s, t);
  }

  /** A bucket given up by the thread that held it. */
  lemma LoseBuckets(c: Config, s: State, i: nat, slice: nat, pc: Pc)
    requires BucketsOk(c, s) && i < |s.pcs| && slice < |s.status| && Holds(s.pcs[i], slice)
    requires Stopped(pc) || (s.fellBack && pc.Falling?)
    ensures BucketsOk(c, Put(s.(status := s.status[slice := Lost(i)]), i, pc))
    ensures s.status[slice] == Held(i)
  {
    var t := Put(s.(status := s.status[slice := Lost(i)]), i, pc);
    assert HolderOk(c, s, i);
    TallyChange(c.counts, s.status, slice, Lost(i));
    forall x | 0 <= x < |t.status| ensures StatusOk(t, x) { assert StatusOk(s, x); }
    forall j | 0 <= j < |t.pcs| ensures HolderOk(c, t, j) { assert HolderOk(c, s, j); }
  }

  lemma LoseInv(c: Config, s: State, i: nat, slice: nat, pc: Pc)
    requires Inv(c, s) && i < |s.pcs| && slice < |s.status| && Holds(s.pcs[i], slice)
    requires Stopped(pc) || (s.fellBack && pc.Falling?)
    ensures Inv(c, Put(s.(status := s.status[slice := Lost(i)]), i, pc))
  {
    var t := Put(s.(status := s.status[slice := Lost(i)]), i, pc);
    LoseBuckets(c, s, i, slice, pc);
    LostKept(s.status, slice, Lost(i));
    assert t.status[slice].Lost?;
    DecidingNotDriver(c, s, i);
    ReasonsFrame(c, s, t, i, pc);
    LastFrame(c, s, t, i, pc);
    FallbackFrame(c, s, t, i, pc);
    RowsFrame(c, s, t);
  }

  /** A bucket counted, its result already in the total or its failure in the error. */
  lemma TickBuckets(c: Config, s: State, u: State, i: nat, slice: nat)
    requires BucketsOk(c, s) && i < |s.pcs| && slice < |s.status| && Holds(s.pcs[i], slice)
    requires u == s.(total := u.total, error := u.error) && (s.error ==> u.error)
    requires !u.error ==> u.total == s.total + c.counts[slice]
    ensures BucketsOk(c, Tick(c, u, i, slice)) && s.status[slice] == Held(i) && s.completed < Slices(c)
  {
    hide TallyCount, TallySum;
    var t := Tick(c, u, i, slice);
    assert HolderOk(c, s, i);
    TallyChange(c.counts, s.status, slice, Tallied);
    TallyAll(c.counts, t.status);
    forall x | 0 <= x < |t.status| ensures StatusOk(t, x) { assert StatusOk(s, x); }
    forall j | 0 <= j < |t.pcs| ensures HolderOk(c, t, j) { assert HolderOk(c, s, j); }
  }

  lemma TickInv(c: Config, s: State, u: State, i: nat, slice: nat)
    requires Inv(c, s) && i < |s.pcs| && slice < |s.status| && Holds(s.pcs[i], slice)
    requires u == s.(total := u.total, error := u.error) && (s.error ==> u.error) && !s.fellBack
    requires !u.error ==> u.total == s.total + c.counts[slice]
    ensures Inv(c, Tick(c, u, i, slice))
  {
    var t := Tick(c, u, i, slice);
    TickBuckets(c, s, u, i, slice);
    LostKept(s.status, slice, Tallied);
    DecidingNotDriver(c, s, i);
    ReasonsFrame(c, s, t, i, t.pcs[i]);
    assert LastOk(c, t);
    FallbackFrame(c, s, t, i, t.pcs[i]);
    RowsFrame(c, s, t);
  }

  lemma TallyInv(c: Config, s: State, i: nat)
    requires Inv(c, s) && Enabled(c, s, i, Tally)
    ensures Inv(c, Apply(c, s, i, Tally))
  {
    var slice, r := s.pcs[i].slice, s.pcs[i].result;
    assert HolderOk(c, s, i);
    if s.fellBack {
      LoseInv(c, s, i, slice, Falling);
    } else if r.Failed? {
      TickInv(c, s, s.(error := true), i, slice);
    } else if s.error {
      TickInv(c, s, s, i, slice);
    } else if Plus(s.total, r.value).Failed? {
      LoseInv(c, s, i, slice, Throwing);
    } else {
      TickInv(c, s, s.(total := s.total + r.value), i, slice);
    }
  }

  /** With every bucket counted none is lost. */
  lemma NoneLost(c: Config, s: State)
    requires Inv(c, s) && s.completed == Slices(c)
    ensures (forall x :: 0 <= x < |s.status| ==> s.status[x].Tallied?) && (!s.error ==> s.total == Sum(c.counts) && !Trouble(c, s))
  {
    TallyAll(c.counts, s.status);
  }

  lemma EmitInv(c: Config, s: State, i: nat)
    requires Inv(c, s) && Enabled(c, s, i, Emit)
    ensures Inv(c, Apply(c, s, i, Emit))
  {
    var t := Apply(c, s, i, Emit);
    DecidingNotDriver(c, s, i);
    NoneLost(c, s);
    BucketsFrame(c, s, t, i, t.pcs[i]);
    ReasonsFrame(c, s, t, i, t.pcs[i]);
    assert LastOk(c, t);
    FallbackFrame(c, s, t, i, t.pcs[i]);
    RowsFrame(c, s, t);
  }

  lemma CatchInv(c: Config, s: State, i: nat, fatal: bool)
    requires Inv(c, s) && Enabled(c, s, i, Catch(fatal))
    ensures Inv(c, Apply(c, s, i, Catch(fatal)))
  {
    var t := Apply(c, s, i, Catch(fatal));
    assert ReasonOk(c, s, s.pcs[i]);
    DecidingNotDriver(c, s, i);
    BucketsFrame(c, s, t, i, t.pcs[i]);
    ReasonsFrame(c, s, t, i, t.pcs[i]);
    LastFrame(c, s, t, i, t.pcs[i]);
    forall j | 0 <= j < |t.pcs| ensures FallerOk(t, j) { assert FallerOk(s, j); }
    RowsFrame(c, s, t);
  }

  lemma FallInv(c: Config, s: State, i: nat)
    requires Inv(c, s) && Enabled(c, s, i, Fall)
    ensures Inv(c, Apply(c, s, i, Fall))
  {
    var t := Apply(c, s, i, Fall);
    assert ReasonOk(c, s, s.pcs[i]);
    BucketsFrame(c, s, t, i, t.pcs[i]);
    ReasonsFrame(c, s, t, i, t.pcs[i]);
    LastFrame(c, s, t, i, t.pcs[i]);
    if s.phase == NONE {
      forall j | 0 <= j < |t.pcs| ensures FallerOk(t, j) { assert FallerOk(s, j); }
    } else {
      FallbackFrame(c, s, t, i, t.pcs[i]);
      RowsFrame(c, s, t);
    }
  }

  lemma ProduceInv(c: Config, s: State, i: nat, row: Row)
    requires Inv(c, s) && Enabled(c, s, i, Produce(row))
    ensures Inv(c, Apply(c, s, i, Produce(row)))
  {
    var t := Apply(c, s, i, Produce(row));
    forall x | 0 <= x < |t.status| ensures StatusOk(t, x) { assert StatusOk(s, x); }
    forall j | 0 <= j < |t.pcs| ensures HolderOk(c, t, j) && FallerOk(t, j) { assert HolderOk(c, s, j) && FallerOk(s, j); }
    ReasonsFrame(c, s, t, i, t.pcs[i]);
    assert multiset(t.collected) + t.left == multiset(s.collected) + s.left;
  }

  lemma CompleteInv(c: Config, s: State, i: nat)
    requires Inv(c, s) && Enabled(c, s, i, Complete)
    ensures Inv(c, Apply(c, s, i, Complete))
  {
    var t := Apply(c, s, i, Complete);
    assert FallerOk(s, i);
    BucketsFrame(c, s, t, i, t.pcs[i]);
    ReasonsFrame(c, s, t, i, t.pcs[i]);
    LastFrame(c, s, t, i, t.pcs[i]);
    forall j | 0 <= j < |t.pcs| ensures FallerOk(t, j) { assert FallerOk(s, j); }
  }

  lemma FailInv(c: Config, s: State, i: nat)
    requires Inv(c, s) && Enabled(c, s, i, Fail)
    ensures Inv(c, Apply(c, s, i, Fail))
  {
    var t := Apply(c, s, i, Fail);
    assert FallerOk(s, i) && ReasonOk(c, s, s.pcs[i]);
    BucketsFrame(c, s, t, i, t.pcs[i]);
    ReasonsFrame(c, s, t, i, t.pcs[i]);
    LastFrame(c, s, t, i, t.pcs[i]);
    forall j | 0 <= j < |t.pcs| ensures FallerOk(t, j) { assert FallerOk(s, j); }
  }

  lemma LeaveInv(c: Config, s: State, i: nat)
    requires Inv(c, s) && Enabled(c, s, i, Leave)
    ensures Inv(c, Apply(c, s, i, Leave))
  {
    var t := Apply(c, s, i, Leave);
    assert FallerOk(s, i) && ReasonOk(c, s, s.pcs[i]);
    BucketsFrame(c, s, t, i, t.pcs[i]);
    ReasonsFrame(c, s, t, i, t.pcs[i]);
    LastFrame(c, s, t, i, t.pcs[i]);
    FallbackFrame(c, s, t, i, t.pcs[i]);
    RowsFrame(c, s, t);
  }

  lemma HandInv(c: Config, s: State, i: nat, n: nat)
    requires Inv(c, s) && Enabled(c, s, i, Hand(n))
    ensures Inv(c, Apply(c, s, i, Hand(n)))
  {
    var t := Apply(c, s, i, Hand(n));
    assert FallerOk(s, i) && ReasonOk(c, s, s.pcs[i]);
    BucketsFrame(c, s, t, i, t.pcs[i]);
    ReasonsFrame(c, s, t, i, t.pcs[i]);
    LastFrame(c, s, t, i, t.pcs[i]);
    HandRows(c, s, i, n);
    HandFallback(c, s, i, n);
  }

  lemma HandRows(c: Config, s: State, i: nat, n: nat)
    requires RowsOk(c, s) && Enabled(c, s, i, Hand(n))
    ensures RowsOk(c, Apply(c, s, i, Hand(n)))
  {
    if s.scan.At? && s.scan.position < |s.collected| {
      var p := s.scan.position;
      assert s.collected[..p] + s.collected[p..p + n] == s.collected[..p + n];
    }
  }

  lemma HandFallback(c: Config, s: State, i: nat, n: nat)
    requires FallbackOk(c, s) && RowsOk(c, s) && Enabled(c, s, i, Hand(n))
    ensures FallbackOk(c, Apply(c, s, i, Hand(n)))
  {
    var t := Apply(c, s, i, Hand(n));
    assert FallerOk(s, i);
    forall j | 0 <= j < |t.pcs| ensures FallerOk(t, j) { assert FallerOk(s, j); }
  }

  /** The invariant holds after every step. */
  lemma StepInv(c: Config, s: State, i: nat, step: Step)
    requires Inv(c, s) && Enabled(c, s, i, step)
    ensures Inv(c, Apply(c, s, i, step))
  {
    hide Inv, Enabled, Apply;
    match step
    case Enter => EnterInv(c, s, i);
    case Claim => ClaimInv(c, s, i);
    case Execute(r) => ExecuteInv(c, s, i, r);
    case Throw => ThrowInv(c, s, i);
    case Tally => TallyInv(c, s, i);
    case Emit => EmitInv(c, s, i);
    case Catch(fatal) => CatchInv(c, s, i, fatal);
    case Fall => FallInv(c, s, i);
    case Produce(row) => ProduceInv(c, s, i, row);
    case Complete => CompleteInv(c, s, i);
    case Fail => FailInv(c, s, i);
    case Leave => LeaveInv(c, s, i);
    case Hand(n) => HandInv(c, s, i, n);
  }

  lemma ThrowInv(c: Config, s: State, i: nat)
    requires Inv(c, s) && Enabled(c, s, i, Throw)
    ensures Inv(c, Apply(c, s, i, Throw))
  {
    LoseInv(c, s, i, s.pcs[i].slice, Throwing);
  }

  //
  // Whole runs
  //

  ghost predicate IsRun(c: Config, run: seq<State>) {
    run != [] && Init(c, run[0]) && forall k: nat :: k + 1 < |run| ==> Follows(c, run, k)
  }

  ghost predicate Follows(c: Config, run: seq<State>, k: nat)
    requires k + 1 < |run|
  {
    Next(c, run[k], run[k + 1])
  }

  lemma {:induction false} RunInv(c: Config, run: seq<State>, k: nat)
    requires IsRun(c, run) && k < |run| && Slices(c) > 0
    ensures Inv(c, run[k])
  {
    hide Init, Inv, Enabled, Apply;
    if k == 0 {
      InitInv(c, run[0]);
    } else {
      RunInv(c, run, k - 1);
      assert Follows(c, run, k - 1);
      var i: nat, step: Step :| Enabled(c, run[k - 1], i, step) && run[k] == Apply(c, run[k - 1], i, step);
      StepInv(c, run[k - 1], i, step);
    }
  }

  /** Either the sum of all buckets, once, or rows of the replaced plan, each once; never both. */
  ghost predicate OneAnswer(c: Config, s: State) {
    && (s.emitted == [] || (s.emitted == [Sum(c.counts)] && s.handed == [] && !s.fellBack))
    && multiset(s.handed) <= c.stock
  }

  /** At most one thread ever drives the replaced plan, and nobody scans before it has ended. */
  ghost predicate OneDriver(s: State) {
    && s.drives <= 1
    && (forall i, j :: 0 <= i < |s.pcs| && 0 <= j < |s.pcs| && s.pcs[i].Driving? && s.pcs[j].Driving? ==> i == j)
    && forall i :: 0 <= i < |s.pcs| && s.pcs[i].Scanning? ==> s.phase == DONE || s.phase == FAILED
  }

  lemma HandedOnce(c: Config, s: State)
    requires RowsOk(c, s)
    ensures multiset(s.handed) <= c.stock && |s.handed| <= |c.stock|
  {
    if s.scan.At? { PrefixWithin(s.collected, s.scan.position); }
    WithinSize(multiset(s.handed), c.stock);
  }

  lemma PrefixWithin<T>(a: seq<T>, p: nat)
    requires p <= |a|
    ensures multiset(a[..p]) <= multiset(a)
  {
    assert a == a[..p] + a[p..];
  }

  lemma WithinSize<T>(a: multiset<T>, b: multiset<T>)
    requires a <= b
    ensures |a| <= |b|
  {
    assert b == a + (b - a);
  }

  lemma InvIsSafe(c: Config, s: State)
    requires Inv(c, s)
    ensures OneAnswer(c, s) && OneDriver(s)
  {
    HandedOnce(c, s);
    if s.emitted != [] { NoneLost(c, s); }
    DriversAlone(c, s);
  }

  lemma DriversAlone(c: Config, s: State)
    requires FallbackOk(c, s)
    ensures OneDriver(s)
  {
    forall i, j | 0 <= i < |s.pcs| && 0 <= j < |s.pcs| && s.pcs[i].Driving? && s.pcs[j].Driving? ensures i == j {
      assert FallerOk(s, i) && FallerOk(s, j);
    }
    forall i | 0 <= i < |s.pcs| && s.pcs[i].Scanning? ensures s.phase == DONE || s.phase == FAILED { assert FallerOk(s, i); }
  }

  /** Safety, in every state of every interleaving. */
  lemma AnswersOnce(c: Config, run: seq<State>, k: nat)
    requires IsRun(c, run) && k < |run| && Slices(c) > 0
    ensures OneAnswer(c, run[k]) && OneDriver(run[k])
  {
    RunInv(c, run, k);
    InvIsSafe(c, run[k]);
  }

  predicate Over(s: State) {
    forall i :: 0 <= i < |s.pcs| ==> s.pcs[i].Finished?
  }

  lemma OverIsWhole(c: Config, s: State)
    requires Inv(c, s) && Over(s)
    ensures s.emitted == [Sum(c.counts)] || multiset(s.handed) == c.stock
  {
    if s.fellBack {
      assert s.phase == DONE;
      assert s.collected[..|s.collected|] == s.collected;
    } else {
      assert FallerOk(s, 0);
      forall x | 0 <= x < |s.status| ensures s.status[x].Tallied? {
        assert StatusOk(s, x);
      }
      TallyAll(c.counts, s.status);
    }
  }

  /** When every thread has finished without an error, the answer given is a whole one: the sum
      of all buckets, or all rows of the replaced plan. */
  lemma WholeAnswer(c: Config, run: seq<State>, k: nat)
    requires IsRun(c, run) && k < |run| && Slices(c) > 0 && Over(run[k])
    ensures var s := run[k];
      || (s.emitted == [Sum(c.counts)] && s.handed == [])
      || (s.emitted == [] && multiset(s.handed) == c.stock)
  {
    RunInv(c, run, k);
    InvIsSafe(c, run[k]);
    OverIsWhole(c, run[k]);
  }

  //
  // Progress
  //

  predicate AtRest(pc: Pc) {
    pc.Finished? || pc.Broken?
  }

  /** A step in which nothing goes wrong: no bucket and no producer fails. */
  predicate Smooth(step: Step) {
    !step.Throw? && !step.Fail? && (step.Execute? ==> step.result.Ok?) && (step.Catch? ==> !step.fatal)
  }

  predicate CanMove(c: Config, s: State, i: nat, step: Step) {
    Enabled(c, s, i, step) && Smooth(step)
  }

  /** The driver can always go on, with a row or with the end. */
  lemma DriverMoves(c: Config, s: State, i: nat) returns (step: Step)
    requires i < |s.pcs| && s.pcs[i].Driving? && s.phase == RUNNING
    ensures CanMove(c, s, i, step)
  {
    if s.left == multiset{} {
      step := Complete;
    } else {
      var row :| row in s.left;
      step := Produce(row);
    }
  }

  /** As long as some thread is not at rest some thread can move without anything going wrong:
      helpers wait only for a driver that can. */
  lemma SomeoneMoves(c: Config, s: State, i: nat) returns (j: nat, step: Step)
    requires Inv(c, s) && i < |s.pcs| && !AtRest(s.pcs[i])
    ensures CanMove(c, s, j, step)
  {
    assert HolderOk(c, s, i) && FallerOk(s, i);
    j := i;
    match s.pcs[i]
    case Outside => step := Enter;
    case Deciding => step := Claim;
    case Counting(slice) => step := Execute(Ok(c.counts[slice]));
    case Counted(_, _) => step := Tally;
    case Totalled => step := Emit;
    case Throwing => step := Catch(false);
    case Falling => step := Fall;
    case Driving => step := DriverMoves(c, s, i);
    case Helping =>
      if s.phase == RUNNING {
        j := s.driver;
        step := DriverMoves(c, s, j);
      } else {
        step := Leave;
      }
    case Scanning =>
      step := Hand(if s.scan.At? && s.scan.position < |s.collected| then 1 else 0);
  }

  function Rank(pc: Pc): nat {
    match pc
    case Outside => 10
    case Deciding => 9
    case Counting(_) => 24
    case Counted(_, _) => 23
    case Totalled => 22
    case Throwing => 21
    case Falling => 8
    case Driving => 7
    case Helping => 7
    case Scanning => 6
    case Finished => 0
    case Broken => 0
  }

  function Ranks(pcs: seq<Pc>): nat {
    if pcs == [] then 0 else Rank(pcs[0]) + Ranks(pcs[1..])
  }

  lemma {:induction false} RanksPut(pcs: seq<Pc>, i: nat, pc: Pc)
    requires i < |pcs|
    ensures Ranks(pcs[i := pc]) + Rank(pcs[i]) == Ranks(pcs) + Rank(pc)
  {
    if i == 0 {
      assert pcs[0 := pc][1..] == pcs[1..];
    } else {
      assert pcs[i := pc][1..] == pcs[1..][i - 1 := pc];
      RanksPut(pcs[1..], i - 1, pc);
    }
  }

  function ToClaim(c: Config, s: State): nat {
    if s.nextSlice < Slices(c) then Slices(c) - s.nextSlice else 0
  }

  /** How much is left to do. */
  function Work(c: Config, s: State): int {
    Ranks(s.pcs) + 20 * ToClaim(c, s) + 20 * (|c.stock| - |s.handed|) + |s.left|
  }

  /** A thread moves on and nothing is claimed, produced or handed out. */
  lemma RankFalls(c: Config, s: State, t: State, i: nat, pc: Pc)
    requires i < |s.pcs| && t.pcs == s.pcs[i := pc] && Rank(pc) < Rank(s.pcs[i])
    requires s.nextSlice <= t.nextSlice && |t.handed| == |s.handed| && |t.left| == |s.left|
    ensures Work(c, t) < Work(c, s)
  {
    RanksPut(s.pcs, i, pc);
  }

  ghost predicate Moves(s: State, t: State, i: nat) {
    i < |s.pcs| && i < |t.pcs| && t.pcs == s.pcs[i := t.pcs[i]] && Rank(t.pcs[i]) < Rank(s.pcs[i])
    && s.nextSlice <= t.nextSlice && t.handed == s.handed && t.left == s.left
  }

  /** Every step leaves less to do. */
  lemma StepWorks(c: Config, s: State, i: nat, step: Step)
    requires Inv(c, s) && Enabled(c, s, i, step)
    ensures Work(c, Apply(c, s, i, step)) < Work(c, s)
  {
    assert |s.status| == Slices(c);
    hide Inv, Ranks, Work;
    var t := Apply(c, s, i, step);
    match step
    case Claim => ClaimWorks(c, s, i);
    case Produce(row) => ProduceWorks(c, s, i, row);
    case Hand(n) => HandWorks(c, s, i, n);
    case Tally =>
      TallyMoves(c, s, i);
      RankFalls(c, s, t, i, t.pcs[i]);
    case Catch(fatal) =>
      assert Moves(s, Apply(c, s, i, Catch(fatal)), i);
      RankFalls(c, s, t, i, t.pcs[i]);
    case Execute(r) =>
      assert Moves(s, Apply(c, s, i, Execute(r)), i);
      RankFalls(c, s, t, i, t.pcs[i]);
    case _ =>
      OthersMove(c, s, i, step);
      RankFalls(c, s, t, i, t.pcs[i]);
  }

  lemma OthersMove(c: Config, s: State, i: nat, step: Step)
    requires Enabled(c, s, i, step) && (step.Enter? || step.Throw? || step.Emit? || step.Fall? || step.Complete? || step.Fail? || step.Leave?)
    ensures Moves(s, Apply(c, s, i, step), i)
  {}

  lemma TallyMoves(c: Config, s: State, i: nat)
    requires Enabled(c, s, i, Tally)
    ensures Moves(s, Apply(c, s, i, Tally), i)
  {}

  lemma ProduceWorks(c: Config, s: State, i: nat, row: Row)
    requires Enabled(c, s, i, Produce(row))
    ensures Work(c, Apply(c, s, i, Produce(row))) < Work(c, s)
  {
    assert |s.left - multiset{row}| == |s.left| - 1;
  }

  /** A thread moves on and a bucket is claimed or a row handed out. */
  lemma WorkFalls(c: Config, s: State, t: State, i: nat, pc: Pc)
    requires i < |s.pcs| && t.pcs == s.pcs[i := pc] && Rank(pc) < Rank(s.pcs[i]) + 20 && |t.left| == |s.left|
    requires (ToClaim(c, t) < ToClaim(c, s) && |t.handed| == |s.handed|) || (ToClaim(c, t) == ToClaim(c, s) && |t.handed| > |s.handed|)
    ensures Work(c, t) < Work(c, s)
  {
    hide Ranks;
    RanksPut(s.pcs, i, pc);
  }

  lemma ClaimWorks(c: Config, s: State, i: nat)
    requires |s.status| == Slices(c) && Enabled(c, s, i, Claim)
    ensures Work(c, Apply(c, s, i, Claim)) < Work(c, s)
  {
    hide Ranks, Work;
    var t := Apply(c, s, i, Claim);
    if s.nextSlice >= Slices(c) {
      RankFalls(c, s, t, i, Finished);
    } else {
      WorkFalls(c, s, t, i, Counting(s.nextSlice));
    }
  }

  lemma HandWorks(c: Config, s: State, i: nat, n: nat)
    requires Enabled(c, s, i, Hand(n))
    ensures Work(c, Apply(c, s, i, Hand(n))) < Work(c, s)
  {
    hide Ranks, Work;
    var t := Apply(c, s, i, Hand(n));
    if s.scan.NoScan? || s.scan.position == |s.collected| {
      RankFalls(c, s, t, i, Finished);
    } else {
      WorkFalls(c, s, t, i, Outside);
    }
  }

  lemma {:induction false} WorkBounds(c: Config, run: seq<State>, k: nat)
    requires IsRun(c, run) && k < |run| && Slices(c) > 0
    ensures 0 <= Work(c, run[k]) && Work(c, run[k]) + k <= Work(c, run[0])
  {
    hide Inv, Init, Work, Enabled, Apply;
    RunInv(c, run, k);
    WorkPositive(c, run[k]);
    if k > 0 {
      WorkBounds(c, run, k - 1);
      RunInv(c, run, k - 1);
      assert Follows(c, run, k - 1);
      var i: nat, step: Step :| Enabled(c, run[k - 1], i, step) && run[k] == Apply(c, run[k - 1], i, step);
      StepWorks(c, run[k - 1], i, step);
    }
  }

  lemma WorkPositive(c: Config, s: State)
    requires Inv(c, s)
    ensures Work(c, s) >= 0
  {
    HandedOnce(c, s);
  }

  lemma {:induction false} RanksOutside(pcs: seq<Pc>)
    requires forall i :: 0 <= i < |pcs| ==> pcs[i].Outside?
    ensures Ranks(pcs) == 10 * |pcs|
  {
    if pcs != [] { RanksOutside(pcs[1..]); }
  }

  /** Every run ends, however the threads are scheduled: its length is bounded by the threads,
      the buckets and the rows. With `SomeoneMoves`, a run that cannot go on has every thread at
      rest. */
  lemma RunsEnd(c: Config, run: seq<State>)
    requires IsRun(c, run) && Slices(c) > 0
    ensures |run| <= 10 * |run[0].pcs| + 20 * Slices(c) + 21 * |c.stock| + 1
  {
    WorkBounds(c, run, |run| - 1);
    RanksOutside(run[0].pcs);
  }

  predicate NobodyBroken(s: State) {
    forall i :: 0 <= i < |s.pcs| ==> !s.pcs[i].Broken?
  }

  /** One step after the other, from `s`, none of them going wrong. */
  ghost predicate Goes(c: Config, run: seq<State>, s: State) {
    run != [] && run[0] == s && forall k: nat :: k + 1 < |run| ==> GoesOn(c, run, k)
  }

  ghost predicate GoesOn(c: Config, run: seq<State>, k: nat)
    requires k + 1 < |run|
  {
    exists i: nat, step: Step :: CanMove(c, run[k], i, step) && run[k + 1] == Apply(c, run[k], i, step)
  }

  /** A step in which nothing goes wrong breaks nobody while there is a plan to fall back to. */
  lemma SmoothBreaksNobody(c: Config, s: State, i: nat, step: Step)
    requires c.recoverable && NobodyBroken(s) && CanMove(c, s, i, step)
    ensures NobodyBroken(Apply(c, s, i, step))
  {}

  lemma GoesFirst(c: Config, s: State, i: nat, step: Step, rest: seq<State>)
    requires CanMove(c, s, i, step) && Goes(c, rest, Apply(c, s, i, step))
    ensures Goes(c, [s] + rest, s)
  {
    hide CanMove, Apply;
    var run := [s] + rest;
    forall k: nat | k + 1 < |run| ensures GoesOn(c, run, k) {
      if k == 0 {
        assert run[0] == s && run[1] == rest[0];
      } else {
        assert GoesOn(c, rest, k - 1) && run[k] == rest[k - 1] && run[k + 1] == rest[k];
      }
    }
  }

  /** From wherever the threads stand, they can all finish; what failed before is made good by the
      replaced plan, and the answer is a whole one. */
  lemma {:induction false} CanFinish(c: Config, s: State) returns (run: seq<State>)
    requires c.recoverable && Inv(c, s) && NobodyBroken(s)
    ensures Goes(c, run, s) && Inv(c, run[|run| - 1]) && Over(run[|run| - 1])
    ensures run[|run| - 1].emitted == [Sum(c.counts)] || multiset(run[|run| - 1].handed) == c.stock
    decreases Work(c, s)
  {
    hide Inv, Work, Enabled, Apply;
    if Over(s) {
      OverIsWhole(c, s);
      run := [s];
    } else {
      var i :| 0 <= i < |s.pcs| && !s.pcs[i].Finished?;
      var j, step := SomeoneMoves(c, s, i);
      StepInv(c, s, j, step);
      StepWorks(c, s, j, step);
      SmoothBreaksNobody(c, s, j, step);
      WorkPositive(c, s);
      var rest := CanFinish(c, Apply(c, s, j, step));
      GoesFirst(c, s, j, step, rest);
      run := [s] + rest;
    }
  }
}
