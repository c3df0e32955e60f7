/** The upper side of a join as it runs: output records are built under the flattening context,
    and every record at the insertion level is either matched at once or entered into a hash
    table that points back at it. */
module UpperMethods {
  import opened Bags
  import opened FReps
  import opened FTrees
  import opened Flattening
  import opened Reordering
  import opened Restructuring
  import opened FlatJoins
  import opened Joins
  import opened Instances
  import opened CountJoins
  import opened Outcomes
  import opened Ranges
  import opened SqlJoins
  import opened LowerMethods
  import opened HashTables

  //
  // Output records with a slot that is filled later
  //

  /** A record of the output. One at the insertion level has an address, under which the lower
      records inserted below it are kept. */
  datatype Part = Part(vals: Tuple, weight: nat, slots: seq<Parts>, address: Option<nat>)

  datatype Parts = Parts(parts: seq<Part>)

  type Fill = (Tuple, nat) -> seq<Rec>

  /** The record as a reader of the output sees it. */
  function Assembled(p: Part, fill: Fill): Rec
    decreases p
  {
    Rec(p.vals, p.weight, AssembledSlots(p.slots, fill)
                          + if p.address.Some? then [Slot(fill(p.vals, p.address.value))] else [])
  }

  function AssembledSlots(slots: seq<Parts>, fill: Fill): (s: seq<Slot>)
    ensures |s| == |slots| && forall i :: 0 <= i < |slots| ==> s[i] == Slot(AssembledAll(slots[i].parts, fill))
    decreases slots
  {
    if slots == [] then [] else [Slot(AssembledAll(slots[0].parts, fill))] + AssembledSlots(slots[1..], fill)
  }

  function AssembledAll(ps: seq<Part>, fill: Fill): seq<Rec>
    decreases ps
  {
    if ps == [] then [] else [Assembled(ps[0], fill)] + AssembledAll(ps[1..], fill)
  }

  lemma AssembledAppend(a: seq<Part>, b: seq<Part>, fill: Fill)
    ensures AssembledAll(a + b, fill) == AssembledAll(a, fill) + AssembledAll(b, fill)
  {
    if a == [] {
      assert a + b == b;
    } else {
      assert (a + b)[1..] == a[1..] + b;
      AssembledAppend(a[1..], b, fill);
    }
  }

  function FromStore(attached: seq<seq<Rec>>): Fill {
    (t: Tuple, h: nat) => if h < |attached| then attached[h] else []
  }

  function FromAnswer(ka: seq<Attr>, answer: seq<int> -> seq<Rec>): Fill {
    (t: Tuple, h: nat) => answer(KeyOf(t, ka))
  }

  /** The upper side of one join: its insertion node's key columns and their types. */
  datatype Upper = Upper(keys: seq<Attr>, types: Types)

  /** The address is in use, for a record with this key. */
  ghost predicate Addressed(t: Tuple, h: nat, keys: seq<nat>, up: Upper) {
    h < |keys| && keys[h] == PackKey(up.types, up.keys, KeyOf(t, up.keys))
  }

  ghost predicate Registered(p: Part, keys: seq<nat>, up: Upper)
    decreases p
  {
    && (p.address.Some? ==> Addressed(p.vals, p.address.value, keys, up))
    && forall i, q :: 0 <= i < |p.slots| && q in p.slots[i].parts ==> Registered(q, keys, up)
  }

  ghost predicate RegisteredAll(ps: seq<Part>, keys: seq<nat>, up: Upper) {
    forall q :: q in ps ==> Registered(q, keys, up)
  }

  lemma RegisteredGrows(p: Part, keys: seq<nat>, more: seq<nat>, up: Upper)
    requires Registered(p, keys, up) && keys <= more
    ensures Registered(p, more, up)
    decreases p
  {
    forall i, q | 0 <= i < |p.slots| && q in p.slots[i].parts ensures Registered(q, more, up) {
      RegisteredGrows(q, keys, more, up);
    }
  }

  lemma RegisteredAllGrows(ps: seq<Part>, keys: seq<nat>, more: seq<nat>, up: Upper)
    requires RegisteredAll(ps, keys, up) && keys <= more
    ensures RegisteredAll(ps, more, up)
  {
    forall q | q in ps ensures Registered(q, more, up) { RegisteredGrows(q, keys, more, up); }
  }

  /** Reading the store and asking for the key show the same records. */
  lemma {:induction false} AssembledSame(p: Part, keys: seq<nat>, up: Upper, f: Fill, g: Fill)
    requires Registered(p, keys, up)
    requires forall t, h :: Addressed(t, h, keys, up) ==> f(t, h) == g(t, h)
    ensures Assembled(p, f) == Assembled(p, g)
    decreases p
  {
    AssembledSlotsSame(p.slots, keys, up, f, g);
  }

  lemma {:induction false} AssembledSlotsSame(slots: seq<Parts>, keys: seq<nat>, up: Upper, f: Fill, g: Fill)
    requires forall i, q :: 0 <= i < |slots| && q in slots[i].parts ==> Registered(q, keys, up)
    requires forall t, h :: Addressed(t, h, keys, up) ==> f(t, h) == g(t, h)
    ensures AssembledSlots(slots, f) == AssembledSlots(slots, g)
    decreases slots
  {
    if slots != [] {
      AssembledAllSame(slots[0].parts, keys, up, f, g);
      AssembledSlotsSame(slots[1..], keys, up, f, g);
    }
  }

  lemma {:induction false} AssembledAllSame(ps: seq<Part>, keys: seq<nat>, up: Upper, f: Fill, g: Fill)
    requires RegisteredAll(ps, keys, up)
    requires forall t, h :: Addressed(t, h, keys, up) ==> f(t, h) == g(t, h)
    ensures AssembledAll(ps, f) == AssembledAll(ps, g)
    decreases ps
  {
    if ps != [] {
      AssembledSame(ps[0], keys, up, f, g);
      AssembledAllSame(ps[1..], keys, up, f, g);
    }
  }

  //
  // What the upper side builds
  //

  function JoinOr(roots: seq<Rec>, c: Ctx, n: FNode, ins: Option<Path>, ka: seq<Attr>, answer: seq<int> -> seq<Rec>): Rec {
    if ins.Some? then JoinNode(roots, c, n, ins.value, ka, answer) else MatNode(roots, c, n)
  }

  function JoinAt(roots: seq<Rec>, n: FNode, ins: Option<Path>, ka: seq<Attr>, answer: seq<int> -> seq<Rec>): Ctx -> Rec {
    c => JoinOr(roots, c, n, ins, ka, answer)
  }

  function JoinLoop(roots: seq<Rec>, c: Ctx, n: FNode, ins: Option<Path>, ka: seq<Attr>, answer: seq<int> -> seq<Rec>): seq<Rec> {
    IterThen(roots, c, n.sources[0..], One(JoinAt(roots, n, ins, ka, answer)))
  }

  lemma JoinLoopIs(roots: seq<Rec>, c: Ctx, n: FNode, ins: Option<Path>, ka: seq<Attr>, answer: seq<int> -> seq<Rec>)
    ensures JoinLoop(roots, c, n, ins, ka, answer)
         == if ins.Some? then JoinAll(roots, c, n, ins.value, ka, answer) else MatAll(roots, c, n)
  {
    var iter := Iter(roots, c, n.sources);
    assert n.sources[0..] == n.sources;
    if ins.Some? {
      FlatMapSame(iter, d => [JoinNode(roots, d, n, ins.value, ka, answer)], One(JoinAt(roots, n, ins, ka, answer)));
    } else {
      FlatMapSame(iter, d => [MatNode(roots, d, n)], One(JoinAt(roots, n, ins, ka, answer)));
    }
  }

  /** Slot by slot, the insertion node's extra slot last. */
  lemma JoinSlots(roots: seq<Rec>, c: Ctx, n: FNode, ins: Option<Path>, ka: seq<Attr>, answer: seq<int> -> seq<Rec>)
    requires ins.Some? ==> NodeAt(n, ins.value).Some?
    ensures var r := JoinOr(roots, c, n, ins, ka, answer);
            && r.vals == ValsOf(c, n.sources) && r.weight == WeightOf(c, n.sources)
            && |r.slots| == |n.children| + (if ins == Some([]) then 1 else 0)
            && (forall i :: 0 <= i < |n.children| ==>
                  r.slots[i] == Slot(JoinLoop(roots, c, n.children[i], Towards(ins, i), ka, answer)))
            && (ins == Some([]) ==> r.slots[|n.children|] == Slot(answer(KeyOf(r.vals, ka))))
  {
    forall i | 0 <= i < |n.children|
      ensures JoinOr(roots, c, n, ins, ka, answer).slots[i]
           == Slot(JoinLoop(roots, c, n.children[i], Towards(ins, i), ka, answer))
    {
      MatChildrenAt(roots, c, n.children, i);
      JoinLoopIs(roots, c, n.children[i], Towards(ins, i), ka, answer);
    }
  }

  /** The situation of the upper walk: input of the shape of `t`, and the key columns at the
      insertion node. */
  ghost predicate Fits(up: Upper, t: FNode, roots: seq<Rec>, c: Ctx, n: FNode, ins: Option<Path>) {
    ConformsAll(roots, t) && Typed(c, t) && Sourced(t, n) && KeysBelow(n, ins, up.keys)
  }

  lemma FitsBind(up: Upper, t: FNode, roots: seq<Rec>, c: Ctx, n: FNode, ins: Option<Path>, v: Path, r: Rec)
    requires Fits(up, t, roots, c, n, ins) && r in Cands(roots, c, v)
    ensures Fits(up, t, roots, c[v := r], n, ins)
  {
    CandsTyped(roots, c, t, v);
  }

  lemma FitsInsertion(up: Upper, t: FNode, roots: seq<Rec>, c: Ctx, n: FNode, ins: Option<Path>)
    requires Fits(up, t, roots, c, n, ins)
    ensures ins.Some? ==> NodeAt(n, ins.value).Some?
  {}

  lemma CandsAgree(roots: seq<Rec>, c: Ctx, d: Ctx, v: Path, bound: set<Path>)
    requires AgreeOn(c, d, bound) && (v == [] || Parent(v) in bound)
    ensures Cands(roots, c, v) == Cands(roots, d, v)
  {}

  lemma FitsChild(up: Upper, t: FNode, roots: seq<Rec>, c: Ctx, n: FNode, ins: Option<Path>, i: nat)
    requires Fits(up, t, roots, c, n, ins) && i < |n.children|
    ensures Fits(up, t, roots, c, n.children[i], Towards(ins, i))
  {
    SourcedChild(t, n.children, i);
  }

  //
  // Replaying snapshots
  //

  function Replays(roots: seq<Rec>, ds: seq<Ctx>, low: Lower): (rs: seq<Rec>)
    ensures |rs| == |ds| && forall i :: 0 <= i < |ds| ==> rs[i] == LowerNode(roots, ds[i], low.tree, low.kp)
  {
    seq(|ds|, i requires 0 <= i < |ds| => LowerNode(roots, ds[i], low.tree, low.kp))
  }

  /** An instance depends on the records of the key path alone. */
  lemma {:induction false} LowerFrame(roots: seq<Rec>, a: Ctx, b: Ctx, n: FNode, kp: Option<Path>, bound: set<Path>)
    requires LowerPlaced(n, kp, bound) && AgreeOn(a, b, bound)
    ensures LowerOr(roots, a, n, kp) == LowerOr(roots, b, n, kp)
    decreases n
  {
    ValsFrame(a, b, n.sources);
    LowerSlots(roots, a, n, kp);
    LowerSlots(roots, b, n, kp);
    forall i | 0 <= i < |n.children| ensures LowerSlot(roots, a, n, kp, i) == LowerSlot(roots, b, n, kp, i) {
      if Towards(kp, i).Some? {
        LowerFrame(roots, a, b, n.children[i], Towards(kp, i), bound);
      } else {
        MatFrame(roots, a, b, n.children[i], bound);
      }
    }
    assert LowerOr(roots, a, n, kp).slots == LowerOr(roots, b, n, kp).slots;
  }

  /** What replaying a finished snapshot table answers with. */
  function Replayed(roots: seq<Rec>, entries: seq<(nat, Ctx)>, low: Lower, key: nat): seq<Rec> {
    Replays(roots, Latest(entries, key), low)
  }

  /** The first slots of a record have been built. */
  ghost predicate SlotsBuilt(slots: seq<Parts>, roots: seq<Rec>, c: Ctx, n: FNode, ins: Option<Path>, up: Upper,
                             answer: seq<int> -> seq<Rec>, keys: seq<nat>) {
    && |slots| <= |n.children|
    && forall i :: 0 <= i < |slots| ==>
      && RegisteredAll(slots[i].parts, keys, up)
      && AssembledAll(slots[i].parts, FromAnswer(up.keys, answer))
         == JoinLoop(roots, c, n.children[i], Towards(ins, i), up.keys, answer)
  }

  lemma NoSlotsBuilt(roots: seq<Rec>, c: Ctx, n: FNode, ins: Option<Path>, up: Upper, answer: seq<int> -> seq<Rec>, keys: seq<nat>)
    ensures SlotsBuilt([], roots, c, n, ins, up, answer, keys)
  {}

  lemma SlotsBuiltGrow(slots: seq<Parts>, roots: seq<Rec>, c: Ctx, n: FNode, ins: Option<Path>, up: Upper,
                       answer: seq<int> -> seq<Rec>, had: seq<nat>, keys: seq<nat>)
    requires SlotsBuilt(slots, roots, c, n, ins, up, answer, had) && had <= keys
    ensures SlotsBuilt(slots, roots, c, n, ins, up, answer, keys)
  {
    forall i | 0 <= i < |slots| ensures RegisteredAll(slots[i].parts, keys, up) {
      RegisteredAllGrows(slots[i].parts, had, keys, up);
    }
  }

  lemma SlotsBuiltStep(slots: seq<Parts>, parts: seq<Part>, roots: seq<Rec>, c: Ctx, n: FNode, ins: Option<Path>, up: Upper,
                       answer: seq<int> -> seq<Rec>, keys: seq<nat>)
    requires SlotsBuilt(slots, roots, c, n, ins, up, answer, keys) && |slots| < |n.children|
    requires RegisteredAll(parts, keys, up)
    requires AssembledAll(parts, FromAnswer(up.keys, answer))
          == IterThen(roots, c, n.children[|slots|].sources[0..],
                      One(JoinAt(roots, n.children[|slots|], Towards(ins, |slots|), up.keys, answer)))
    ensures SlotsBuilt(slots + [Parts(parts)], roots, c, n, ins, up, answer, keys)
  {}

  lemma PartIsJoin(p: Part, roots: seq<Rec>, c: Ctx, n: FNode, ins: Option<Path>, up: Upper,
                   answer: seq<int> -> seq<Rec>, keys: seq<nat>)
    requires ins.Some? ==> NodeAt(n, ins.value).Some?
    requires p.vals == ValsOf(c, n.sources) && p.weight == WeightOf(c, n.sources)
    requires |p.slots| == |n.children| && SlotsBuilt(p.slots, roots, c, n, ins, up, answer, keys)
    requires p.address.Some? <==> ins == Some([])
    requires p.address.Some? ==> Addressed(p.vals, p.address.value, keys, up)
    ensures Registered(p, keys, up)
    ensures Assembled(p, FromAnswer(up.keys, answer)) == JoinOr(roots, c, n, ins, up.keys, answer)
  {
    hide JoinOr, JoinLoop, Addressed;
    var a, j := Assembled(p, FromAnswer(up.keys, answer)), JoinOr(roots, c, n, ins, up.keys, answer);
    JoinSlots(roots, c, n, ins, up.keys, answer);
    forall i | 0 <= i < |n.children| ensures a.slots[i] == j.slots[i] {}
    assert a.slots == j.slots;
  }

  /** The table holds every address once, under the key of its record. */
  ghost predicate Addresses(entries: seq<(nat, nat)>, keys: seq<nat>) {
    |entries| == |keys| && forall h :: 0 <= h < |keys| ==> entries[h] == (keys[h], h)
  }

  lemma {:induction false} AddressesFound(entries: seq<(nat, nat)>, keys: seq<nat>, key: nat)
    requires Addresses(entries, keys)
    ensures NoDup(Latest(entries, key))
    ensures forall h: nat :: h in Latest(entries, key) <==> h < |keys| && keys[h] == key
    decreases |keys|
  {
    if keys != [] {
      var n := |keys| - 1;
      AddressesFound(entries[..n], keys[..n], key);
      var rest := Latest(entries[..n], key);
      assert entries[n] == (keys[n], n) && entries[|entries| - 1] == entries[n];
      assert Latest(entries, key) == if keys[n] == key then [n] + rest else rest;
      assert forall h: nat :: h in rest <==> h < n && keys[..n][h] == key;
      NoDupAppend([n], rest);
    }
  }

  /** The upper input of a join while it is being flattened, with the output under
      construction. `keys` and `attached` are indexed by address. */
  class UpperSide {
    const up: Upper
    const low: Lower
    const mode: JoinMode
    const roots: seq<Rec>
    const lower: LowerSide
    const snapshots: ChainingHashTable<Ctx>
    const table: ChainingHashTable<nat>
    var ctx: Ctx
    var keys: seq<nat>
    var attached: seq<seq<Rec>>

    /** What a new insertion record starts with. */
    ghost function Start(key: nat): seq<Rec>
      reads snapshots
    {
      if mode == TOP_INSERT then Replayed(lower.roots, snapshots.entries, low, key) else []
    }

    ghost predicate Valid()
      reads this`keys, this`attached, snapshots, snapshots.next, snapshots.directory, table
    {
      && |attached| == |keys| && (forall h :: 0 <= h < |keys| ==> attached[h] == Start(keys[h]))
      && (mode == TOP_INSERT ==>
            snapshots.Valid() && snapshots.finalized && LowerReady(low)
            && LowerPlaced(low.tree, Some(low.kp), PathSources(low.tree, low.kp)))
      && (mode == BOTTOM_INSERT ==>
            !table.finalized && Addresses(table.entries, keys))
    }

    constructor (up: Upper, low: Lower, mode: JoinMode, roots: seq<Rec>, lower: LowerSide,
                 snapshots: ChainingHashTable<Ctx>, table: ChainingHashTable<nat>)
      requires mode == TOP_INSERT ==>
        snapshots.Valid() && snapshots.finalized && LowerReady(low)
        && LowerPlaced(low.tree, Some(low.kp), PathSources(low.tree, low.kp))
      requires !table.finalized && table.entries == []
      ensures Valid() && keys == [] && ctx == map[]
      ensures this.up == up && this.low == low && this.mode == mode && this.roots == roots
      ensures this.lower == lower && this.snapshots == snapshots && this.table == table
    {
      this.up, this.low, this.mode, this.roots := up, low, mode, roots;
      this.lower, this.snapshots, this.table := lower, snapshots, table;
      ctx, keys, attached := map[], [], [];
    }

    /** A record has just been built at the insertion level: give it an address, and either
        replay every matching snapshot below it or enter it into the table. */
    method OnInsertion(key: nat) returns (address: Outcome<nat>)
      requires Valid()
      modifies this`keys, this`attached, table`entries, lower`ctx
      ensures address.Ok? ==> Valid() && keys == old(keys) + [key] && address.value == |old(keys)|
    {
      var list: seq<Rec> := [];
      match mode {
        case TOP_INSERT =>
          list :- ReplayMatches(key);
        case BOTTOM_INSERT =>
          table.entries := table.entries + [(key, |keys|)];
      }
      address := Ok(|keys|);
      keys, attached := keys + [key], attached + [list];
    }

    /** The records of every snapshot taken under a key. */
    method ReplayMatches(key: nat) returns (list: Outcome<seq<Rec>>)
      requires snapshots.Valid() && snapshots.finalized && LowerReady(low)
      requires LowerPlaced(low.tree, Some(low.kp), PathSources(low.tree, low.kp))
      modifies lower`ctx
      ensures list.Ok? ==> list.value == Replayed(lower.roots, snapshots.entries, low, key)
    {
      hide LowerReady, LowerPlaced;
      var found := snapshots.ForEachMatch(key);
      var built: seq<Rec> := [];
      for i := 0 to |found|
        invariant built == Replays(lower.roots, found[..i], low)
      {
        lower.ctx := found[i];
        var rec :- lower.MaterializeLower(found[i], low.tree, Some(low.kp), PathSources(low.tree, low.kp));
        assert found[..i + 1] == found[..i] + [found[i]];
        built := built + [rec];
      }
      assert found[..|found|] == found;
      return Ok(built);
    }

    /** Fills one output record from the records fixed in the context and builds everything
        below it; the insertion record is announced once its children are there. */
    method BuildSubtree(ghost t: FNode, ghost c: Ctx, n: FNode, ins: Option<Path>, ghost bound: set<Path>,
                        ghost answer: seq<int> -> seq<Rec>) returns (p: Outcome<Part>)
      requires Valid() && AgreeOn(c, ctx, bound) && Placing(n, |n.sources|, bound)
      requires Fits(up, t, roots, c, n, ins) && bound <= c.Keys
      modifies this, table`entries, lower`ctx
      ensures p.Ok? ==> Valid() && AgreeOn(c, ctx, bound) && old(keys) <= keys
      ensures p.Ok? ==> Registered(p.value, keys, up)
      ensures p.Ok? ==> Assembled(p.value, FromAnswer(up.keys, answer)) == JoinOr(roots, c, n, ins, up.keys, answer)
      decreases n, 0, 1
    {
      hide Valid, JoinOr, Addressed, Placing, Fits, Registered, RegisteredAll, Assembled, SlotsBuilt;
      PlacingDone(n, bound);
      ValsFrame(c, ctx, n.sources);
      FitsInsertion(up, t, roots, c, n, ins);
      var vals := ValsOf(ctx, n.sources);
      var weight :- Weight(ctx, n.sources);
      var slots :- BuildSlots(t, c, n, ins, bound, answer);
      var address := None;
      if ins == Some([]) {
        ghost var had := keys;
        var h :- OnInsertion(PackKey(up.types, up.keys, KeyOf(vals, up.keys)));
        AddressedNow(vals, h, keys, up);
        SlotsBuiltGrow(slots, roots, c, n, ins, up, answer, had, keys);
        address := Some(h);
      }
      p := Ok(Part(vals, weight, slots, address));
      PartIsJoin(p.value, roots, c, n, ins, up, answer, keys);
    }

    method BuildSlots(ghost t: FNode, ghost c: Ctx, n: FNode, ins: Option<Path>, ghost bound: set<Path>,
                      ghost answer: seq<int> -> seq<Rec>) returns (r: Outcome<seq<Parts>>)
      requires Valid() && AgreeOn(c, ctx, bound) && Placing(n, |n.sources|, bound)
      requires Fits(up, t, roots, c, n, ins) && bound <= c.Keys
      modifies this, table`entries, lower`ctx
      ensures r.Ok? ==> Valid() && AgreeOn(c, ctx, bound) && old(keys) <= keys
      ensures r.Ok? ==> |r.value| == |n.children| && SlotsBuilt(r.value, roots, c, n, ins, up, answer, keys)
      decreases n, 0, 0
    {
      hide Valid, JoinOr, Placing, Fits, JoinLoop, RegisteredAll, SlotsBuilt;
      PlacingDone(n, bound);
      var slots: seq<Parts> := [];
      NoSlotsBuilt(roots, c, n, ins, up, answer, keys);
      for i := 0 to |n.children|
        invariant Valid() && AgreeOn(c, ctx, bound) && old(keys) <= keys
        invariant |slots| == i && SlotsBuilt(slots, roots, c, n, ins, up, answer, keys)
      {
        ghost var had := keys;
        PlacingStart(n.children[i], bound);
        FitsChild(up, t, roots, c, n, ins, i);
        var parts :- IterateUpper(t, c, n.children[i], Towards(ins, i), 0, bound, answer);
        SlotsBuiltGrow(slots, roots, c, n, ins, up, answer, had, keys);
        SlotsBuiltStep(slots, parts, roots, c, n, ins, up, answer, keys);
        slots := slots + [Parts(parts)];
      }
      return Ok(slots);
    }

    method IterateUpper(ghost t: FNode, ghost c: Ctx, n: FNode, ins: Option<Path>, i: nat, ghost bound: set<Path>,
                        ghost answer: seq<int> -> seq<Rec>) returns (out: Outcome<seq<Part>>)
      requires Valid() && AgreeOn(c, ctx, bound) && i <= |n.sources| && Placing(n, i, bound)
      requires Fits(up, t, roots, c, n, ins) && bound <= c.Keys
      modifies this, table`entries, lower`ctx
      ensures out.Ok? ==> Valid() && AgreeOn(c, ctx, bound) && old(keys) <= keys
      ensures out.Ok? ==> RegisteredAll(out.value, keys, up)
      ensures out.Ok? ==>
        AssembledAll(out.value, FromAnswer(up.keys, answer))
        == IterThen(roots, c, n.sources[i..], One(JoinAt(roots, n, ins, up.keys, answer)))
      decreases n, 1, |n.sources| - i
    {
      hide Valid, JoinOr, Registered, Assembled, Fits, Placing, Cands, MatNode, JoinNode;
      ghost var fill, g := FromAnswer(up.keys, answer), One(JoinAt(roots, n, ins, up.keys, answer));
      if i == |n.sources| {
        var p :- BuildSubtree(t, c, n, ins, bound, answer);
        FlatMapSingle(c, g);
        assert n.sources[i..] == [];
        return Ok([p]);
      }
      var v := n.sources[i];
      PlacingStep(n, i, bound);
      ghost var step := IterThenStep(roots, c, v, n.sources[i + 1..], g);
      CandsAgree(roots, c, ctx, v, bound);
      var cands := Cands(roots, ctx, v);
      var built: seq<Part> := [];
      for j := 0 to |cands|
        invariant Valid() && AgreeOn(c, ctx, bound) && old(keys) <= keys
        invariant RegisteredAll(built, keys, up)
        invariant AssembledAll(built, fill) == FlatMap(cands[..j], step)
      {
        ghost var had := keys;
        FitsBind(up, t, roots, c, n, ins, v, cands[j]);
        AgreeBind(c, ctx, v, cands[j], bound);
        ctx := ctx[v := cands[j]];
        var more :- IterateUpper(t, c[v := cands[j]], n, ins, i + 1, bound + {v}, answer);
        AgreeUnbind(c, ctx, v, cands[j], bound);
        FlatMapSnoc(cands, j, step);
        RegisteredAllGrows(built, had, keys, up);
        AssembledAppend(built, more, fill);
        built := built + more;
      }
      assert cands[..|cands|] == cands;
      IterThenUnfold(roots, c, v, n.sources[i + 1..], g);
      return Ok(built);
    }

    /** Appends one lower record below every insertion record entered under the key. */
    method InsertBelow(key: nat, rec: Rec)
      requires table.Valid() && table.finalized && Addresses(table.entries, keys) && |attached| == |keys|
      modifies this`attached
      ensures |attached| == |keys|
      ensures forall h :: 0 <= h < |keys| ==> attached[h] == old(attached[h]) + if keys[h] == key then [rec] else []
    {
      var found := table.ForEachMatch(key);
      AddressesFound(table.entries, keys, key);
      for i := 0 to |found|
        invariant |attached| == |keys|
        invariant forall h :: 0 <= h < |keys| ==> attached[h] == old(attached[h]) + if h in found[..i] then [rec] else []
      {
        var h := found[i];
        OneMoreFound(found, i);
        attached := attached[h := attached[h] + [rec]];
      }
      assert found[..|found|] == found;
    }
  }

  lemma OneMoreFound(found: seq<nat>, i: nat)
    requires NoDup(found) && i < |found|
    ensures found[i] in found && found[i] !in found[..i] && forall h :: h in found[..i + 1] <==> h in found[..i] || h == found[i]
  {
    assert found[..i + 1] == found[..i] + [found[i]];
  }

  lemma AddressedNow(t: Tuple, h: nat, keys: seq<nat>, up: Upper)
    requires h < |keys| && keys[h] == PackKey(up.types, up.keys, KeyOf(t, up.keys))
    ensures Addressed(t, h, keys, up)
  {}
}
