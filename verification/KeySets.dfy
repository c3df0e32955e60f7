/** A set of 64-bit keys in one open-addressing table, with a sentinel for empty slots. */
module KeySets {
  import opened Checked
  import opened Probing

  /** What an empty slot holds. A key equal to it is kept beside the table. */
  const EMPTY: int := INT64_MIN

  function HomeOf(mix: int -> nat, capacity: nat, key: int): int
  {
    if key == EMPTY || capacity == 0 then -1 else mix(key) % capacity
  }

  /** The homes of a table's occupants. */
  function HomesOf(mix: int -> nat, slots: seq<int>): (homes: seq<int>)
    ensures |homes| == |slots|
  {
    seq(|slots|, i requires 0 <= i < |slots| => HomeOf(mix, |slots|, slots[i]))
  }

  function KeysOf(slots: seq<int>): set<int> {
    set i | 0 <= i < |slots| && slots[i] != EMPTY :: slots[i]
  }

  /** A table that can be probed: `live` keys, none of them twice. */
  ghost predicate Table(mix: int -> nat, slots: seq<int>, live: nat) {
    && Probed(HomesOf(mix, slots)) && Occupied(HomesOf(mix, slots)) == live
    && forall i, j :: 0 <= i < j < |slots| && slots[i] != EMPTY ==> slots[i] != slots[j]
  }

  /** The walk for a key has come this far without meeting it or a free slot. */
  ghost predicate Walked(mix: int -> nat, slots: seq<int>, key: int, k: nat, at: nat)
  {
    && 0 < |slots| && k < |slots| && at == Walk(|slots|, mix(key) % |slots|, k)
    && forall j :: 0 <= j < k ==> slots[Walk(|slots|, mix(key) % |slots|, j)] !in {EMPTY, key}
  }

  lemma WalkedStart(mix: int -> nat, slots: seq<int>, key: int)
    requires 0 < |slots|
    ensures Walked(mix, slots, key, 0, mix(key) % |slots|)
  {}

  lemma WalkedOn(mix: int -> nat, slots: seq<int>, live: nat, key: int, k: nat, at: nat)
    requires Table(mix, slots, live) && live < |slots| && Walked(mix, slots, key, k, at)
    requires slots[at] != EMPTY && slots[at] != key
    ensures k + 1 < |slots| && Walked(mix, slots, key, k + 1, Next(|slots|, at))
  {
    var home, homes := mix(key) % |slots|, HomesOf(mix, slots);
    assert Taken(homes, home, k + 1) by {
      forall j | 0 <= j < k + 1 ensures homes[Walk(|slots|, home, j)] >= 0 {}
    }
    WalkEnds(homes, home, k + 1);
    NextStep(|slots|, home, k);
  }

  /** A walk that ends at a free slot passes every key of its home. */
  lemma Absent(mix: int -> nat, slots: seq<int>, live: nat, key: int, k: nat, at: nat)
    requires Table(mix, slots, live) && key != EMPTY && Walked(mix, slots, key, k, at) && slots[at] == EMPTY
    ensures key !in KeysOf(slots)
  {
    var home, homes := mix(key) % |slots|, HomesOf(mix, slots);
    forall i | 0 <= i < |slots| ensures slots[i] != key {
      var d := Dist(|slots|, home, i);
      assert Walk(|slots|, home, d) == i;
      if slots[i] == key { FoundBefore(homes, home, k, i); }
    }
  }

  lemma PutKey(mix: int -> nat, slots: seq<int>, live: nat, key: int, k: nat, at: nat)
    requires Table(mix, slots, live) && key != EMPTY && Walked(mix, slots, key, k, at) && slots[at] == EMPTY
    ensures Table(mix, slots[at := key], live + 1)
    ensures KeysOf(slots[at := key]) == KeysOf(slots) + {key}
  {
    var home, homes, put := mix(key) % |slots|, HomesOf(mix, slots), slots[at := key];
    Absent(mix, slots, live, key, k, at);
    PutProbed(homes, home, k);
    OccupiedPut(homes, at, home);
    assert HomesOf(mix, put) == homes[at := home];
    forall x ensures x in KeysOf(put) <==> x in KeysOf(slots) + {key} {
      if x in KeysOf(slots) {
        var i :| 0 <= i < |slots| && slots[i] == x && x != EMPTY;
        assert put[i] == x;
      }
      if x == key { assert put[at] == key; }
    }
  }

  lemma KeysSnoc(slots: seq<int>, i: nat)
    requires i < |slots|
    ensures KeysOf(slots[..i + 1]) == KeysOf(slots[..i]) + if slots[i] == EMPTY then {} else {slots[i]}
  {
    assert slots[..i + 1] == slots[..i] + [slots[i]];
    var more: set<int> := if slots[i] == EMPTY then {} else {slots[i]};
    forall x ensures x in KeysOf(slots[..i + 1]) <==> x in KeysOf(slots[..i]) || x in more {
      if x in KeysOf(slots[..i]) {
        var j :| 0 <= j < i && slots[..i][j] == x && x != EMPTY;
        assert slots[..i + 1][j] == x;
      }
      if x == slots[i] { assert slots[..i + 1][i] == x; }
    }
  }

  lemma EmptyTable(mix: int -> nat, slots: seq<int>)
    requires forall i :: 0 <= i < |slots| ==> slots[i] == EMPTY
    ensures Table(mix, slots, 0) && KeysOf(slots) == {}
  {
    EmptyProbed(HomesOf(mix, slots));
    OccupiedNone(HomesOf(mix, slots));
  }

  class KeySet {
    const mix: int -> nat
    var slots: array<int>
    var count: nat
    var hasEmptyKey: bool

    ghost predicate Valid()
      reads this, slots
    {
      Table(mix, slots[..], count) && (slots.Length > 0 ==> count < slots.Length)
    }

    ghost function Contents(): set<int>
      reads this, slots
    {
      KeysOf(slots[..]) + if hasEmptyKey then {EMPTY} else {}
    }

    constructor (mix: int -> nat)
      ensures Valid() && Contents() == {} && fresh(slots) && this.mix == mix
    {
      this.mix, count, hasEmptyKey := mix, 0, false;
      slots := new int[0];
    }

    /** Puts a key the table does not hold into the first free slot of its walk. */
    static method PutFree(mix: int -> nat, slots: array<int>, key: int, ghost live: nat)
      requires Table(mix, slots[..], live) && live < slots.Length && key != EMPTY && key !in KeysOf(slots[..])
      modifies slots
      ensures Table(mix, slots[..], live + 1) && KeysOf(slots[..]) == KeysOf(old(slots[..])) + {key}
    {
      hide Table, KeysOf, Walked;
      var slot: nat := mix(key) % slots.Length;
      ghost var steps: nat := 0;
      WalkedStart(mix, slots[..], key);
      while slots[slot] != EMPTY
        invariant slot < slots.Length && slots[..] == old(slots[..]) && Walked(mix, slots[..], key, steps, slot)
        decreases slots.Length - steps
      {
        KeyIn(slots[..], slot);
        WalkedOn(mix, slots[..], live, key, steps, slot);
        slot, steps := Next(slots.Length, slot), steps + 1;
      }
      PutKey(mix, slots[..], live, key, steps, slot);
      ghost var put := slots[..][slot := key];
      slots[slot] := key;
      assert slots[..] == put;
    }

    /** Doubles the table and puts every key into the first free slot of its walk. */
    method Grow()
      requires Valid()
      modifies this`slots
      ensures Valid() && fresh(slots) && Contents() == old(Contents())
      ensures slots.Length == if old(slots.Length) == 0 then 1024 else 2 * old(slots.Length)
    {
      hide Table, KeysOf, Walked;
      var wanted := if slots.Length == 0 then 1024 else slots.Length * 2;
      var bigger := new int[wanted](i => EMPTY);
      ghost var live: nat, all := 0, slots[..];
      TableFacts(mix, all, count);
      EmptyTable(mix, bigger[..]);
      NoKeys();
      for i := 0 to slots.Length
        invariant fresh(bigger) && bigger.Length == wanted && slots[..] == all
        invariant Table(mix, bigger[..], live) && live == Occupied(HomesOf(mix, all)[..i])
        invariant KeysOf(bigger[..]) == KeysOf(all[..i])
      {
        var key := slots[i];
        KeysSnoc(all, i);
        OccupiedSnoc(HomesOf(mix, all), i);
        HomeSign(mix, all, i);
        if key == EMPTY { continue; }
        NotYet(all, i);
        PutFree(mix, bigger, key, live);
        live := live + 1;
      }
      assert all[..slots.Length] == all && HomesOf(mix, all)[..slots.Length] == HomesOf(mix, all);
      slots := bigger;
    }

    /** Inserts a run of keys, growing between stretches that are sure to fit. */
    method InsertAll(keys: seq<int>)
      requires Valid()
      modifies this, slots
      ensures Valid() && Contents() == old(Contents()) + set k | k in keys
      ensures slots == old(slots) || fresh(slots)
    {
      hide Table, KeysOf, Walked;
      var at := 0;
      while at < |keys|
        invariant at <= |keys| && Valid() && (slots == old(slots) || fresh(slots))
        invariant Contents() == old(Contents()) + set k | k in keys[..at]
        decreases |keys| - at, 4 * count + 1024 - slots.Length
      {
        var limit := slots.Length / 5 * 3;
        if count + 1 >= limit {
          Grow();
          continue;
        }
        at := InsertStretch(keys, at, limit);
      }
      assert keys[..at] == keys;
    }

    /** The keys from `at` on that are sure to stay below the limit. */
    method InsertStretch(keys: seq<int>, from: nat, limit: nat) returns (at: nat)
      requires Valid() && from < |keys| && count + 1 < limit == slots.Length / 5 * 3
      modifies this`count, this`hasEmptyKey, slots
      ensures Valid() && from < at <= |keys|
      ensures Contents() == old(Contents()) + set k | k in keys[from..at]
    {
      hide Table, KeysOf;
      var stop := if |keys| < from + (limit - count - 1) then |keys| else from + (limit - count - 1);
      at := from;
      while at < stop
        invariant from <= at <= stop && Valid() && count + (stop - at) < limit
        invariant Contents() == old(Contents()) + set k | k in keys[from..at]
      {
        assert keys[from..at + 1] == keys[from..at] + [keys[at]];
        InsertOne(keys[at]);
        at := at + 1;
      }
    }

    /** One key: walks to it or to the free slot it takes. */
    method InsertOne(key: int)
      requires Valid() && count + 1 < slots.Length
      modifies this`count, this`hasEmptyKey, slots
      ensures Valid() && Contents() == old(Contents()) + {key} && count <= old(count) + 1
    {
      hide Table, KeysOf, Walked;
      if key == EMPTY {
        hasEmptyKey := true;
        return;
      }
      var slot: nat := mix(key) % slots.Length;
      ghost var steps: nat, was := 0, slots[..];
      WalkedStart(mix, was, key);
      while slots[slot] != EMPTY && slots[slot] != key
        invariant slot < slots.Length && slots[..] == was && Walked(mix, was, key, steps, slot)
        invariant count == old(count) && hasEmptyKey == old(hasEmptyKey)
        decreases slots.Length - steps
      {
        WalkedOn(mix, was, count, key, steps, slot);
        slot, steps := Next(slots.Length, slot), steps + 1;
      }
      if slots[slot] == EMPTY {
        PutKey(mix, was, count, key, steps, slot);
        slots[slot] := key;
        assert slots[..] == was[slot := key];
        count := count + 1;
      } else {
        KeyIn(was, slot);
      }
    }

    /** Whether the key was inserted. */
    method Contains(key: int) returns (found: bool)
      requires Valid()
      ensures found <==> key in Contents()
    {
      hide Table, Walked;
      if key == EMPTY { return hasEmptyKey; }
      if count == 0 {
        NothingThere(mix, slots[..]);
        return false;
      }
      TableFacts(mix, slots[..], count);
      var slot: nat := mix(key) % slots.Length;
      ghost var steps: nat := 0;
      WalkedStart(mix, slots[..], key);
      while true
        invariant slot < slots.Length && Walked(mix, slots[..], key, steps, slot)
        decreases slots.Length - steps
      {
        var occupant := slots[slot];
        if occupant == key { return true; }
        if occupant == EMPTY {
          Absent(mix, slots[..], count, key, steps, slot);
          return false;
        }
        WalkedOn(mix, slots[..], count, key, steps, slot);
        slot, steps := Next(slots.Length, slot), steps + 1;
      }
    }

    method Empty() returns (e: bool)
      requires Valid()
      ensures e <==> Contents() == {}
    {
      if count == 0 { NothingThere(mix, slots[..]); } else { SomethingThere(mix, slots[..], count); }
      return count == 0 && !hasEmptyKey;
    }
  }

  lemma HomeSign(mix: int -> nat, slots: seq<int>, i: nat)
    requires i < |slots|
    ensures HomesOf(mix, slots)[i] >= 0 <==> slots[i] != EMPTY
  {}

  lemma NoKeys()
    ensures KeysOf([]) == {}
  {}

  lemma KeyIn(slots: seq<int>, i: nat)
    requires i < |slots| && slots[i] != EMPTY
    ensures slots[i] in KeysOf(slots)
  {}

  lemma TableFacts(mix: int -> nat, slots: seq<int>, live: nat)
    requires Table(mix, slots, live)
    ensures live == Occupied(HomesOf(mix, slots)) <= |slots|
    ensures forall a, b :: 0 <= a < b < |slots| && slots[a] != EMPTY ==> slots[a] != slots[b]
  {}

  /** A later key of a table is not among the earlier ones. */
  lemma NotYet(slots: seq<int>, i: nat)
    requires i < |slots| && slots[i] != EMPTY && forall a, b :: 0 <= a < b < |slots| && slots[a] != EMPTY ==> slots[a] != slots[b]
    ensures slots[i] !in KeysOf(slots[..i])
  {}

  lemma {:induction false} NothingThere(mix: int -> nat, slots: seq<int>)
    requires Table(mix, slots, 0)
    ensures KeysOf(slots) == {}
  {
    forall i | 0 <= i < |slots| ensures slots[i] == EMPTY {
      OccupiedSnoc(HomesOf(mix, slots), i);
    }
  }

  lemma {:induction false} SomethingThere(mix: int -> nat, slots: seq<int>, live: nat)
    requires Table(mix, slots, live) && live > 0
    ensures KeysOf(slots) != {}
  {
    if forall i :: 0 <= i < |slots| ==> slots[i] == EMPTY { OccupiedNone(HomesOf(mix, slots)); }
    var i :| 0 <= i < |slots| && slots[i] != EMPTY;
    KeyIn(slots, i);
  }
}
