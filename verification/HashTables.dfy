/** The chaining hash table of a join: entries are collected first, then linked into a
    directory of the right size. Chains are walked comparing keys, so the hash decides only
    where to look. */
module HashTables {
  import opened Bags
  import opened KeyPacking

  /** The directory slot of a key: the high bits of its hash. */
  function SlotOf(hash: nat -> nat, bits: nat, key: nat): (s: nat)
    ensures s < Pow2(bits)
  {
    Pow2Positive(bits);
    Pow2Positive(if bits <= 64 then 64 - bits else 0);
    (hash(key) / Pow2(if bits <= 64 then 64 - bits else 0)) % Pow2(bits)
  }

  lemma Pow2Positive(n: nat)
    ensures Pow2(n) > 0
  {}

  /** `j` is the last of the first `n` entries that falls into slot `s`, or -1. */
  ghost predicate IsLast<V>(c: seq<(nat, V)>, n: nat, hash: nat -> nat, bits: nat, s: nat, j: int)
    requires n <= |c|
  {
    && -1 <= j < n
    && (j >= 0 ==> SlotOf(hash, bits, c[j].0) == s)
    && forall i :: j < i < n ==> SlotOf(hash, bits, c[i].0) != s
  }

  lemma NoneYet<V>(c: seq<(nat, V)>, hash: nat -> nat, bits: nat, s: nat)
    ensures IsLast(c, 0, hash, bits, s, -1)
  {}

  lemma IsLastNext<V>(c: seq<(nat, V)>, n: nat, hash: nat -> nat, bits: nat, s: nat, j: int)
    requires n < |c| && IsLast(c, n, hash, bits, s, j)
    ensures IsLast(c, n + 1, hash, bits, s, if SlotOf(hash, bits, c[n].0) == s then n else j)
  {}

  /** The values filed under `key`, the latest first. */
  function Latest<V>(c: seq<(nat, V)>, key: nat): seq<V> {
    if c == [] then []
    else
      var last := c[|c| - 1];
      if last.0 == key then [last.1] + Latest(c[..|c| - 1], key) else Latest(c[..|c| - 1], key)
  }

  /** The values filed under `key`, in the order they were inserted. */
  function Inserted<V>(c: seq<(nat, V)>, key: nat): seq<V> {
    if c == [] then []
    else if c[0].0 == key then [c[0].1] + Inserted(c[1..], key)
    else Inserted(c[1..], key)
  }

  lemma {:induction false} InsertedSnoc<V>(c: seq<(nat, V)>, x: (nat, V), key: nat)
    ensures Inserted(c + [x], key) == Inserted(c, key) + (if x.0 == key then [x.1] else [])
  {
    if c == [] {
      assert c + [x] == [x] && [x][1..] == [];
    } else {
      assert (c + [x])[1..] == c[1..] + [x];
      InsertedSnoc(c[1..], x, key);
    }
  }

  /** A lookup finds everything inserted under the key and nothing else. */
  lemma {:induction false} LatestIsInserted<V>(c: seq<(nat, V)>, key: nat)
    ensures Perm(Latest(c, key), Inserted(c, key))
  {
    if c != [] {
      var last := c[|c| - 1];
      assert c == c[..|c| - 1] + [last];
      LatestIsInserted(c[..|c| - 1], key);
      InsertedSnoc(c[..|c| - 1], last, key);
    }
  }

  /** Entries between `j` and `n` that lie in another slot do not matter for the key. */
  lemma {:induction false} LatestSkips<V>(c: seq<(nat, V)>, n: nat, j: int, key: nat)
    requires -1 <= j < n <= |c|
    requires forall i :: j < i < n ==> c[i].0 != key
    ensures Latest(c[..n], key) == Latest(c[..j + 1], key)
    decreases n
  {
    if j + 1 < n {
      assert c[..n][..n - 1] == c[..n - 1];
      LatestSkips(c, n - 1, j, key);
    }
  }

  /** Entry `p` is where the walk for `key` stands: everything filed under the key after it
      has been seen. */
  ghost predicate At<V>(c: seq<(nat, V)>, hash: nat -> nat, bits: nat, key: nat, p: int) {
    -1 <= p < |c| && (p >= 0 ==> SlotOf(hash, bits, c[p].0) == SlotOf(hash, bits, key))
  }

  /** One step of a chain walk: entry `j`, then on from `p`, the next entry of its chain. */
  lemma WalkStep<V>(c: seq<(nat, V)>, hash: nat -> nat, bits: nat, j: nat, p: int, key: nat)
    requires At(c, hash, bits, key, j)
    requires IsLast(c, j, hash, bits, SlotOf(hash, bits, c[j].0), p)
    ensures p < j && At(c, hash, bits, key, p)
    ensures Latest(c[..j + 1], key) == (if c[j].0 == key then [c[j].1] else []) + Latest(c[..p + 1], key)
  {
    assert c[..j + 1][..j] == c[..j] && c[..j + 1][j] == c[j];
    LatestSkips(c, j, p, key);
  }

  /** Where a chain walk starts. */
  lemma WalkStart<V>(c: seq<(nat, V)>, hash: nat -> nat, bits: nat, j: int, key: nat)
    requires IsLast(c, |c|, hash, bits, SlotOf(hash, bits, key), j)
    ensures At(c, hash, bits, key, j) && Latest(c, key) == Latest(c[..j + 1], key)
    ensures forall i :: j < i < |c| ==> c[i].0 != key
  {
    LatestSkips(c, |c|, j, key);
    assert c[..|c|] == c;
  }

  lemma WalkEnd<V>(c: seq<(nat, V)>, key: nat)
    ensures Latest(c[..0], key) == []
  {}

  ghost predicate SameKeys<V>(a: seq<(nat, V)>, b: seq<(nat, V)>) {
    |a| == |b| && forall i :: 0 <= i < |a| ==> a[i].0 == b[i].0
  }

  lemma IsLastByKeys<V>(a: seq<(nat, V)>, b: seq<(nat, V)>, n: nat, hash: nat -> nat, bits: nat, s: nat, j: int)
    requires SameKeys(a, b) && n <= |a| && IsLast(a, n, hash, bits, s, j)
    ensures IsLast(b, n, hash, bits, s, j)
  {}

  function Changed<V>(c: seq<(nat, V)>, key: nat, f: V -> V): seq<(nat, V)> {
    seq(|c|, i requires 0 <= i < |c| => if c[i].0 == key then (c[i].0, f(c[i].1)) else c[i])
  }

  /** Entries are named by the order of their insertion; -1 ends a chain. */
  class ChainingHashTable<V> {
    const hash: nat -> nat
    var entries: seq<(nat, V)>
    var next: array<int>
    var directory: array<int>
    var bits: nat
    var finalized: bool

    ghost predicate Linked(n: nat)
      requires n <= |entries|
      reads this, next, directory
    {
      && next.Length == |entries| && directory.Length == Pow2(bits) && next != directory
      && (forall s :: 0 <= s < directory.Length ==> IsLast(entries, n, hash, bits, s, directory[s]))
      && forall i :: 0 <= i < n ==> IsLast(entries, i, hash, bits, SlotOf(hash, bits, entries[i].0), next[i])
    }

    ghost predicate Valid()
      reads this, next, directory
    {
      finalized ==> Linked(|entries|)
    }

    constructor (hash: nat -> nat)
      ensures Valid() && entries == [] && !finalized && this.hash == hash
      ensures fresh(directory) && fresh(next)
    {
      this.hash := hash;
      entries, bits, finalized := [], 0, false;
      directory, next := new int[0], new int[0];
    }

    method Insert(key: nat, value: V)
      requires Valid() && !finalized
      modifies this`entries
      ensures Valid() && !finalized && entries == old(entries) + [(key, value)]
    {
      entries := entries + [(key, value)];
    }

    /** The least power of two that keeps the load below nine tenths. */
    static method DirectorySize(size: nat) returns (capacity: nat, bits: nat)
      ensures capacity == Pow2(bits) && capacity > size + size / 8
      ensures bits > 0 ==> Pow2(bits - 1) <= size + size / 8
    {
      capacity, bits := 1, 0;
      while capacity < size + size / 8 + 1
        invariant capacity == Pow2(bits) && capacity > 0
        invariant bits > 0 ==> Pow2(bits - 1) <= size + size / 8
        decreases size + size / 8 + 1 - capacity
      {
        capacity := capacity * 2;
        bits := bits + 1;
      }
    }

    /** Sizes the directory and links every entry into its chain. */
    method Finalize()
      requires Valid()
      modifies this`next, this`directory, this`bits, this`finalized
      ensures Valid() && finalized && fresh(directory) && fresh(next)
    {
      hide SlotOf, IsLast;
      var capacity;
      capacity, bits := DirectorySize(|entries|);
      directory := new int[capacity](i => -1);
      next := new int[|entries|](i => -1);
      forall s | 0 <= s < directory.Length ensures IsLast(entries, 0, hash, bits, s, -1) { NoneYet(entries, hash, bits, s); }
      for i := 0 to |entries|
        invariant fresh(directory) && fresh(next) && Linked(i)
      {
        var slot := SlotOf(hash, bits, entries[i].0);
        forall s | 0 <= s < directory.Length
          ensures IsLast(entries, i + 1, hash, bits, s, if s == slot then i else directory[s])
        {
          IsLastNext(entries, i, hash, bits, s, directory[s]);
        }
        next[i] := directory[slot];
        directory[slot] := i;
      }
      finalized := true;
    }

    /** Walks the chain of `key`, skipping entries with other keys. */
    method ForEachMatch(key: nat) returns (vs: seq<V>)
      requires Valid()
      ensures vs == if finalized then Latest(entries, key) else []
    {
      hide SlotOf, IsLast, Latest, At;
      vs := [];
      if !finalized { return; }
      var entry := directory[SlotOf(hash, bits, key)];
      WalkStart(entries, hash, bits, entry, key);
      AtBounds(entries, hash, bits, key, entry);
      while entry >= 0
        invariant -1 <= entry < |entries| && At(entries, hash, bits, key, entry)
        invariant Latest(entries, key) == vs + Latest(entries[..entry + 1], key)
      {
        var following := next[entry];
        WalkStep(entries, hash, bits, entry, following, key);
        AtBounds(entries, hash, bits, key, following);
        ghost var rest := Latest(entries[..following + 1], key);
        assert vs + ([entries[entry].1] + rest) == vs + [entries[entry].1] + rest && [] + rest == rest;
        if entries[entry].0 == key {
          vs := vs + [entries[entry].1];
        }
        entry := following;
      }
      WalkEnd(entries, key);
    }

    /** As `ForEachMatch`, replacing the value of every match by `f` of it. */
    method ForEachMatchMutable(key: nat, f: V -> V) returns (vs: seq<V>)
      requires Valid() && finalized
      modifies this`entries
      ensures Valid() && finalized
      ensures vs == Latest(old(entries), key)
      ensures entries == Changed(old(entries), key, f) && |entries| == |old(entries)|
      ensures forall i :: 0 <= i < |entries| && old(entries)[i].0 == key ==> entries[i] == (key, f(old(entries)[i].1))
      ensures forall i :: 0 <= i < |entries| && old(entries)[i].0 != key ==> entries[i] == old(entries)[i]
    {
      hide SlotOf, IsLast, Latest, At;
      vs := [];
      var entry := directory[SlotOf(hash, bits, key)];
      ghost var c := entries;
      WalkStart(c, hash, bits, entry, key);
      AtBounds(c, hash, bits, key, entry);
      while entry >= 0
        invariant -1 <= entry < |c| && |entries| == |c| && At(c, hash, bits, key, entry)
        invariant Latest(c, key) == vs + Latest(c[..entry + 1], key)
        invariant forall i :: 0 <= i < |c| ==>
          entries[i] == if entry < i && c[i].0 == key then (c[i].0, f(c[i].1)) else c[i]
        decreases entry
      {
        var following := next[entry];
        WalkStep(c, hash, bits, entry, following, key);
        AtBounds(c, hash, bits, key, following);
        SkippedKeys(c, hash, bits, entry, following, key);
        ghost var rest := Latest(c[..following + 1], key);
        assert vs + ([c[entry].1] + rest) == vs + [c[entry].1] + rest && [] + rest == rest;
        if entries[entry].0 == key {
          vs := vs + [entries[entry].1];
          entries := entries[entry := (key, f(entries[entry].1))];
        }
        entry := following;
      }
      WalkEnd(c, key);
      StillLinked(c);
    }

    /** Links depend on the keys alone. */
    lemma StillLinked(c: seq<(nat, V)>)
      requires SameKeys(c, entries)
      requires next.Length == |entries| && directory.Length == Pow2(bits) && next != directory
      requires forall s :: 0 <= s < directory.Length ==> IsLast(c, |c|, hash, bits, s, directory[s])
      requires forall i :: 0 <= i < |c| ==> IsLast(c, i, hash, bits, SlotOf(hash, bits, c[i].0), next[i])
      ensures Linked(|entries|)
    {
      hide SlotOf, IsLast;
      forall s | 0 <= s < directory.Length ensures IsLast(entries, |entries|, hash, bits, s, directory[s]) {
        IsLastByKeys(c, entries, |c|, hash, bits, s, directory[s]);
      }
      forall i | 0 <= i < |c| ensures IsLast(entries, i, hash, bits, SlotOf(hash, bits, entries[i].0), next[i]) {
        IsLastByKeys(c, entries, i, hash, bits, SlotOf(hash, bits, c[i].0), next[i]);
      }
    }
  }

  lemma AtBounds<V>(c: seq<(nat, V)>, hash: nat -> nat, bits: nat, key: nat, p: int)
    requires At(c, hash, bits, key, p)
    ensures -1 <= p < |c|
  {}

  /** What the walk passes over without stopping has other keys. */
  lemma SkippedKeys<V>(c: seq<(nat, V)>, hash: nat -> nat, bits: nat, j: nat, p: int, key: nat)
    requires At(c, hash, bits, key, j)
    requires IsLast(c, j, hash, bits, SlotOf(hash, bits, c[j].0), p)
    ensures forall i :: p < i < j ==> c[i].0 != key
  {}
}
