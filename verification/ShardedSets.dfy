/** The surviving keys of one relation, split into tables that are each filled by one worker. */
module ShardedSets {
  import opened KeySets

  const TOP_BYTE: nat := 0x100_0000_0000_0000

  /** The shard of a hash, from its top byte. */
  function ShardOf(hash: nat, shards: nat): (s: nat)
    requires shards > 0
    ensures s < shards
  {
    hash / TOP_BYTE % shards
  }

  type Bucket = seq<int>

  function Members(b: Bucket): set<int> {
    set k | k in b
  }

  /** What the first `n` workers have put aside for a shard. */
  function Poured(buckets: seq<seq<Bucket>>, shard: nat, n: nat): set<int>
    requires n <= |buckets| && forall w :: 0 <= w < |buckets| ==> shard < |buckets[w]|
  {
    if n == 0 then {} else Poured(buckets, shard, n - 1) + Members(buckets[n - 1][shard])
  }

  ghost predicate Shaped(buckets: seq<seq<Bucket>>, shards: nat) {
    forall w :: 0 <= w < |buckets| ==> |buckets[w]| == shards
  }

  /** The keys are in the buckets, each in those of its shard. */
  ghost predicate Pooled(buckets: seq<seq<Bucket>>, keys: set<int>, mix: int -> nat, shards: nat)
    requires shards > 0 && Shaped(buckets, shards)
  {
    forall s :: 0 <= s < shards ==> PooledAt(buckets, keys, mix, shards, s)
  }

  ghost predicate PooledAt(buckets: seq<seq<Bucket>>, keys: set<int>, mix: int -> nat, shards: nat, s: nat)
    requires s < shards && Shaped(buckets, shards)
  {
    forall k :: k in Poured(buckets, s, |buckets|) <==> k in keys && ShardOf(mix(k), shards) == s
  }

  lemma {:induction false} PouredPrefix(buckets: seq<seq<Bucket>>, more: seq<Bucket>, s: nat, n: nat)
    requires n <= |buckets| && (forall w :: 0 <= w < |buckets| ==> s < |buckets[w]|) && s < |more|
    ensures Poured(buckets + [more], s, n) == Poured(buckets, s, n)
  {
    if n > 0 { PouredPrefix(buckets, more, s, n - 1); }
  }

  class ShardedKeySet {
    const mix: int -> nat
    const tables: seq<KeySet>

    ghost predicate Valid()
      reads tables, set t | t in tables :: t.slots
    {
      && tables != [] && (forall i :: 0 <= i < |tables| ==> tables[i].Valid() && tables[i].mix == mix)
      && forall i, j :: 0 <= i < j < |tables| ==> tables[i] != tables[j] && tables[i].slots != tables[j].slots
    }

    /** Every key sits in its own shard. */
    ghost predicate Sorted()
      reads tables, set t | t in tables :: t.slots
      requires tables != []
    {
      forall i, k :: 0 <= i < |tables| && k in tables[i].Contents() ==> ShardOf(mix(k), |tables|) == i
    }

    ghost function Keys(): set<int>
      reads tables, set t | t in tables :: t.slots
    {
      set i, k | 0 <= i < |tables| && k in tables[i].Contents() :: k
    }

    /** As many empty tables as there are workers. */
    constructor (mix: int -> nat, shards: nat)
      requires shards > 0
      ensures Valid() && this.mix == mix && |tables| == shards
      ensures forall i :: 0 <= i < shards ==> tables[i].Contents() == {} && fresh(tables[i]) && fresh(tables[i].slots)
    {
      var made: seq<KeySet> := [];
      for s := 0 to shards
        invariant |made| == s
        invariant forall i :: 0 <= i < s ==> made[i].Valid() && made[i].mix == mix && made[i].Contents() == {}
        invariant forall i :: 0 <= i < s ==> fresh(made[i]) && fresh(made[i].slots)
        invariant forall i, j :: 0 <= i < j < s ==> made[i] != made[j] && made[i].slots != made[j].slots
      {
        var table := new KeySet(mix);
        made := made + [table];
      }
      this.mix, tables := mix, made;
    }

    /** One worker drains every bucket meant for its shard, and writes no other. */
    method FillShard(shard: nat, buckets: seq<seq<Bucket>>)
      requires Valid() && shard < |tables| && Shaped(buckets, |tables|) && tables[shard].Contents() == {}
      modifies tables[shard], tables[shard].slots
      ensures Valid() && tables[shard].Contents() == Poured(buckets, shard, |buckets|)
      ensures tables[shard].slots == old(tables[shard].slots) || fresh(tables[shard].slots)
    {
      hide Table, KeysOf;
      var table := tables[shard];
      for worker := 0 to |buckets|
        invariant Valid() && table.Contents() == Poured(buckets, shard, worker)
        invariant table.slots == old(table.slots) || fresh(table.slots)
      {
        table.InsertAll(buckets[worker][shard]);
      }
    }

    /** Fills every shard. */
    method Fill(buckets: seq<seq<Bucket>>, ghost keys: set<int>)
      requires Valid() && Shaped(buckets, |tables|) && forall i :: 0 <= i < |tables| ==> tables[i].Contents() == {}
      requires Pooled(buckets, keys, mix, |tables|)
      modifies tables, set t | t in tables :: t.slots
      ensures Valid() && Sorted() && Keys() == keys
    {
      hide Poured, Table, KeysOf, Pooled;
      for shard := 0 to |tables|
        invariant Valid()
        invariant forall i :: 0 <= i < shard ==> tables[i].Contents() == Poured(buckets, i, |buckets|)
        invariant forall i :: shard <= i < |tables| ==> tables[i].Contents() == {}
        invariant forall i :: 0 <= i < |tables| ==> tables[i].slots == old(tables[i].slots) || fresh(tables[i].slots)
      {
        FillShard(shard, buckets);
      }
      Poolings(buckets, keys);
    }

    lemma Poolings(buckets: seq<seq<Bucket>>, keys: set<int>)
      requires Valid() && Shaped(buckets, |tables|) && Pooled(buckets, keys, mix, |tables|)
      requires forall i :: 0 <= i < |tables| ==> tables[i].Contents() == Poured(buckets, i, |buckets|)
      ensures Sorted() && Keys() == keys
    {
      hide Poured, Table, KeysOf;
      forall i, k | 0 <= i < |tables| && k in tables[i].Contents() ensures ShardOf(mix(k), |tables|) == i && k in keys {
        assert PooledAt(buckets, keys, mix, |tables|, i);
      }
      forall k ensures k in Keys() <==> k in keys {
        if k in keys {
          assert PooledAt(buckets, keys, mix, |tables|, ShardOf(mix(k), |tables|));
          assert k in tables[ShardOf(mix(k), |tables|)].Contents();
        }
      }
    }

    /** Asks the one table that may hold the key. */
    method Contains(key: int) returns (found: bool)
      requires Valid() && Sorted()
      ensures found <==> key in Keys()
    {
      found := tables[ShardOf(mix(key), |tables|)].Contains(key);
    }

    method Empty() returns (e: bool)
      requires Valid()
      ensures e <==> Keys() == {}
    {
      for i := 0 to |tables|
        invariant forall j :: 0 <= j < i ==> tables[j].Contents() == {}
      {
        var none := tables[i].Empty();
        if !none {
          SomeKey(i);
          return false;
        }
      }
      return true;
    }

    lemma SomeKey(i: nat)
      requires i < |tables| && tables[i].Contents() != {}
      ensures Keys() != {}
    {
      var k :| k in tables[i].Contents();
      assert k in Keys();
    }
  }
}
