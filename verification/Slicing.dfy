/** Cutting a join into hash buckets of one class of equal columns. */
module Slicing {
  import opened Bags
  import opened Filters
  import opened Graphs
  import opened Answering

  /** Per relation the column to bucket on; negative passes the relation through whole. */
  type KeyColumns = seq<int>

  ghost predicate KeyColumnsOk(g: QueryGraph, key: KeyColumns) {
    |key| == RelationCount(g) && forall r :: 0 <= r < |key| && key[r] >= 0 ==> key[r] < g.columnCounts[r]
  }

  //
  // Bucketed input
  //

  predicate KeepsRow(row: Row, c: int, hash: int -> nat, slice: nat, slices: nat)
    requires slices > 0
  {
    c < 0 || (c < |row| && hash(row[c]) % slices == slice)
  }

  function Bucket(rows: seq<Row>, c: int, hash: int -> nat, slice: nat, slices: nat): seq<Row>
    requires slices > 0
  {
    if rows == [] then []
    else if KeepsRow(rows[0], c, hash, slice, slices) then [rows[0]] + Bucket(rows[1..], c, hash, slice, slices)
    else Bucket(rows[1..], c, hash, slice, slices)
  }

  function SlicedData(data: Data, key: KeyColumns, hash: int -> nat, slice: nat, slices: nat): (d: Data)
    requires |key| == |data| && slices > 0
    ensures |d| == |data| && forall r :: 0 <= r < |d| ==> d[r] == Bucket(data[r], key[r], hash, slice, slices)
  {
    seq(|data|, r requires 0 <= r < |data| => Bucket(data[r], key[r], hash, slice, slices))
  }

  lemma {:induction false} BucketAppend(a: seq<Row>, b: seq<Row>, c: int, hash: int -> nat, slice: nat, slices: nat)
    requires slices > 0
    ensures Bucket(a + b, c, hash, slice, slices) == Bucket(a, c, hash, slice, slices) + Bucket(b, c, hash, slice, slices)
  {
    if a == [] {
      assert a + b == b;
    } else {
      assert (a + b)[0] == a[0] && (a + b)[1..] == a[1..] + b;
      BucketAppend(a[1..], b, c, hash, slice, slices);
    }
  }

  lemma {:induction false} BucketMembers(rows: seq<Row>, c: int, hash: int -> nat, slice: nat, slices: nat)
    requires slices > 0
    ensures forall row :: row in Bucket(rows, c, hash, slice, slices) <==> row in rows && KeepsRow(row, c, hash, slice, slices)
    ensures c < 0 ==> Bucket(rows, c, hash, slice, slices) == rows
  {
    if rows != [] {
      BucketMembers(rows[1..], c, hash, slice, slices);
      assert rows == [rows[0]] + rows[1..];
    }
  }

  lemma SlicedValid(g: QueryGraph, data: Data, key: KeyColumns, hash: int -> nat, slice: nat, slices: nat)
    requires TypesGiven(g) && ValidData(g, data) && |key| == |data| && slices > 0
    ensures ValidData(g, SlicedData(data, key, hash, slice, slices))
  {
    var sliced := SlicedData(data, key, hash, slice, slices);
    forall r, i | 0 <= r < |sliced| && 0 <= i < |sliced[r]| ensures ValidRow(g, r, sliced[r][i]) {
      BucketMembers(data[r], key[r], hash, slice, slices);
      assert sliced[r][i] in data[r];
      var j :| 0 <= j < |data[r]| && data[r][j] == sliced[r][i];
      assert ValidRow(g, r, data[r][j]);
    }
    forall r | 0 <= r < |sliced| && g.columnCounts[r] == 0 ensures sliced[r] == [] {}
  }

  /** Hands on one bucket of every keyed relation, the whole of every other. */
  method Sliced(data: Data, key: KeyColumns, hash: int -> nat, slice: nat, slices: nat) returns (held: Data)
    requires |key| == |data| && slices > 0 && forall r, i :: 0 <= r < |data| && 0 <= i < |data[r]| ==> key[r] < |data[r][i]|
    ensures held == SlicedData(data, key, hash, slice, slices)
  {
    held := [];
    for relation := 0 to |data|
      invariant |held| == relation
      invariant forall r :: 0 <= r < relation ==> held[r] == Bucket(data[r], key[r], hash, slice, slices)
    {
      var c, rows: seq<Row> := key[relation], [];
      if c < 0 {
        BucketMembers(data[relation], c, hash, slice, slices);
        rows := data[relation];
      } else {
        for i := 0 to |data[relation]|
          invariant rows == Bucket(data[relation][..i], c, hash, slice, slices)
        {
          var row := data[relation][i];
          assert data[relation][..i + 1] == data[relation][..i] + [row];
          BucketAppend(data[relation][..i], [row], c, hash, slice, slices);
          assert [row][1..] == [];
          if hash(row[c]) % slices != slice { continue; }
          rows := rows + [row];
        }
        assert data[relation][..|data[relation]|] == data[relation];
      }
      held := held + [rows];
    }
  }

  //
  // What a bucket's join is
  //

  /** The tuple's keyed column of relation `r` falls in the bucket. */
  predicate InBucketAt(t: Tuple, g: QueryGraph, key: KeyColumns, r: nat, hash: int -> nat, slice: nat, slices: nat)
    requires r < |key| == RelationCount(g) && slices > 0
  {
    key[r] < 0 || (AttributeOf(g, r, key[r]) in t && hash(t[AttributeOf(g, r, key[r])]) % slices == slice)
  }

  function KeyedAt(g: QueryGraph, key: KeyColumns, r: nat, hash: int -> nat, slice: nat, slices: nat): Tuple -> bool
    requires r < |key| == RelationCount(g) && slices > 0
  {
    t => InBucketAt(t, g, key, r, hash, slice, slices)
  }

  function KeyedIn(g: QueryGraph, key: KeyColumns, rs: seq<nat>, hash: int -> nat, slice: nat, slices: nat): Tuple -> bool
    requires |key| == RelationCount(g) && slices > 0
  {
    t => forall r :: r in rs && r < |key| ==> InBucketAt(t, g, key, r, hash, slice, slices)
  }

  ghost function Scan(g: QueryGraph, r: nat, rows: seq<Row>): seq<Tuple>
    requires r < RelationCount(g) && forall row :: row in rows ==> |row| == g.columnCounts[r]
  {
    seq(|rows|, i requires 0 <= i < |rows| => TupleOf(g, r, rows[i]))
  }

  lemma RowKeeps(g: QueryGraph, r: nat, row: Row, key: KeyColumns, hash: int -> nat, slice: nat, slices: nat)
    requires r < RelationCount(g) && |row| == g.columnCounts[r] && slices > 0 && KeyColumnsOk(g, key)
    ensures KeepsRow(row, key[r], hash, slice, slices) == KeyedAt(g, key, r, hash, slice, slices)(TupleOf(g, r, row))
  {
    if key[r] >= 0 { AttributeInjective(g, r, key[r], r, key[r]); }
  }

  lemma ScanCons(g: QueryGraph, r: nat, row: Row, rest: seq<Row>)
    requires r < RelationCount(g) && |row| == g.columnCounts[r] && forall q :: q in rest ==> |q| == g.columnCounts[r]
    ensures forall q :: q in [row] + rest ==> |q| == g.columnCounts[r]
    ensures Scan(g, r, [row] + rest) == [TupleOf(g, r, row)] + Scan(g, r, rest)
  {
    forall q | q in [row] + rest ensures |q| == g.columnCounts[r] { assert q == row || q in rest; }
  }

  lemma {:induction false} ScanBucket(g: QueryGraph, r: nat, rows: seq<Row>, key: KeyColumns, hash: int -> nat, slice: nat, slices: nat)
    requires r < RelationCount(g) && (forall row :: row in rows ==> |row| == g.columnCounts[r]) && slices > 0
    requires KeyColumnsOk(g, key)
    ensures var kept := Bucket(rows, key[r], hash, slice, slices);
      && (forall row :: row in kept ==> |row| == g.columnCounts[r])
      && Scan(g, r, kept) == Filter(Scan(g, r, rows), KeyedAt(g, key, r, hash, slice, slices))
  {
    hide TupleOf, KeepsRow, KeyedAt, Scan, Filter;
    if rows == [] {
      ScanNothing(g, r, KeyedAt(g, key, r, hash, slice, slices));
    } else {
      var row, rest := rows[0], rows[1..];
      assert rows == [row] + rest && row in rows && forall q :: q in rest ==> q in rows;
      ScanBucket(g, r, rest, key, hash, slice, slices);
      RowKeeps(g, r, row, key, hash, slice, slices);
      ScanCons(g, r, row, rest);
      FilterCons(TupleOf(g, r, row), Scan(g, r, rest), KeyedAt(g, key, r, hash, slice, slices));
      if KeepsRow(row, key[r], hash, slice, slices) { ScanCons(g, r, row, Bucket(rest, key[r], hash, slice, slices)); }
    }
  }

  lemma ScanNothing(g: QueryGraph, r: nat, f: Tuple -> bool)
    requires r < RelationCount(g)
    ensures Scan(g, r, []) == [] && Filter(Scan(g, r, []), f) == []
  {}

  lemma ScannedSliced(g: QueryGraph, data: Data, key: KeyColumns, r: nat, hash: int -> nat, slice: nat, slices: nat)
    requires TypesGiven(g) && ValidData(g, data) && KeyColumnsOk(g, key) && r < RelationCount(g) && slices > 0
    ensures ValidData(g, SlicedData(data, key, hash, slice, slices))
    ensures Scanned(g, SlicedData(data, key, hash, slice, slices), r)
         == Filter(Scanned(g, data, r), KeyedAt(g, key, r, hash, slice, slices))
  {
    SlicedValid(g, data, key, hash, slice, slices);
    RowsWide(g, data, r);
    ScanBucket(g, r, data[r], key, hash, slice, slices);
    assert Scanned(g, data, r) == Scan(g, r, data[r]);
    assert Scanned(g, SlicedData(data, key, hash, slice, slices), r) == Scan(g, r, Bucket(data[r], key[r], hash, slice, slices));
  }

  lemma RowsWide(g: QueryGraph, data: Data, r: nat)
    requires TypesGiven(g) && ValidData(g, data) && r < RelationCount(g)
    ensures forall row :: row in data[r] ==> |row| == g.columnCounts[r]
  {
    forall row | row in data[r] ensures |row| == g.columnCounts[r] {
      var i :| 0 <= i < |data[r]| && data[r][i] == row;
      assert ValidRow(g, r, data[r][i]);
    }
  }

  /** The product of the bucketed relations is the bucket of the product. */
  lemma {:induction false} CrossSliced(g: QueryGraph, data: Data, key: KeyColumns, rs: seq<nat>, hash: int -> nat, slice: nat, slices: nat)
    requires TypesGiven(g) && ValidData(g, data) && KeyColumnsOk(g, key) && Distinct(rs) && slices > 0
    requires forall r :: r in rs ==> r < RelationCount(g)
    ensures ValidData(g, SlicedData(data, key, hash, slice, slices))
    ensures CrossSeq(ScansOf(g, SlicedData(data, key, hash, slice, slices), rs))
         == Filter(CrossSeq(ScansOf(g, data, rs)), KeyedIn(g, key, rs, hash, slice, slices))
  {
    SlicedValid(g, data, key, hash, slice, slices);
    hide Scanned, ValidData, Cross, CrossSeq, KeyedIn, KeyedAt;
    var sliced := SlicedData(data, key, hash, slice, slices);
    if rs == [] {
      NothingKeyed(g, key, hash, slice, slices);
    } else {
      var r, rest := rs[0], rs[1..];
      assert r in rs && forall q :: q in rest ==> q in rs;
      CrossSliced(g, data, key, rest, hash, slice, slices);
      ScannedSliced(g, data, key, r, hash, slice, slices);
      ScansStep(g, data, rs);
      ScansStep(g, sliced, rs);
      CrossKeys(g, data, rest);
      ScannedKeys(g, data, r);
      forall x, y | x in Scanned(g, data, r) && y in CrossSeq(ScansOf(g, data, rest))
        ensures KeyedIn(g, key, rs, hash, slice, slices)(x + y)
             == (KeyedAt(g, key, r, hash, slice, slices)(x) && KeyedIn(g, key, rest, hash, slice, slices)(y))
      {
        KeyedApart(g, key, rs, hash, slice, slices, x, y);
      }
      FilterCross(Scanned(g, data, r), CrossSeq(ScansOf(g, data, rest)), KeyedIn(g, key, rs, hash, slice, slices),
                  KeyedAt(g, key, r, hash, slice, slices), KeyedIn(g, key, rest, hash, slice, slices));
    }
  }

  lemma ScansStep(g: QueryGraph, data: Data, rs: seq<nat>)
    requires TypesGiven(g) && ValidData(g, data) && rs != [] && (forall r :: r in rs ==> r < RelationCount(g))
    requires forall r :: r in rs[1..] ==> r < RelationCount(g)
    ensures rs[0] in rs && CrossSeq(ScansOf(g, data, rs)) == Cross(Scanned(g, data, rs[0]), CrossSeq(ScansOf(g, data, rs[1..])))
  {
    assert ScansOf(g, data, rs)[1..] == ScansOf(g, data, rs[1..]);
  }

  lemma NothingKeyed(g: QueryGraph, key: KeyColumns, hash: int -> nat, slice: nat, slices: nat)
    requires |key| == RelationCount(g) && slices > 0
    ensures Filter([map[]], KeyedIn(g, key, [], hash, slice, slices)) == [map[]]
  {
    var unit: seq<Tuple> := [map[]];
    assert unit[1..] == [];
  }

  lemma KeyedApart(g: QueryGraph, key: KeyColumns, rs: seq<nat>, hash: int -> nat, slice: nat, slices: nat, x: Tuple, y: Tuple)
    requires KeyColumnsOk(g, key) && Distinct(rs) && rs != [] && slices > 0 && forall r :: r in rs ==> r < RelationCount(g)
    requires (forall r :: r in rs[1..] ==> r < RelationCount(g))
    requires rs[0] < RelationCount(g) && x.Keys == AttributesOf(g, rs[0]) && y.Keys == AttrsJoined(g, rs[1..])
    ensures KeyedIn(g, key, rs, hash, slice, slices)(x + y)
         == (KeyedAt(g, key, rs[0], hash, slice, slices)(x) && KeyedIn(g, key, rs[1..], hash, slice, slices)(y))
  {
    hide AttributesOf;
    var r0, rest := rs[0], rs[1..];
    assert rs == [r0] + rest && r0 in rs;
    if key[r0] >= 0 { KeyApart(g, key, rs, x, y); }
    forall r | r in rest ensures InBucketAt(x + y, g, key, r, hash, slice, slices) == InBucketAt(y, g, key, r, hash, slice, slices) {
      if key[r] >= 0 {
        AttributeInjective(g, r, key[r], r, key[r]);
        assert AttributeOf(g, r, key[r]) in AttrsJoined(g, rest);
      }
    }
    assert InBucketAt(x + y, g, key, r0, hash, slice, slices) == InBucketAt(x, g, key, r0, hash, slice, slices);
  }

  lemma KeyApart(g: QueryGraph, key: KeyColumns, rs: seq<nat>, x: Tuple, y: Tuple)
    requires KeyColumnsOk(g, key) && Distinct(rs) && rs != [] && forall r :: r in rs ==> r < RelationCount(g)
    requires (forall r :: r in rs[1..] ==> r < RelationCount(g)) && rs[0] < RelationCount(g) && key[rs[0]] >= 0
    requires x.Keys == AttributesOf(g, rs[0]) && y.Keys == AttrsJoined(g, rs[1..])
    ensures var a := AttributeOf(g, rs[0], key[rs[0]]); a in x && a !in y
  {
    var r0 := rs[0];
    AttributeInjective(g, r0, key[r0], r0, key[r0]);
    if AttributeOf(g, r0, key[r0]) in y {
      var q :| q in rs[1..] && AttributeOf(g, r0, key[r0]) in AttributesOf(g, q);
      RelationsApart(g, r0, q);
    }
  }

  /** Two tests may be applied in either order. */
  lemma FilterEitherWay<T>(b: seq<T>, f: T -> bool, h: T -> bool)
    ensures Filter(Filter(b, f), h) == Filter(Filter(b, h), f)
  {
    FilterTwice(b, f, h);
    FilterTwice(b, h, f);
    FilterSame(b, Filters.Both(f, h), Filters.Both(h, f));
  }

  /** Joining the bucketed relations finds, whatever the columns, the rows all of whose keyed columns
      fall in the bucket. */
  lemma SlicedJoin(g: QueryGraph, data: Data, ps: seq<Predicate>, key: KeyColumns, hash: int -> nat, slice: nat, slices: nat)
    requires TypesGiven(g) && ValidData(g, data) && KeyColumnsOk(g, key) && slices > 0
    ensures ValidData(g, SlicedData(data, key, hash, slice, slices))
    ensures WordJoin(g, SlicedData(data, key, hash, slice, slices), ps)
         == Filter(WordJoin(g, data, ps), KeyedIn(g, key, Relations(g), hash, slice, slices))
  {
    hide ValidData, CrossSeq, KeyedIn, SameWords;
    CrossSliced(g, data, key, Relations(g), hash, slice, slices);
    FilterEitherWay(CrossSeq(ScansOf(g, data, Relations(g))), KeyedIn(g, key, Relations(g), hash, slice, slices), SameWords(g, ps));
  }

  //
  // One value per row
  //

  /** The row's keyed columns all hold one value. */
  predicate OneValue(t: Tuple, g: QueryGraph, key: KeyColumns)
    requires |key| == RelationCount(g)
  {
    && (forall r :: 0 <= r < |key| && key[r] >= 0 ==> AttributeOf(g, r, key[r]) in t)
    && forall r, s :: 0 <= r < |key| && 0 <= s < |key| && key[r] >= 0 && key[s] >= 0 ==>
      t[AttributeOf(g, r, key[r])] == t[AttributeOf(g, s, key[s])]
  }

  predicate SomeKey(key: KeyColumns) {
    exists r :: 0 <= r < |key| && key[r] >= 0
  }

  /** The first keyed relation. */
  function FirstKeyed(key: KeyColumns): (r: nat)
    ensures r <= |key| && (r < |key| ==> key[r] >= 0) && (r == |key| ==> !SomeKey(key))
  {
    if key == [] then 0
    else if key[0] >= 0 then 0
    else
      var rest := FirstKeyed(key[1..]);
      assert forall s :: 0 < s < |key| ==> key[s] == key[1..][s - 1];
      1 + rest
  }

  //
  // The buckets of one modulus
  //

  /** Each number tests whether all keyed columns fall in that bucket. */
  function Buckets(g: QueryGraph, key: KeyColumns, hash: int -> nat, slices: nat): nat -> Tuple -> bool
    requires |key| == RelationCount(g) && slices > 0
  {
    (slice: nat) => KeyedIn(g, key, Relations(g), hash, slice, slices)
  }

  lemma FirstDecides(t: Tuple, g: QueryGraph, key: KeyColumns, hash: int -> nat, slice: nat, slices: nat)
    requires |key| == RelationCount(g) && SomeKey(key) && slices > 0 && KeyedIn(g, key, Relations(g), hash, slice, slices)(t)
    ensures FirstKeyed(key) < |key| && InBucketAt(t, g, key, FirstKeyed(key), hash, slice, slices)
  {
    var first, rs := FirstKeyed(key), Relations(g);
    assert rs[first] == first && first in rs;
  }

  /** No row is in two buckets of one modulus. */
  lemma BucketsApart(g: QueryGraph, key: KeyColumns, hash: int -> nat, slices: nat, n: nat)
    requires |key| == RelationCount(g) && SomeKey(key) && slices > 0
    ensures Exclusive(Buckets(g, key, hash, slices), n)
  {
    hide KeyedIn;
    var at := Buckets(g, key, hash, slices);
    forall t: Tuple, i: nat, j: nat | i < j < n ensures !(at(i)(t) && at(j)(t)) {
      if at(i)(t) && at(j)(t) {
        FirstDecides(t, g, key, hash, i, slices);
        FirstDecides(t, g, key, hash, j, slices);
      }
    }
  }

  /** A row with one value in its keyed columns is in the bucket of that value. */
  lemma OneValueBucket(t: Tuple, g: QueryGraph, key: KeyColumns, hash: int -> nat, slices: nat) returns (slice: nat)
    requires |key| == RelationCount(g) && SomeKey(key) && OneValue(t, g, key) && slices > 0
    ensures slice < slices && KeyedIn(g, key, Relations(g), hash, slice, slices)(t)
  {
    var first := FirstKeyed(key);
    slice := hash(t[AttributeOf(g, first, key[first])]) % slices;
    forall r | r in Relations(g) && r < |key| ensures InBucketAt(t, g, key, r, hash, slice, slices) {}
  }

  /** Where every row found holds one value in its keyed columns, the buckets partition the rows. */
  lemma BucketsPartition(b: seq<Tuple>, g: QueryGraph, key: KeyColumns, hash: int -> nat, slices: nat)
    requires |key| == RelationCount(g) && SomeKey(key) && slices > 0 && forall t :: t in b ==> OneValue(t, g, key)
    ensures Perm(Pieces(b, Buckets(g, key, hash, slices), slices), b)
  {
    hide KeyedIn, OneValue;
    BucketsApart(g, key, hash, slices, slices);
    forall t | t in b ensures AnyOf(Buckets(g, key, hash, slices), slices)(t) {
      var slice := OneValueBucket(t, g, key, hash, slices);
      assert Buckets(g, key, hash, slices)(slice)(t);
    }
    PiecesPartition(b, Buckets(g, key, hash, slices), slices);
  }

  //
  // Finer buckets
  //

  /** The finer buckets congruent to one bucket. */
  function FinerBuckets(g: QueryGraph, key: KeyColumns, hash: int -> nat, slice: nat, slices: nat, factor: nat): nat -> Tuple -> bool
    requires |key| == RelationCount(g) && slices > 0 && factor > 0
  {
    (part: nat) => if slices * factor > 0 then KeyedIn(g, key, Relations(g), hash, slice + part * slices, slices * factor) else t => false
  }

  lemma Product(a: nat, b: nat)
    requires a > 0 && b > 0
    ensures a * b > 0
  {}

  /** A value is in a finer bucket exactly if it is in the coarse one and its quotient is right. */
  lemma FinerAt(h: nat, slice: nat, slices: nat, factor: nat, part: nat)
    requires slice < slices && factor > 0 && part < factor
    ensures slices * factor > 0
    ensures h % (slices * factor) == slice + part * slices <==> h % slices == slice && (h / slices) % factor == part
  {
    FinerModulus(h, slices, factor);
    SameDigits(h % slices, (h / slices) % factor, slice, part, slices);
  }

  lemma FinerInside(t: Tuple, g: QueryGraph, key: KeyColumns, hash: int -> nat, slice: nat, slices: nat, factor: nat, part: nat)
    requires |key| == RelationCount(g) && slice < slices && factor > 0 && part < factor
    requires FinerBuckets(g, key, hash, slice, slices, factor)(part)(t)
    ensures KeyedIn(g, key, Relations(g), hash, slice, slices)(t)
  {
    Product(slices, factor);
    forall r | r in Relations(g) && r < |key| ensures InBucketAt(t, g, key, r, hash, slice, slices) {
      assert InBucketAt(t, g, key, r, hash, slice + part * slices, slices * factor);
      if key[r] >= 0 { FinerAt(hash(t[AttributeOf(g, r, key[r])]), slice, slices, factor, part); }
    }
  }

  lemma FinerApart(g: QueryGraph, key: KeyColumns, hash: int -> nat, slice: nat, slices: nat, factor: nat, n: nat)
    requires |key| == RelationCount(g) && SomeKey(key) && slices > 0 && factor > 0
    ensures Exclusive(FinerBuckets(g, key, hash, slice, slices, factor), n)
  {
    hide KeyedIn;
    Product(slices, factor);
    var at := FinerBuckets(g, key, hash, slice, slices, factor);
    forall t: Tuple, i: nat, j: nat | i < j < n ensures !(at(i)(t) && at(j)(t)) {
      if at(i)(t) && at(j)(t) {
        FirstDecides(t, g, key, hash, slice + i * slices, slices * factor);
        FirstDecides(t, g, key, hash, slice + j * slices, slices * factor);
        Further(i, j, slices);
      }
    }
  }

  lemma Further(i: nat, j: nat, m: nat)
    requires i < j && m > 0
    ensures i * m < j * m
  {}

  /** The finer buckets never hold more than the bucket they refine, and partition it where its rows
      hold one value in their keyed columns. */
  lemma FinerBucketsPartition(b: seq<Tuple>, g: QueryGraph, key: KeyColumns, hash: int -> nat, slice: nat, slices: nat, factor: nat)
    requires |key| == RelationCount(g) && SomeKey(key) && slice < slices && factor > 0
    ensures var parts, whole := Pieces(b, FinerBuckets(g, key, hash, slice, slices, factor), factor),
                                Filter(b, KeyedIn(g, key, Relations(g), hash, slice, slices));
      multiset(parts) <= multiset(whole) && ((forall t :: t in b ==> OneValue(t, g, key)) ==> Perm(parts, whole))
  {
    hide KeyedIn, OneValue;
    var at, inside := FinerBuckets(g, key, hash, slice, slices, factor), KeyedIn(g, key, Relations(g), hash, slice, slices);
    FinerApart(g, key, hash, slice, slices, factor, factor);
    PiecesAre(b, at, factor);
    forall t | t in b && AnyOf(at, factor)(t) ensures inside(t) {
      var part :| 0 <= part < factor && at(part)(t);
      FinerInside(t, g, key, hash, slice, slices, factor, part);
    }
    FilterStricter(b, AnyOf(at, factor), inside);
    if forall t :: t in b ==> OneValue(t, g, key) {
      forall t | t in b ensures AnyOf(at, factor)(t) == inside(t) {
        if inside(t) { FinerCovers(t, g, key, hash, slice, slices, factor); }
      }
      FilterSame(b, AnyOf(at, factor), inside);
    }
  }

  lemma FinerCovers(t: Tuple, g: QueryGraph, key: KeyColumns, hash: int -> nat, slice: nat, slices: nat, factor: nat)
    requires |key| == RelationCount(g) && SomeKey(key) && slice < slices && factor > 0
    requires OneValue(t, g, key) && KeyedIn(g, key, Relations(g), hash, slice, slices)(t)
    ensures AnyOf(FinerBuckets(g, key, hash, slice, slices, factor), factor)(t)
  {
    hide KeyedIn;
    Product(slices, factor);
    FirstDecides(t, g, key, hash, slice, slices);
    var fine := OneValueBucket(t, g, key, hash, slices * factor);
    FirstDecides(t, g, key, hash, fine, slices * factor);
    var first := FirstKeyed(key);
    var h := hash(t[AttributeOf(g, first, key[first])]);
    FinerModulus(h, slices, factor);
    assert FinerBuckets(g, key, hash, slice, slices, factor)((h / slices) % factor)(t);
  }

  //
  // Summing over the buckets, whatever the columns
  //

  /** All keyed columns of the row fall into one bucket. */
  predicate OneBucket(t: Tuple, g: QueryGraph, key: KeyColumns, hash: int -> nat, slices: nat)
    requires |key| == RelationCount(g) && slices > 0
  {
    AnyOf(Buckets(g, key, hash, slices), slices)(t)
  }

  /** The rows the first `n` buckets' joins hold together. */
  ghost function BucketedCount(g: QueryGraph, data: Data, ps: seq<Predicate>, key: KeyColumns, hash: int -> nat, slices: nat, n: nat): nat
    requires TypesGiven(g) && ValidData(g, data) && KeyColumnsOk(g, key) && slices > 0 && n <= slices
  {
    if n == 0 then 0
    else
      SlicedValid(g, data, key, hash, n - 1, slices);
      BucketedCount(g, data, ps, key, hash, slices, n - 1) + |WordJoin(g, SlicedData(data, key, hash, n - 1, slices), ps)|
  }

  lemma {:induction false} BucketedIs(g: QueryGraph, data: Data, ps: seq<Predicate>, key: KeyColumns, hash: int -> nat, slices: nat, n: nat)
    requires TypesGiven(g) && ValidData(g, data) && KeyColumnsOk(g, key) && slices > 0 && n <= slices
    ensures BucketedCount(g, data, ps, key, hash, slices, n) == |Pieces(WordJoin(g, data, ps), Buckets(g, key, hash, slices), n)|
  {
    hide ValidData, WordJoin, KeyedIn;
    if n > 0 {
      BucketedIs(g, data, ps, key, hash, slices, n - 1);
      SlicedJoin(g, data, ps, key, hash, n - 1, slices);
    }
  }

  /** The buckets' joins add up to the whole join just when no row's keyed columns are spread
      over two buckets. */
  lemma BucketsExactIff(g: QueryGraph, data: Data, ps: seq<Predicate>, key: KeyColumns, hash: int -> nat, slices: nat)
    requires TypesGiven(g) && ValidData(g, data) && KeyColumnsOk(g, key) && SomeKey(key) && slices > 0
    ensures BucketedCount(g, data, ps, key, hash, slices, slices) == |WordJoin(g, data, ps)|
      <==> forall t :: t in WordJoin(g, data, ps) ==> OneBucket(t, g, key, hash, slices)
  {
    hide WordJoin, KeyedIn;
    var b, at := WordJoin(g, data, ps), Buckets(g, key, hash, slices);
    BucketedIs(g, data, ps, key, hash, slices, slices);
    BucketsApart(g, key, hash, slices, slices);
    PiecesAre(b, at, slices);
    PermLength(Pieces(b, at, slices), Filter(b, AnyOf(at, slices)));
    FilterAll(b, AnyOf(at, slices));
  }
}
