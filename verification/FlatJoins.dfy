/** The equi-join of two bags of flat tuples, and how it passes through products. */
module FlatJoins {
  import opened Bags
  import opened KeyPacking

  /** The values of a composite key. */
  function KeyOf(t: Tuple, keys: seq<Attr>): seq<int> {
    seq(|keys|, i requires 0 <= i < |keys| => if keys[i] in t then t[keys[i]] else 0)
  }

  /** The tuples of `b` with key `k`. */
  function Matching(b: seq<Tuple>, kb: seq<Attr>, k: seq<int>): seq<Tuple> {
    if b == [] then []
    else if KeyOf(b[0], kb) == k then [b[0]] + Matching(b[1..], kb, k)
    else Matching(b[1..], kb, k)
  }

  /** How the keys of two sides are compared: by their values, or by the words they pack into
      under the column types of either side. */
  datatype Comparing = ByValue | ByWord(types: seq<ValueType>, partners: seq<ValueType>)

  predicate Meets(how: Comparing, k: seq<int>, l: seq<int>) {
    match how
    case ByValue => k == l
    case ByWord(ts, us) => Word(ts, k) == Word(us, l)
  }

  /** The same comparison seen from the other side. */
  function Mirrored(how: Comparing): Comparing {
    match how
    case ByValue => ByValue
    case ByWord(ts, us) => ByWord(us, ts)
  }

  /** The tuples of `b` whose key meets `k`. */
  function Meeting(b: seq<Tuple>, kb: seq<Attr>, k: seq<int>, how: Comparing): seq<Tuple> {
    if b == [] then []
    else if Meets(how, k, KeyOf(b[0], kb)) then [b[0]] + Meeting(b[1..], kb, k, how)
    else Meeting(b[1..], kb, k, how)
  }

  /** The tuples of `a`, each beside every tuple of `b` whose key meets its own. */
  function BagJoin(a: seq<Tuple>, b: seq<Tuple>, ka: seq<Attr>, kb: seq<Attr>, how: Comparing): seq<Tuple> {
    if a == [] then []
    else Prefix(a[0], Meeting(b, kb, KeyOf(a[0], ka), how)) + BagJoin(a[1..], b, ka, kb, how)
  }

  lemma {:induction false} MeetingAppend(a: seq<Tuple>, b: seq<Tuple>, kb: seq<Attr>, k: seq<int>, how: Comparing)
    ensures Meeting(a + b, kb, k, how) == Meeting(a, kb, k, how) + Meeting(b, kb, k, how)
  {
    if a == [] {
      assert a + b == b;
    } else {
      assert (a + b)[0] == a[0] && (a + b)[1..] == a[1..] + b;
      MeetingAppend(a[1..], b, kb, k, how);
    }
  }

  lemma MeetingPerm(a: seq<Tuple>, b: seq<Tuple>, kb: seq<Attr>, k: seq<int>, how: Comparing)
    requires Perm(a, b)
    ensures Perm(Meeting(a, kb, k, how), Meeting(b, kb, k, how))
  {
    var h := s => Meeting(s, kb, k, how);
    forall x, y ensures Perm(h(x + y), h(x) + h(y)) { MeetingAppend(x, y, kb, k, how); }
    HomomorphismRespectsPerm(h, a, b);
  }

  lemma MeetingMembers(b: seq<Tuple>, kb: seq<Attr>, k: seq<int>, how: Comparing)
    ensures forall t :: t in Meeting(b, kb, k, how) <==> t in b && Meets(how, k, KeyOf(t, kb))
  {
    if b != [] {
      MeetingMembers(b[1..], kb, k, how);
      assert b == [b[0]] + b[1..];
    }
  }

  lemma MeetingAllOrNone(b: seq<Tuple>, kb: seq<Attr>, own: seq<int>, k: seq<int>, how: Comparing)
    requires forall t :: t in b ==> KeyOf(t, kb) == own
    ensures Meeting(b, kb, k, how) == if Meets(how, k, own) then b else []
  {
    if b != [] {
      assert b[0] in b && forall t :: t in b[1..] ==> t in b;
      MeetingAllOrNone(b[1..], kb, own, k, how);
      assert b == [b[0]] + b[1..];
    }
  }

  lemma {:induction false} MatchingAppend(a: seq<Tuple>, b: seq<Tuple>, kb: seq<Attr>, k: seq<int>)
    ensures Matching(a + b, kb, k) == Matching(a, kb, k) + Matching(b, kb, k)
  {
    if a == [] {
      assert a + b == b;
    } else {
      assert (a + b)[0] == a[0] && (a + b)[1..] == a[1..] + b;
      MatchingAppend(a[1..], b, kb, k);
    }
  }

  lemma MatchingPerm(a: seq<Tuple>, b: seq<Tuple>, kb: seq<Attr>, k: seq<int>)
    requires Perm(a, b)
    ensures Perm(Matching(a, kb, k), Matching(b, kb, k))
  {
    var h := s => Matching(s, kb, k);
    forall x, y ensures Perm(h(x + y), h(x) + h(y)) { MatchingAppend(x, y, kb, k); }
    HomomorphismRespectsPerm(h, a, b);
  }

  lemma MatchingMembers(b: seq<Tuple>, kb: seq<Attr>, k: seq<int>)
    ensures forall t :: t in Matching(b, kb, k) <==> t in b && KeyOf(t, kb) == k
  {
    if b != [] {
      MatchingMembers(b[1..], kb, k);
      assert b == [b[0]] + b[1..];
    }
  }

  lemma {:induction false} BagJoinAppend(a: seq<Tuple>, a': seq<Tuple>, b: seq<Tuple>, ka: seq<Attr>, kb: seq<Attr>, how: Comparing)
    ensures BagJoin(a + a', b, ka, kb, how) == BagJoin(a, b, ka, kb, how) + BagJoin(a', b, ka, kb, how)
  {
    hide Prefix, Meeting, KeyOf;
    if a == [] {
      assert a + a' == a';
    } else {
      assert (a + a')[1..] == a[1..] + a';
      BagJoinAppend(a[1..], a', b, ka, kb, how);
    }
  }

  lemma PrefixPerm(t: Tuple, b: seq<Tuple>, b': seq<Tuple>)
    requires Perm(b, b')
    ensures Perm(Prefix(t, b), Prefix(t, b'))
  {
    CrossCongRight([t], b, b');
    assert Cross([t], b) == Prefix(t, b) && Cross([t], b') == Prefix(t, b');
  }

  lemma BagJoinCongRight(a: seq<Tuple>, b: seq<Tuple>, b': seq<Tuple>, ka: seq<Attr>, kb: seq<Attr>, how: Comparing)
    requires Perm(b, b')
    ensures Perm(BagJoin(a, b, ka, kb, how), BagJoin(a, b', ka, kb, how))
  {
    if a != [] {
      MeetingPerm(b, b', kb, KeyOf(a[0], ka), how);
      PrefixPerm(a[0], Meeting(b, kb, KeyOf(a[0], ka), how), Meeting(b', kb, KeyOf(a[0], ka), how));
      BagJoinCongRight(a[1..], b, b', ka, kb, how);
    }
  }

  lemma BagJoinCong(a: seq<Tuple>, a': seq<Tuple>, b: seq<Tuple>, b': seq<Tuple>, ka: seq<Attr>, kb: seq<Attr>, how: Comparing)
    requires Perm(a, a') && Perm(b, b')
    ensures Perm(BagJoin(a, b, ka, kb, how), BagJoin(a', b', ka, kb, how))
  {
    var h := s => BagJoin(s, b, ka, kb, how);
    forall x, y ensures Perm(h(x + y), h(x) + h(y)) { BagJoinAppend(x, y, b, ka, kb, how); }
    HomomorphismRespectsPerm(h, a, a');
    BagJoinCongRight(a', b, b', ka, kb, how);
  }

  /** Where every tuple of `a` has the same key the join is a product. */
  lemma BagJoinOneKey(a: seq<Tuple>, b: seq<Tuple>, ka: seq<Attr>, kb: seq<Attr>, k: seq<int>, how: Comparing)
    requires forall t :: t in a ==> KeyOf(t, ka) == k
    ensures BagJoin(a, b, ka, kb, how) == Cross(a, Meeting(b, kb, k, how))
  {
    if a != [] {
      assert a[0] in a && forall t :: t in a[1..] ==> t in a;
      BagJoinOneKey(a[1..], b, ka, kb, k, how);
    }
  }

  /** Every tuple of `a` has every attribute of `keys`. */
  ghost predicate HasKeys(a: seq<Tuple>, keys: seq<Attr>) {
    forall t, k :: t in a && k in keys ==> k in t
  }

  ghost predicate LacksKeys(a: seq<Tuple>, keys: seq<Attr>) {
    forall t, k :: t in a && k in keys ==> k !in t
  }

  lemma {:induction false} BagJoinPrefix(t: Tuple, x: seq<Tuple>, b: seq<Tuple>, ka: seq<Attr>, kb: seq<Attr>, how: Comparing)
    requires HasKeys(x, ka)
    ensures BagJoin(Prefix(t, x), b, ka, kb, how) == Prefix(t, BagJoin(x, b, ka, kb, how))
  {
    if x != [] {
      assert x[0] in x && forall u :: u in x[1..] ==> u in x;
      assert Prefix(t, x)[1..] == Prefix(t, x[1..]);
      BagJoinPrefix(t, x[1..], b, ka, kb, how);
      assert KeyOf(t + x[0], ka) == KeyOf(x[0], ka);
      PrefixPrefix(t, x[0], Meeting(b, kb, KeyOf(x[0], ka), how));
      PrefixAppend(t, Prefix(x[0], Meeting(b, kb, KeyOf(x[0], ka), how)), BagJoin(x[1..], b, ka, kb, how));
    }
  }

  /** A join on attributes of the inner factor happens inside the product. */
  lemma BagJoinCrossLeft(a: seq<Tuple>, x: seq<Tuple>, b: seq<Tuple>, ka: seq<Attr>, kb: seq<Attr>, how: Comparing)
    requires HasKeys(x, ka)
    ensures BagJoin(Cross(a, x), b, ka, kb, how) == Cross(a, BagJoin(x, b, ka, kb, how))
  {
    if a != [] {
      BagJoinAppend(Prefix(a[0], x), Cross(a[1..], x), b, ka, kb, how);
      BagJoinPrefix(a[0], x, b, ka, kb, how);
      BagJoinCrossLeft(a[1..], x, b, ka, kb, how);
    }
  }

  lemma KeyOfPrefix(t: Tuple, f: seq<Tuple>, ka: seq<Attr>)
    requires LacksKeys(f, ka)
    ensures forall u :: u in Prefix(t, f) ==> KeyOf(u, ka) == KeyOf(t, ka)
  {
    forall u | u in Prefix(t, f) ensures KeyOf(u, ka) == KeyOf(t, ka) {
      var i :| 0 <= i < |f| && u == t + f[i];
      assert f[i] in f;
    }
  }

  /** A join on attributes of the outer factor leaves the inner one alone. */
  lemma {:induction false} BagJoinCrossRight(x: seq<Tuple>, f: seq<Tuple>, b: seq<Tuple>, ka: seq<Attr>, kb: seq<Attr>, how: Comparing)
    requires LacksKeys(f, ka) && Disjoint(f, b)
    ensures Perm(BagJoin(Cross(x, f), b, ka, kb, how), Cross(BagJoin(x, b, ka, kb, how), f))
  {
    if x != [] {
      var k := KeyOf(x[0], ka);
      var m := Meeting(b, kb, k, how);
      BagJoinAppend(Prefix(x[0], f), Cross(x[1..], f), b, ka, kb, how);
      BagJoinCrossRight(x[1..], f, b, ka, kb, how);
      CrossAppendLeft(Prefix(x[0], m), BagJoin(x[1..], b, ka, kb, how), f);
      assert Perm(BagJoin(Prefix(x[0], f), b, ka, kb, how), Cross(Prefix(x[0], m), f)) by {
        KeyOfPrefix(x[0], f, ka);
        BagJoinOneKey(Prefix(x[0], f), b, ka, kb, k, how);
        CrossPrefix(x[0], f, m);
        CrossPrefix(x[0], m, f);
        MeetingMembers(b, kb, k, how);
        CrossComm(f, m);
        PrefixPerm(x[0], Cross(f, m), Cross(m, f));
      }
    }
  }

  lemma Shuffle<T>(h: seq<T>, p: seq<T>, q: seq<T>, s: seq<T>, rest: seq<T>)
    requires Perm(rest, q + s)
    ensures Perm((h + p) + rest, (h + q) + (p + s))
  {}

  lemma MeetsMirrored(how: Comparing, k: seq<int>, l: seq<int>)
    ensures Meets(Mirrored(how), l, k) <==> Meets(how, k, l)
  {}

  /** One more tuple on the right of a join. */
  lemma {:induction false} BagJoinCons(b: seq<Tuple>, x: Tuple, a: seq<Tuple>, ka: seq<Attr>, kb: seq<Attr>, how: Comparing)
    requires Disjoint([x], b)
    ensures Perm(BagJoin(b, [x] + a, kb, ka, Mirrored(how)),
                 Prefix(x, Meeting(b, kb, KeyOf(x, ka), how)) + BagJoin(b, a, kb, ka, Mirrored(how)))
  {
    if b != [] {
      assert x in [x] && b[0] in b && forall t :: t in b[1..] ==> t in b;
      BagJoinCons(b[1..], x, a, ka, kb, how);
      BagJoinConsStep(b, x, a, ka, kb, how);
    }
  }

  lemma {:induction false} BagJoinConsStep(b: seq<Tuple>, x: Tuple, a: seq<Tuple>, ka: seq<Attr>, kb: seq<Attr>, how: Comparing)
    requires b != [] && x.Keys !! b[0].Keys
    requires Perm(BagJoin(b[1..], [x] + a, kb, ka, Mirrored(how)),
                  Prefix(x, Meeting(b[1..], kb, KeyOf(x, ka), how)) + BagJoin(b[1..], a, kb, ka, Mirrored(how)))
    ensures Perm(BagJoin(b, [x] + a, kb, ka, Mirrored(how)),
                 Prefix(x, Meeting(b, kb, KeyOf(x, ka), how)) + BagJoin(b, a, kb, ka, Mirrored(how)))
  {
    hide Meets, KeyOf;
    MeetsMirrored(how, KeyOf(x, ka), KeyOf(b[0], kb));
    var y, m, m' := b[0], Meeting(a, ka, KeyOf(b[0], kb), Mirrored(how)), Meeting(b[1..], kb, KeyOf(x, ka), how);
    var one: seq<Tuple> := if Meets(how, KeyOf(x, ka), KeyOf(y, kb)) then [x + y] else [];
    assert ([x] + a)[1..] == a;
    assert Prefix(y, Meeting([x] + a, ka, KeyOf(y, kb), Mirrored(how))) == one + Prefix(y, m) by {
      assert x + y == y + x;
      if one != [] { PrefixAppend(y, [x], m); assert Prefix(y, [x]) == one; } else { assert one + Prefix(y, m) == Prefix(y, m); }
    }
    assert Prefix(x, Meeting(b, kb, KeyOf(x, ka), how)) == one + Prefix(x, m') by {
      if one != [] { PrefixAppend(x, [y], m'); assert Prefix(x, [y]) == one; } else { assert one + Prefix(x, m') == Prefix(x, m'); }
    }
    Shuffle(one, Prefix(y, m), Prefix(x, m'), BagJoin(b[1..], a, kb, ka, Mirrored(how)), BagJoin(b[1..], [x] + a, kb, ka, Mirrored(how)));
  }

  /** Which side of a join comes first does not matter. */
  lemma {:induction false} BagJoinComm(a: seq<Tuple>, b: seq<Tuple>, ka: seq<Attr>, kb: seq<Attr>, how: Comparing)
    requires Disjoint(a, b)
    ensures Perm(BagJoin(a, b, ka, kb, how), BagJoin(b, a, kb, ka, Mirrored(how)))
    decreases |a|
  {
    if a == [] {
      BagJoinNothing(b, kb, ka, Mirrored(how));
    } else {
      assert a == [a[0]] + a[1..];
      BagJoinComm(a[1..], b, ka, kb, how);
      BagJoinCons(b, a[0], a[1..], ka, kb, how);
    }
  }

  lemma BagJoinNothing(b: seq<Tuple>, kb: seq<Attr>, ka: seq<Attr>, how: Comparing)
    ensures BagJoin(b, [], kb, ka, how) == []
  {}
}
