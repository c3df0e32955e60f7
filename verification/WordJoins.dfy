/** Between key columns of one width on both sides, comparing packed words is comparing values. */
module WordJoins {
  import opened Bags
  import opened FlatJoins
  import opened KeyPacking
  import opened Ranges
  import opened SqlJoins

  /** The two sides' key columns have the same widths and fit a word. */
  predicate SameWidths(types: Types, ka: seq<Attr>, kb: seq<Attr>) {
    TypesOf(types, ka) == TypesOf(types, kb) && TotalBits(TypesOf(types, ka)) <= 64
  }

  lemma KeyFits(t: Tuple, types: Types, keys: seq<Attr>)
    requires TupleRanged(t, types)
    ensures AllInRange(TypesOf(types, keys), KeyOf(t, keys))
  {
    forall i | 0 <= i < |keys| ensures InRange(TypesOf(types, keys)[i], KeyOf(t, keys)[i]) {}
  }

  lemma {:induction false} MeetingSame(b: seq<Tuple>, types: Types, ka: seq<Attr>, kb: seq<Attr>, t: Tuple)
    requires SameWidths(types, ka, kb) && AllRanged(b, types) && TupleRanged(t, types)
    ensures Meeting(b, kb, KeyOf(t, ka), ByWords(types, ka, kb)) == Meeting(b, kb, KeyOf(t, ka), ByValue)
  {
    if b != [] {
      assert b[0] in b && forall u :: u in b[1..] ==> u in b;
      MeetingSame(b[1..], types, ka, kb, t);
      KeyFits(t, types, ka);
      KeyFits(b[0], types, kb);
      PackInjective(TypesOf(types, ka), KeyOf(t, ka), KeyOf(b[0], kb));
    }
  }

  lemma {:induction false} JoinSame(a: seq<Tuple>, b: seq<Tuple>, types: Types, ka: seq<Attr>, kb: seq<Attr>)
    requires SameWidths(types, ka, kb) && AllRanged(a, types) && AllRanged(b, types)
    ensures BagJoin(a, b, ka, kb, ByWords(types, ka, kb)) == BagJoin(a, b, ka, kb, ByValue)
  {
    if a != [] {
      assert a[0] in a && forall t :: t in a[1..] ==> t in a;
      JoinSame(a[1..], b, types, ka, kb);
      MeetingSame(b, types, ka, kb, a[0]);
    }
  }

  lemma {:induction false} PartneredSame(a: seq<Tuple>, b: seq<Tuple>, types: Types, ka: seq<Attr>, kb: seq<Attr>)
    requires SameWidths(types, ka, kb) && AllRanged(a, types) && AllRanged(b, types)
    ensures Partnered(a, b, ka, kb, ByWords(types, ka, kb)) == Partnered(a, b, ka, kb, ByValue)
    ensures Unpartnered(a, b, ka, kb, ByWords(types, ka, kb)) == Unpartnered(a, b, ka, kb, ByValue)
  {
    if a != [] {
      assert a[0] in a && forall t :: t in a[1..] ==> t in a;
      PartneredSame(a[1..], b, types, ka, kb);
      MeetingSame(b, types, ka, kb, a[0]);
    }
  }

  /** A join of any kind has the same rows by words as by values. */
  lemma SqlRowsSame(kind: JoinKind, preserve: Preserve, a: seq<Tuple>, b: seq<Tuple>, types: Types, ka: seq<Attr>, kb: seq<Attr>)
    requires Legal(kind, preserve) && SameWidths(types, ka, kb) && AllRanged(a, types) && AllRanged(b, types)
    ensures SqlRows(kind, preserve, a, b, ka, kb, ByWords(types, ka, kb)) == SqlRows(kind, preserve, a, b, ka, kb, ByValue)
  {
    JoinSame(a, b, types, ka, kb);
    PartneredSame(a, b, types, ka, kb);
    PartneredSame(b, a, types, kb, ka);
  }
}
