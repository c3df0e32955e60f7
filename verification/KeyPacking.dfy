/** Composite join keys packed into one 64-bit word. */
module KeyPacking {
  import opened Checked

  datatype ValueType = INT32 | INT64

  const TWO32: int := 0x1_0000_0000
  const TWO64: int := 0x1_0000_0000_0000_0000

  function Bits(t: ValueType): nat {
    if t == INT32 then 32 else 64
  }

  function TotalBits(ts: seq<ValueType>): nat {
    if ts == [] then 0 else Bits(ts[0]) + TotalBits(ts[1..])
  }

  predicate InRange(t: ValueType, v: int) {
    match t
    case INT32 => -0x8000_0000 <= v < 0x8000_0000
    case INT64 => Int64(v)
  }

  ghost predicate AllInRange(ts: seq<ValueType>, vs: seq<int>) {
    |ts| == |vs| && forall i :: 0 <= i < |ts| ==> InRange(ts[i], vs[i])
  }

  function Pow2(n: nat): nat {
    if n == 0 then 1 else 2 * Pow2(n - 1)
  }

  /** The reader's loop: a 32-bit column is placed, zero-extended, above the bits used so
      far, and a 64-bit column replaces the word. Unused bits are zero, so placing is adding. */
  function PackFrom(ts: seq<ValueType>, vs: seq<int>, bit: nat, packed: nat): nat
    requires |ts| == |vs|
  {
    if ts == [] then packed
    else if ts[0] == INT32 then PackFrom(ts[1..], vs[1..], bit + 32, packed + vs[0] % TWO32 * Pow2(bit))
    else PackFrom(ts[1..], vs[1..], bit + 64, vs[0] % TWO64)
  }

  function Pack(ts: seq<ValueType>, vs: seq<int>): nat
    requires |ts| == |vs|
  {
    PackFrom(ts, vs, 0, 0)
  }

  /** The word a key is looked up by; keys of another width do not occur. */
  function Word(ts: seq<ValueType>, vs: seq<int>): nat {
    if |ts| == |vs| then Pack(ts, vs) else 0
  }

  /** The bits one column contributes. */
  function Unsigned(t: ValueType, v: int): nat {
    v % (if t == INT32 then TWO32 else TWO64)
  }

  lemma Pow2Of32()
    ensures Pow2(0) == 1 && Pow2(32) == TWO32
  {
    assert Pow2(8) == 256;
    assert Pow2(16) == 65536 by { assert Pow2(12) == 4096; }
    assert Pow2(24) == 16777216 by { assert Pow2(20) == 1048576; }
    assert Pow2(28) == 268435456;
  }

  /** What fits into 64 bits: nothing, one column of either width, or two narrow ones. */
  lemma KeyShapes(ts: seq<ValueType>)
    requires TotalBits(ts) <= 64
    ensures ts == [] || ts == [INT32] || ts == [INT64] || ts == [INT32, INT32]
  {
    if |ts| >= 2 {
      assert TotalBits(ts) == Bits(ts[0]) + (Bits(ts[1]) + TotalBits(ts[1..][1..]));
      assert |ts| == 2;
      assert ts == [ts[0], ts[1]];
    } else if |ts| == 1 {
      assert ts == [ts[0]];
    }
  }

  lemma PackOne(t: ValueType, v: int)
    ensures Pack([t], [v]) == Unsigned(t, v)
  {
    Pow2Of32();
    assert [t][1..] == [] && [v][1..] == [];
    var word := Unsigned(t, v);
    assert Pack([t], [v]) == PackFrom([], [], Bits(t), word) by {
      if t == INT32 { assert 0 + v % TWO32 * Pow2(0) == word; }
    }
  }

  lemma PackTwo(v: int, w: int)
    ensures Pack([INT32, INT32], [v, w]) == v % TWO32 + w % TWO32 * TWO32
  {
    Pow2Of32();
    var ts, vs := [INT32, INT32], [v, w];
    assert ts[1..] == [INT32] && vs[1..] == [w];
    assert [INT32][1..] == [] && [w][1..] == [];
    var low := v % TWO32;
    assert Pack(ts, vs) == PackFrom([INT32], [w], 32, low);
    assert PackFrom([INT32], [w], 32, low) == PackFrom([], [], 64, low + w % TWO32 * TWO32);
  }

  lemma Words(a: nat, b: nat, c: nat, d: nat)
    requires a < TWO32 && c < TWO32
    ensures a + b * TWO32 == c + d * TWO32 <==> a == c && b == d
  {}

  /** Column by column the two keys have the same bits. */
  ghost predicate SameBits(ta: seq<ValueType>, tb: seq<ValueType>, a: seq<int>, b: seq<int>)
    requires |ta| == |a| && |tb| == |b|
  {
    |ta| == |tb| && forall i :: 0 <= i < |ta| ==> Unsigned(ta[i], a[i]) == Unsigned(tb[i], b[i])
  }

  /** Packing keeps the columns apart, whatever their widths on the two sides. */
  lemma PackedByColumn(ta: seq<ValueType>, tb: seq<ValueType>, a: seq<int>, b: seq<int>)
    requires |ta| == |a| == |tb| == |b| && TotalBits(ta) <= 64 && TotalBits(tb) <= 64
    ensures Pack(ta, a) == Pack(tb, b) <==> SameBits(ta, tb, a, b)
  {
    KeyShapes(ta);
    KeyShapes(tb);
    if |ta| == 1 {
      assert a == [a[0]] && b == [b[0]] && ta == [ta[0]] && tb == [tb[0]];
      PackOne(ta[0], a[0]);
      PackOne(tb[0], b[0]);
    } else if |ta| == 2 {
      assert a == [a[0], a[1]] && b == [b[0], b[1]];
      PackTwo(a[0], a[1]);
      PackTwo(b[0], b[1]);
      Words(a[0] % TWO32, a[1] % TWO32, b[0] % TWO32, b[1] % TWO32);
    }
  }

  /** In one width the bits determine the value. */
  lemma UnsignedInjective(t: ValueType, v: int, w: int)
    requires InRange(t, v) && InRange(t, w)
    ensures Unsigned(t, v) == Unsigned(t, w) <==> v == w
  {}

  /** Under one type list the packed word determines the key. */
  lemma PackInjective(ts: seq<ValueType>, a: seq<int>, b: seq<int>)
    requires TotalBits(ts) <= 64 && AllInRange(ts, a) && AllInRange(ts, b)
    ensures Pack(ts, a) == Pack(ts, b) <==> a == b
  {
    PackedByColumn(ts, ts, a, b);
    forall i | 0 <= i < |ts| ensures Unsigned(ts[i], a[i]) == Unsigned(ts[i], b[i]) <==> a[i] == b[i] {
      UnsignedInjective(ts[i], a[i], b[i]);
    }
  }

  /** Every pattern of 32 bits is the pattern of exactly one value a 32-bit column holds, and every
      pattern of 64 bits of exactly one value a 64-bit column holds. */
  lemma EveryPattern(t: ValueType, w: nat)
    requires w < if t == INT32 then 0x1_0000_0000 else 0x1_0000_0000_0000_0000
    ensures exists v :: InRange(t, v) && Unsigned(t, v) == w && forall u :: InRange(t, u) && Unsigned(t, u) == w ==> u == v
  {
    var whole := if t == INT32 then TWO32 else TWO64;
    var v: int := if 2 * w < whole then w else w - whole;
    assert InRange(t, v) && Unsigned(t, v) == w;
    forall u | InRange(t, u) && Unsigned(t, u) == w ensures u == v { UnsignedInjective(t, u, v); }
  }

  /** The two sides compare keys by value. */
  ghost predicate PackFaithful(ta: seq<ValueType>, tb: seq<ValueType>) {
    forall a, b :: AllInRange(ta, a) && AllInRange(tb, b) ==> (Pack(ta, a) == Pack(tb, b) <==> a == b)
  }

  /** A negative value of a narrow column never meets the same value of a wide one. */
  lemma MixedTypesMiss()
    ensures !PackFaithful([INT32], [INT64]) && !PackFaithful([INT64], [INT32])
  {
    PackOne(INT32, -1);
    PackOne(INT64, -1);
    assert AllInRange([INT32], [-1]) && AllInRange([INT64], [-1]);
  }

  /** Comparing packed keys is comparing keys exactly when the two sides' column types agree
      position by position. */
  lemma PackFaithfulIffTypesAgree(ta: seq<ValueType>, tb: seq<ValueType>)
    requires |ta| == |tb| && TotalBits(ta) <= 64 && TotalBits(tb) <= 64
    ensures PackFaithful(ta, tb) <==> ta == tb
  {
    if ta == tb {
      forall a, b | AllInRange(ta, a) && AllInRange(tb, b) ensures Pack(ta, a) == Pack(tb, b) <==> a == b {
        PackInjective(ta, a, b);
      }
    } else {
      KeyShapes(ta);
      KeyShapes(tb);
      MixedTypesMiss();
    }
  }
}
