/** Signed 128-bit arithmetic on two 64-bit words and 32-bit limbs: exact, or refused. */
module Int128s {
  import opened Bags
  import opened Checked
  import opened KeyPacking

  const TWO63: int := 0x8000_0000_0000_0000
  const TWO127: int := 0x8000_0000_0000_0000_0000_0000_0000_0000

  /** Two's complement: `high` carries the sign. */
  datatype Int128 = Int128(high: int, low: int)

  predicate Word64(x: int) {
    0 <= x < TWO64
  }

  ghost predicate Valid(v: Int128) {
    -TWO63 <= v.high < TWO63 && Word64(v.low)
  }

  function Value(v: Int128): int {
    v.high * TWO64 + v.low
  }

  predicate Fits(x: int) {
    -TWO127 <= x < TWO127
  }

  lemma ValueFits(v: Int128)
    requires Valid(v)
    ensures Fits(Value(v)) && (Value(v) < 0 <==> v.high < 0) && (Value(v) == 0 <==> v == Int128(0, 0))
  {}

  /** A 64-bit word read as a signed one. */
  function Signed(x: int): int {
    if x < TWO63 then x else x - TWO64
  }

  function Unsigned(x: int): int {
    if x < 0 then x + TWO64 else x
  }

  function OfInt64(x: int): (v: Int128)
    requires Int64(x)
    ensures Valid(v) && Value(v) == x
  {
    Int128(if x < 0 then -1 else 0, Unsigned(x))
  }

  /** Invert and add one, carrying into the high word. */
  function Negate(v: Int128): (n: Int128)
    requires Valid(v) && Value(v) != -TWO127
    ensures Valid(n) && Value(n) == -Value(v)
  {
    var low := (TWO64 - 1 - v.low + 1) % TWO64;
    Int128(-v.high - 1 + if low == 0 then 1 else 0, low)
  }

  /** Word by word; refused exactly when the operands share a sign the result has not. */
  function CheckedAdd128(a: Int128, b: Int128): (r: Option<Int128>)
    requires Valid(a) && Valid(b)
    ensures r.Some? <==> Fits(Value(a) + Value(b))
    ensures r.Some? ==> Valid(r.value) && Value(r.value) == Value(a) + Value(b)
  {
    var low := (a.low + b.low) % TWO64;
    var carry := if low < a.low then 1 else 0;
    var high := Signed((Unsigned(a.high) + Unsigned(b.high) + carry) % TWO64);
    AddWords(a, b, low, carry, high);
    if (a.high < 0) == (b.high < 0) && (high < 0) != (a.high < 0) then None else Some(Int128(high, low))
  }

  lemma AddWords(a: Int128, b: Int128, low: int, carry: int, high: int)
    requires Valid(a) && Valid(b) && low == (a.low + b.low) % TWO64 && carry == (if low < a.low then 1 else 0)
    requires high == Signed((Unsigned(a.high) + Unsigned(b.high) + carry) % TWO64)
    ensures Word64(low) && -TWO63 <= high < TWO63
    ensures a.low + b.low == low + carry * TWO64
    ensures high == a.high + b.high + carry || high == a.high + b.high + carry - TWO64 || high == a.high + b.high + carry + TWO64
    ensures ((a.high < 0) == (b.high < 0) && (high < 0) != (a.high < 0)) <==> high != a.high + b.high + carry
  {
    assert a.low + b.low == low + carry * TWO64 by {
      if a.low + b.low < TWO64 { assert low == a.low + b.low; } else { assert low == a.low + b.low - TWO64; }
    }
    var sum := Unsigned(a.high) + Unsigned(b.high) + carry;
    assert sum % TWO64 == if sum < TWO64 then sum else if sum < 2 * TWO64 then sum - TWO64 else sum - 2 * TWO64;
  }

  function Magnitude(x: int): nat {
    if x < 0 then -x else x
  }

  /** The four partial products of two 64-bit magnitudes. */
  lemma LimbProduct(ah: nat, al: nat, bh: nat, bl: nat)
    ensures (ah * TWO32 + al) * (bh * TWO32 + bl) == ah * bh * TWO64 + (al * bh + ah * bl) * TWO32 + al * bl
  {
    Distribute(ah * TWO32, al, bh * TWO32, bl);
    Move(ah, bh);
    assert (ah * TWO32) * bl == ah * bl * TWO32 by { Swap(ah, TWO32, bl); }
    assert al * (bh * TWO32) == al * bh * TWO32;
  }

  lemma Distribute(a: int, b: int, c: int, d: int)
    ensures (a + b) * (c + d) == a * c + a * d + b * c + b * d
  {}

  lemma Swap(a: int, b: int, c: int)
    ensures (a * b) * c == a * c * b
  {}

  lemma Move(a: int, b: int)
    ensures (a * TWO32) * (b * TWO32) == a * b * TWO64
  {
    Swap(a, TWO32, b * TWO32);
    assert a * (b * TWO32) * TWO32 == (a * b) * TWO32 * TWO32;
    assert TWO32 * TWO32 == TWO64;
  }

  lemma ProductBound(a: nat, b: nat, m: nat, n: nat)
    requires a <= m && b <= n
    ensures a * b <= m * n
  {}

  /** The exact product of two 64-bit values. */
  function MultiplyWide(a: int, b: int): (r: Int128)
    requires Int64(a) && Int64(b)
    ensures Valid(r) && Value(r) == a * b
  {
    var ua, ub := Magnitude(a), Magnitude(b);
    var al, ah, bl, bh := ua % TWO32, ua / TWO32, ub % TWO32, ub / TWO32;
    var ll, lh, hl, hh := al * bl, al * bh, ah * bl, ah * bh;
    var middle := ll / TWO32 + lh % TWO32 + hl % TWO32;
    var magnitude := Int128(hh + lh / TWO32 + hl / TWO32 + middle / TWO32, ll % TWO32 + middle % TWO32 * TWO32);
    WideMagnitude(ua, ub);
    SignedProduct(a, b);
    if (a < 0) != (b < 0) then Negate(magnitude) else magnitude
  }

  lemma SignedProduct(a: int, b: int)
    ensures Magnitude(a) * Magnitude(b) == if (a < 0) != (b < 0) then -(a * b) else a * b
  {}

  /** The limbs of the product recombine into it. */
  lemma WideMagnitude(ua: nat, ub: nat)
    requires ua <= TWO63 && ub <= TWO63
    ensures var al, ah, bl, bh := ua % TWO32, ua / TWO32, ub % TWO32, ub / TWO32;
            var ll, lh, hl, hh := al * bl, al * bh, ah * bl, ah * bh;
            var middle := ll / TWO32 + lh % TWO32 + hl % TWO32;
            var high, low := hh + lh / TWO32 + hl / TWO32 + middle / TWO32, ll % TWO32 + middle % TWO32 * TWO32;
            high * TWO64 + low == ua * ub && Word64(low) && 0 <= high < TWO63
  {
    var al, ah, bl, bh := ua % TWO32, ua / TWO32, ub % TWO32, ub / TWO32;
    LimbProduct(ah, al, bh, bl);
    var ll, lh, hl, hh := al * bl, al * bh, ah * bl, ah * bh;
    var middle := ll / TWO32 + lh % TWO32 + hl % TWO32;
    Recombine(ll, lh, hl, hh, middle);
    ProductBound(ua, ub, TWO63, TWO63);
    assert TWO63 * TWO63 < TWO63 * TWO64;
  }

  lemma Recombine(ll: nat, lh: nat, hl: nat, hh: nat, middle: nat)
    requires middle == ll / TWO32 + lh % TWO32 + hl % TWO32
    ensures (hh + lh / TWO32 + hl / TWO32 + middle / TWO32) * TWO64 + (ll % TWO32 + middle % TWO32 * TWO32)
         == hh * TWO64 + (lh + hl) * TWO32 + ll
    ensures Word64(ll % TWO32 + middle % TWO32 * TWO32)
  {
    var l1, l0, m1, m0 := ll / TWO32, ll % TWO32, middle / TWO32, middle % TWO32;
    assert ll == l1 * TWO32 + l0 && middle == m1 * TWO32 + m0;
    assert lh == lh / TWO32 * TWO32 + lh % TWO32 && hl == hl / TWO32 * TWO32 + hl % TWO32;
  }

  //
  // Limbs
  //

  /** Little-endian limbs in base 2^32. */
  function Limbs(p: seq<nat>): nat {
    if p == [] then 0 else p[0] + TWO32 * Limbs(p[1..])
  }

  function Place(k: nat): (b: nat)
    ensures b > 0
  {
    if k == 0 then 1 else TWO32 * Place(k - 1)
  }

  lemma {:induction false} LimbsSet(p: seq<nat>, k: nat, x: nat)
    requires k < |p|
    ensures Limbs(p[k := x]) == Limbs(p) + (x - p[k]) * Place(k)
  {
    if k == 0 {
      assert p[0 := x][1..] == p[1..];
    } else {
      assert p[k := x][0] == p[0] && p[k := x][1..] == p[1..][k - 1 := x];
      LimbsSet(p[1..], k - 1, x);
      Swap(x - p[k], TWO32, Place(k - 1));
    }
  }

  lemma {:induction false} LimbsSnoc(p: seq<nat>, i: nat)
    requires i < |p|
    ensures Limbs(p[..i + 1]) == Limbs(p[..i]) + p[i] * Place(i)
  {
    if i == 0 {
      assert p[..1] == [p[0]] && [p[0]][1..] == [] && p[..0] == [];
    } else {
      assert p[..i + 1][0] == p[0] && p[..i + 1][1..] == p[1..][..i];
      assert p[..i][0] == p[0] && p[..i][1..] == p[1..][..i - 1];
      LimbsSnoc(p[1..], i - 1);
      Swap(p[i], TWO32, Place(i - 1));
    }
  }

  ghost predicate Small(p: seq<nat>) {
    forall k :: 0 <= k < |p| ==> p[k] < TWO32
  }

  /** One step of the inner loop never leaves 64 bits. */
  lemma StepFits(p: nat, a: nat, b: nat, carry: nat)
    requires p < TWO32 && a < TWO32 && b < TWO32 && carry < TWO32
    ensures p + a * b + carry < TWO64
    ensures (p + a * b + carry) / TWO32 < TWO32
  {
    ProductBound(a, b, TWO32 - 1, TWO32 - 1);
    assert (TWO32 - 1) * (TWO32 - 1) == TWO64 - 2 * TWO32 + 1;
  }

  /** The carry and the limb left behind make up what was there. */
  lemma CarryOn(current: nat, place: nat)
    ensures current % TWO32 * place + current / TWO32 * (TWO32 * place) == current * place
  {
    assert current == current / TWO32 * TWO32 + current % TWO32;
    Distribute(current / TWO32 * TWO32, current % TWO32, place, 0);
    Swap(current / TWO32, TWO32, place);
  }

  lemma Minus(a: int, b: int, c: int)
    ensures (a - b) * c == a * c - b * c
  {}

  /** Leaving `current` at limb `k` and carrying the rest up. */
  lemma LeaveLimb(p: seq<nat>, k: nat, current: nat)
    requires k < |p| && Small(p)
    ensures Small(p[k := current % TWO32])
    ensures Limbs(p[k := current % TWO32]) + current / TWO32 * Place(k + 1) == Limbs(p) + (current - p[k]) * Place(k)
  {
    LimbsSet(p, k, current % TWO32);
    CarryOn(current, Place(k));
    Minus(current % TWO32, p[k], Place(k));
    Minus(current, p[k], Place(k));
  }

  lemma RowStep(before: nat, carry: nat, place: nat, start: nat, a: nat, done: nat, b: nat, placeI: nat, weight: nat, after: nat, next: nat)
    requires before + carry * place == start + a * done * placeI
    requires place == weight * placeI && after + next == before + (a * b + carry) * place
    ensures after + next == start + a * (done + b * weight) * placeI
  {
    var x := a * b;
    assert (x + carry) * place == x * place + carry * place by { Distribute(x, carry, place, 0); }
    assert x * place == x * weight * placeI by { Assoc(x, weight, placeI); }
    assert a * (done + b * weight) == a * done + x * weight by {
      Distribute(a, 0, done, b * weight);
      Assoc(a, b, weight);
    }
    assert (a * done + x * weight) * placeI == a * done * placeI + x * weight * placeI by {
      Distribute(a * done, x * weight, placeI, 0);
    }
  }

  lemma Assoc(a: int, b: int, c: int)
    ensures a * (b * c) == a * b * c
  {}

  lemma PlaceSum(i: nat, j: nat)
    ensures Place(i + j) == Place(j) * Place(i)
  {
    if j > 0 {
      PlaceSum(i, j - 1);
      assert i + j - 1 == i + (j - 1);
    }
  }

  /** Adds `a` times the limbs of `b` into the product at limb `i`, and the carry after them. */
  method AddRow(product: seq<nat>, a: nat, b: seq<nat>, i: nat) returns (p: seq<nat>)
    requires |b| == 2 && i + 2 < |product| && Small(product) && Small(b) && a < TWO32
    requires forall k :: i + 2 <= k < |product| ==> product[k] == 0
    ensures |p| == |product| && Small(p) && forall k :: i + 3 <= k < |p| ==> p[k] == 0
    ensures Limbs(p) == Limbs(product) + a * Limbs(b) * Place(i)
  {
    hide Limbs, Place;
    p := product;
    var carry: nat := 0;
    NoLimbs(b);
    for j := 0 to 2
      invariant |p| == |product| && Small(p) && carry < TWO32 && forall k :: i + 2 <= k < |p| ==> p[k] == 0
      invariant Limbs(p) + carry * Place(i + j) == Limbs(product) + a * Limbs(b[..j]) * Place(i)
    {
      StepFits(p[i + j], a, b[j], carry);
      var current := p[i + j] + a * b[j] + carry;
      LeaveLimb(p, i + j, current);
      LimbsSnoc(b, j);
      PlaceSum(i, j);
      RowStep(Limbs(p), carry, Place(i + j), Limbs(product), a, Limbs(b[..j]), b[j], Place(i), Place(j),
              Limbs(p[i + j := current % TWO32]), current / TWO32 * Place(i + j + 1));
      p := p[i + j := current % TWO32];
      carry := current / TWO32;
      assert i + j + 1 == i + (j + 1);
    }
    assert b[..2] == b;
    LimbsSet(p, i + 2, p[i + 2] + carry);
    p := p[i + 2 := p[i + 2] + carry];
  }

  lemma NoLimbs(b: seq<nat>)
    ensures Limbs(b[..0]) == 0
  {}

  /** `a` times `b`, refused when the magnitude needs more than 127 bits. */
  method CheckedMul128By64(a: Int128, b: int) returns (r: Option<Int128>)
    requires Valid(a) && Int64(b) && Value(a) != -TWO127
    ensures r.Some? <==> -TWO127 < Value(a) * b < TWO127
    ensures r.Some? ==> Valid(r.value) && Value(r.value) == Value(a) * b
  {
    hide Limbs, Place;
    ValueFits(a);
    if a == Int128(0, 0) || b == 0 { return Some(OfInt64(0)); }
    var negative := (a.high < 0) != (b < 0);
    var m := if a.high < 0 then Negate(a) else a;
    var ub := Magnitude(b);
    ValueFits(m);
    assert Value(m) == Magnitude(Value(a));
    var al, bl := [m.low % TWO32, m.low / TWO32, m.high % TWO32, m.high / TWO32], [ub % TWO32, ub / TWO32];
    FourLimbs(m, al);
    TwoLimbs(ub, bl);
    var product: seq<nat> := [0, 0, 0, 0, 0, 0];
    ZeroLimbs(product);
    NoLimbs(al);
    for i := 0 to 4
      invariant |product| == 6 && Small(product) && forall k :: i + 2 <= k < 6 ==> product[k] == 0
      invariant Limbs(product) == Limbs(al[..i]) * ub
    {
      LimbsSnoc(al, i);
      Distribute(Limbs(al[..i]), al[i] * Place(i), ub, 0);
      Swap(al[i], Place(i), ub);
      product := AddRow(product, al[i], bl, i);
    }
    assert al[..4] == al;
    SixLimbs(product);
    SignedProduct(Value(a), b);
    if product[4] != 0 || product[5] != 0 || product[3] >= 0x8000_0000 { return None; }
    var magnitude := Int128(product[2] + product[3] * TWO32, product[0] + product[1] * TWO32);
    ValueFits(magnitude);
    return Some(if negative then Negate(magnitude) else magnitude);
  }

  lemma FourLimbs(m: Int128, al: seq<nat>)
    requires Valid(m) && m.high >= 0 && |al| == 4
    requires al == [m.low % TWO32, m.low / TWO32, m.high % TWO32, m.high / TWO32]
    ensures Small(al) && Limbs(al) == Value(m)
  {
    assert al[1..] == [al[1], al[2], al[3]] && al[1..][1..] == [al[2], al[3]] && al[1..][1..][1..] == [al[3]];
    assert Limbs([al[3]]) == al[3] by { assert [al[3]][1..] == []; }
    assert Limbs([al[2], al[3]]) == m.high by { assert [al[2], al[3]][1..] == [al[3]]; }
    assert Limbs([al[1], al[2], al[3]]) == al[1] + TWO32 * m.high by { assert [al[1], al[2], al[3]][1..] == [al[2], al[3]]; }
    assert m.low == m.low / TWO32 * TWO32 + m.low % TWO32;
  }

  lemma TwoLimbs(u: nat, bl: seq<nat>)
    requires u <= TWO63 && bl == [u % TWO32, u / TWO32]
    ensures Small(bl) && Limbs(bl) == u
  {
    assert bl[1..] == [bl[1]] && [bl[1]][1..] == [];
    assert Limbs([bl[1]]) == bl[1];
  }

  lemma ZeroLimbs(p: seq<nat>)
    requires forall k :: 0 <= k < |p| ==> p[k] == 0
    ensures Limbs(p) == 0
  {}

  /** Six limbs stay below 2^127 exactly when the upper two are zero and the fourth has its top
      bit clear. */
  lemma SixLimbs(p: seq<nat>)
    requires |p| == 6 && Small(p)
    ensures Limbs(p) == p[0] + TWO32 * (p[1] + TWO32 * (p[2] + TWO32 * (p[3] + TWO32 * (p[4] + TWO32 * p[5]))))
    ensures Limbs(p) < TWO127 <==> p[4] == 0 && p[5] == 0 && p[3] < 0x8000_0000
    ensures p[4] == 0 && p[5] == 0 ==> Limbs(p) == (p[2] + p[3] * TWO32) * TWO64 + (p[0] + p[1] * TWO32)
    ensures Word64(p[0] + p[1] * TWO32)
  {
    var p1, p2, p3, p4, p5 := p[1..], p[2..], p[3..], p[4..], p[5..];
    assert p1[1..] == p2 && p2[1..] == p3 && p3[1..] == p4 && p4[1..] == p5 && p5[1..] == [];
    assert Limbs(p5) == p[5];
    assert Limbs(p4) == p[4] + TWO32 * p[5];
    assert Limbs(p3) == p[3] + TWO32 * Limbs(p4);
    assert Limbs(p2) == p[2] + TWO32 * Limbs(p3);
    assert Limbs(p1) == p[1] + TWO32 * Limbs(p2);
  }

  //
  // Decimal digits
  //

  const BILLION: int := 1_000_000_000

  function Pow10(n: nat): (p: nat)
    ensures p > 0
  {
    if n == 0 then 1 else 10 * Pow10(n - 1)
  }

  /** Little-endian decimal digits. */
  function Decimal(ds: seq<nat>): nat {
    if ds == [] then 0 else ds[0] + 10 * Decimal(ds[1..])
  }

  ghost predicate Digits(ds: seq<nat>) {
    forall i :: 0 <= i < |ds| ==> ds[i] < 10
  }

  lemma {:induction false} DecimalAppend(a: seq<nat>, b: seq<nat>)
    ensures Decimal(a + b) == Decimal(a) + Pow10(|a|) * Decimal(b)
  {
    if a == [] {
      assert a + b == b;
    } else {
      assert (a + b)[0] == a[0] && (a + b)[1..] == a[1..] + b;
      DecimalAppend(a[1..], b);
      TenTimes(Decimal(a[1..]), Pow10(|a| - 1), Decimal(b));
    }
  }

  lemma TenTimes(low: nat, place: nat, high: nat)
    ensures 10 * (low + place * high) == 10 * low + 10 * place * high
  {}

  /** A rendering: the digits, most significant first, after an optional minus sign. */
  datatype Rendering = Rendering(negative: bool, digits: seq<nat>)

  function Reversed(s: seq<nat>): (r: seq<nat>)
    ensures |r| == |s| && forall i :: 0 <= i < |s| ==> r[i] == s[|s| - 1 - i]
  {
    if s == [] then [] else Reversed(s[1..]) + [s[0]]
  }

  /** Reading digits from the most significant on. */
  function ReadFrom(digits: seq<nat>, start: nat): nat {
    if digits == [] then start else ReadFrom(digits[1..], 10 * start + digits[0])
  }

  function Read(r: Rendering): int {
    var m: int := ReadFrom(r.digits, 0);
    if r.negative then -m else m
  }

  lemma {:induction false} ReadSnoc(digits: seq<nat>, d: nat, start: nat)
    ensures ReadFrom(digits + [d], start) == 10 * ReadFrom(digits, start) + d
    decreases |digits|
  {
    if digits == [] {
      assert digits + [d] == [d] && [d][1..] == [];
      assert ReadFrom([d], start) == ReadFrom([], 10 * start + d);
    } else {
      assert (digits + [d])[0] == digits[0] && (digits + [d])[1..] == digits[1..] + [d];
      ReadSnoc(digits[1..], d, 10 * start + digits[0]);
    }
  }

  lemma {:induction false} ReadReversed(ds: seq<nat>)
    ensures ReadFrom(Reversed(ds), 0) == Decimal(ds)
  {
    if ds != [] {
      ReadReversed(ds[1..]);
      ReadSnoc(Reversed(ds[1..]), ds[0], 0);
    }
  }

  /** Long division of four limbs, most significant first, by a billion. */
  method DivideByBillion(limbs: seq<nat>) returns (q: seq<nat>, remainder: nat)
    requires |limbs| == 4 && Small(limbs)
    ensures |q| == 4 && Small(q) && remainder < BILLION
    ensures BigEndian(limbs, 0) == BigEndian(q, 0) * BILLION + remainder
  {
    q, remainder := [], 0;
    for i := 0 to 4
      invariant |q| == i && Small(q) && remainder < BILLION
      invariant BigEndian(limbs[..i], 0) == BigEndian(q, 0) * BILLION + remainder
    {
      var current := remainder * TWO32 + limbs[i];
      QuotientSmall(remainder, limbs[i]);
      assert limbs[..i + 1] == limbs[..i] + [limbs[i]];
      BigEndianSnoc(limbs[..i], limbs[i], 0);
      BigEndianSnoc(q, current / BILLION, 0);
      assert current == current / BILLION * BILLION + current % BILLION;
      Distribute(TWO32 * BigEndian(q, 0), current / BILLION, BILLION, 0);
      Swap(TWO32, BigEndian(q, 0), BILLION);
      q, remainder := q + [current / BILLION], current % BILLION;
    }
    assert limbs[..4] == limbs;
  }

  function BigEndian(limbs: seq<nat>, start: nat): nat {
    if limbs == [] then start else BigEndian(limbs[1..], TWO32 * start + limbs[0])
  }

  lemma {:induction false} BigEndianSnoc(limbs: seq<nat>, x: nat, start: nat)
    ensures BigEndian(limbs + [x], start) == TWO32 * BigEndian(limbs, start) + x
    decreases |limbs|
  {
    if limbs == [] {
      assert limbs + [x] == [x] && [x][1..] == [];
      assert BigEndian([x], start) == BigEndian([], TWO32 * start + x);
    } else {
      assert (limbs + [x])[0] == limbs[0] && (limbs + [x])[1..] == limbs[1..] + [x];
      BigEndianSnoc(limbs[1..], x, TWO32 * start + limbs[0]);
    }
  }

  lemma QuotientSmall(remainder: nat, limb: nat)
    requires remainder < BILLION && limb < TWO32
    ensures (remainder * TWO32 + limb) / BILLION < TWO32
  {
    assert remainder * TWO32 + limb < BILLION * TWO32;
  }

  lemma FourBigEndian(q: seq<nat>)
    requires |q| == 4
    ensures BigEndian(q, 0) == (q[0] * TWO32 + q[1]) * TWO64 + (q[2] * TWO32 + q[3])
  {
    assert q == [] + [q[0]] + [q[1]] + [q[2]] + [q[3]];
    BigEndianSnoc([q[0], q[1], q[2]], q[3], 0);
    BigEndianSnoc([q[0], q[1]], q[2], 0);
    BigEndianSnoc([q[0]], q[1], 0);
    BigEndianSnoc([], q[0], 0);
    assert [q[0], q[1], q[2]] + [q[3]] == q && [q[0], q[1]] + [q[2]] == [q[0], q[1], q[2]];
    assert [q[0]] + [q[1]] == [q[0], q[1]] && [] + [q[0]] == [q[0]];
  }

  lemma DigitTaken(low: nat, place: nat, left: nat, whole: nat)
    requires low + place * left == whole
    ensures low + place * (left % 10) + (10 * place) * (left / 10) == whole
  {
    var q, d := left / 10, left % 10;
    assert left == 10 * q + d;
    assert place * (10 * q + d) == place * (10 * q) + place * d;
    assert place * (10 * q) == (10 * place) * q;
  }

  lemma Pow10Next(n: nat)
    ensures Pow10(n + 1) == 10 * Pow10(n) && Pow10(0) == 1
  {}

  lemma OneDigit(d: nat)
    ensures Decimal([d]) == d && Decimal([]) == 0
  {
    assert [d][1..] == [];
  }

  lemma Billion()
    ensures Pow10(9) == BILLION
  {
    assert Pow10(4) == 10_000;
    assert Pow10(6) == 1_000_000;
  }

  /** Nine digits of a remainder. */
  method NineDigits(remainder: nat) returns (ds: seq<nat>)
    requires remainder < BILLION
    ensures |ds| == 9 && Digits(ds) && Decimal(ds) == remainder
  {
    hide Pow10, Decimal;
    ds := [];
    var left: nat := remainder;
    OneDigit(0);
    Pow10Next(0);
    Billion();
    for i := 0 to 9
      invariant |ds| == i && Digits(ds) && Decimal(ds) + Pow10(i) * left == remainder && left < Pow10(9 - i)
    {
      DecimalAppend(ds, [left % 10]);
      OneDigit(left % 10);
      DigitTaken(Decimal(ds), Pow10(i), left, remainder);
      Pow10Next(i);
      Pow10Next(8 - i);
      ds, left := ds + [left % 10], left / 10;
    }
  }

  /** The decimal rendering of a value: reading it gives the value back, and it starts with a
      zero only when it is one. */
  method ToString(v: Int128) returns (r: Rendering)
    requires Valid(v) && Value(v) != -TWO127
    ensures Digits(r.digits) && Read(r) == Value(v)
    ensures r.digits != [] && (|r.digits| > 1 ==> r.digits[0] != 0) && (r.negative ==> Value(v) < 0)
  {
    ValueFits(v);
    if v == Int128(0, 0) { return Rendering(false, [0]); }
    var negative := v.high < 0;
    var magnitude := if negative then Negate(v) else v;
    ghost var whole := Value(magnitude);
    ValueFits(magnitude);
    var digits: seq<nat> := [];
    while magnitude != Int128(0, 0)
      invariant Valid(magnitude) && magnitude.high >= 0 && Digits(digits)
      invariant whole == Decimal(digits) + Pow10(|digits|) * Value(magnitude)
      decreases Value(magnitude)
    {
      var rest, more := NextDigits(magnitude);
      DecimalAppend(digits, more);
      Pow10Sum(|digits|, 9);
      DigitStep(whole, Decimal(digits), Pow10(|digits|), Value(magnitude), Value(rest), Decimal(more), Pow10(9));
      digits, magnitude := digits + more, rest;
    }
    while |digits| > 1 && digits[|digits| - 1] == 0
      invariant digits != [] && Digits(digits) && Decimal(digits) == whole
    {
      assert digits == digits[..|digits| - 1] + [0];
      DecimalAppend(digits[..|digits| - 1], [0]);
      assert Decimal([0]) == 0 by { assert [0][1..] == []; }
      digits := digits[..|digits| - 1];
    }
    ReadReversed(digits);
    return Rendering(negative, Reversed(digits));
  }

  lemma DigitStep(whole: nat, low: nat, place: nat, value: nat, rest: nat, chunk: nat, step: nat)
    requires whole == low + place * value && value == rest * step + chunk
    ensures whole == low + place * chunk + (place * step) * rest
  {}

  lemma Pow10Sum(a: nat, b: nat)
    ensures Pow10(a + b) == Pow10(a) * Pow10(b)
  {
    if a > 0 { Pow10Sum(a - 1, b); }
  }

  /** Takes the nine lowest digits off. */
  method NextDigits(m: Int128) returns (rest: Int128, digits: seq<nat>)
    requires Valid(m) && m.high >= 0 && m != Int128(0, 0)
    ensures Valid(rest) && rest.high >= 0 && Value(rest) < Value(m)
    ensures |digits| == 9 && Digits(digits) && Value(m) == Value(rest) * Pow10(9) + Decimal(digits)
  {
    ValueFits(m);
    var limbs := [m.high / TWO32, m.high % TWO32, m.low / TWO32, m.low % TWO32];
    FourBigEndian(limbs);
    var q, remainder := DivideByBillion(limbs);
    FourBigEndian(q);
    digits := NineDigits(remainder);
    rest := Int128(q[0] * TWO32 + q[1], q[2] * TWO32 + q[3]);
    Billion();
  }
}
