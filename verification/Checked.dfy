/** 64-bit cardinality arithmetic that refuses instead of wrapping. */
module Checked {
  import opened Bags

  const INT64_MIN: int := -0x8000_0000_0000_0000
  const INT64_MAX: int := 0x7FFF_FFFF_FFFF_FFFF

  predicate Int64(x: int) {
    INT64_MIN <= x <= INT64_MAX
  }

  /** Division as the machine does it: towards zero. */
  function TruncDiv(a: int, b: int): int
    requires b != 0
  {
    var q := (if a < 0 then -a else a) / (if b < 0 then -b else b);
    if (a < 0) != (b < 0) then -q else q
  }

  /** `a + b`, or nothing when the sum does not fit. No test here overflows. */
  function CheckedAdd(a: int, b: int): (r: Option<int>)
    requires Int64(a) && Int64(b)
    ensures r == if Int64(a + b) then Some(a + b) else None
  {
    if b > 0 && a > INT64_MAX - b then None
    else if b < 0 && a < INT64_MIN - b then None
    else Some(a + b)
  }

  lemma DivBound(n: nat, a: nat, b: nat)
    requires b > 0
    ensures a > n / b <==> a * b > n
  {
    if a > n / b {
      assert n == n / b * b + n % b;
      assert a * b >= (n / b + 1) * b;
    } else {
      assert a * b <= n / b * b;
    }
  }

  /** `a * b`, or nothing when the product does not fit. The range is tested by dividing,
      with minus one kept out of the divisors because the least value over it overflows. */
  function CheckedMul(a: int, b: int): (r: Option<int>)
    requires Int64(a) && Int64(b)
    ensures r == if Int64(a * b) then Some(a * b) else None
  {
    if a == 0 || b == 0 then Some(0)
    else if a == -1 || b == -1 then
      var other := if a == -1 then b else a;
      if other == INT64_MIN then None else Some(-other)
    else
      var overflows :=
        if a > 0 then (if b > 0 then a > TruncDiv(INT64_MAX, b) else b < TruncDiv(INT64_MIN, a))
        else (if b > 0 then a < TruncDiv(INT64_MIN, b) else a < TruncDiv(INT64_MAX, b));
      MulRange(a, b, overflows);
      if overflows then None else Some(a * b)
  }

  /** The division test answers exactly whether the product leaves the range. */
  lemma MulRange(a: int, b: int, overflows: bool)
    requires a != 0 && b != 0
    requires overflows ==
      if a > 0 then (if b > 0 then a > TruncDiv(INT64_MAX, b) else b < TruncDiv(INT64_MIN, a))
      else (if b > 0 then a < TruncDiv(INT64_MIN, b) else a < TruncDiv(INT64_MAX, b))
    ensures overflows <==> !Int64(a * b)
  {
    if a > 0 && b > 0 {
      assert TruncDiv(INT64_MAX, b) == INT64_MAX / b;
      hide TruncDiv;
      DivBound(INT64_MAX, a, b);
      assert a * b > 0;
    } else if a > 0 {
      assert TruncDiv(INT64_MIN, a) == -(-INT64_MIN / a);
      hide TruncDiv;
      DivBound(-INT64_MIN, -b, a);
      assert (-b) * a == -(a * b) && (-b) * a > 0;
    } else if b > 0 {
      assert TruncDiv(INT64_MIN, b) == -(-INT64_MIN / b);
      hide TruncDiv;
      DivBound(-INT64_MIN, -a, b);
      assert (-a) * b == -(a * b) && (-a) * b > 0;
    } else {
      assert TruncDiv(INT64_MAX, b) == -(INT64_MAX / -b);
      hide TruncDiv;
      DivBound(INT64_MAX, -a, -b);
      assert (-a) * (-b) == a * b && (-a) * (-b) > 0;
    }
  }
}
