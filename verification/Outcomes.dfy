/** Results of operations that may throw. */
module Outcomes {
  import opened Checked

  datatype Error = KeysDoNotConverge | KeyTooWide | OutOfMemory | Overflow | IllegalJoin | NoPlan | Malformed | BadRequest | NoSliceKey
                 | NotReducible | Disconnected

  datatype Outcome<+T> = Ok(value: T) | Failed(error: Error) {
    predicate IsFailure() { Failed? }

    function PropagateFailure<U>(): Outcome<U>
      requires Failed?
    {
      Failed(error)
    }

    function Extract(): T
      requires Ok?
    {
      value
    }
  }

  /** The product, unless it leaves 64 bits. */
  function Times(a: nat, b: nat): (r: Outcome<nat>)
    ensures r == if a * b <= 0x7FFF_FFFF_FFFF_FFFF then Ok(a * b) else Failed(Overflow)
  {
    if a == 0 || b == 0 then Ok(0)
    else
      FactorsWithin(a, b);
      if Int64(a) && Int64(b) && CheckedMul(a, b).Some? then Ok(a * b) else Failed(Overflow)
  }

  lemma FactorsWithin(a: nat, b: nat)
    requires a > 0 && b > 0
    ensures a <= a * b && b <= a * b
  {}

  /** The sum, unless it leaves 64 bits. */
  function Plus(a: nat, b: nat): (r: Outcome<nat>)
    ensures r == if a + b <= 0x7FFF_FFFF_FFFF_FFFF then Ok(a + b) else Failed(Overflow)
  {
    if Int64(a) && Int64(b) && CheckedAdd(a, b).Some? then Ok(a + b) else Failed(Overflow)
  }
}
