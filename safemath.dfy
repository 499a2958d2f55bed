/** Reverts of the router and the checked uint256 arithmetic (OpenZeppelin's SafeMath)
    that every accumulator and the reward formula go through. */
module SafeMath {

  /** The reasons a router transaction reverts, each with the revert string it carries. */
  datatype Revert =
    | AdditionOverflow        // "SafeMath: addition overflow"
    | SubtractionOverflow     // "SafeMath: subtraction overflow"
    | MultiplicationOverflow  // "SafeMath: multiplication overflow"
    | DivisionByZero          // "SafeMath: division by zero"
    | SlippageExceeded        // "a1": the swap yields less than the caller's limit
    | NotOwned                // "b4": reward estimate for a position the account does not hold
    | EmptySafelist           // "b6": deployment with no rewarded token

  /** Outcome of a transaction: its value, or the revert that undid it. */
  datatype Result<+T> = Ok(value: T) | Err(error: Revert) {
    predicate IsFailure() { Err? }
    function PropagateFailure<U>(): Result<U>
      requires Err?
    {
      Err(error)
    }
    function Extract(): T
      requires Ok?
    {
      value
    }
  }

  /** 2^256: the first value a uint256 cannot hold. */
  const UINT256_LIMIT: nat := 0x1_0000_0000_0000_0000_0000_0000_0000_0000_0000_0000_0000_0000_0000_0000_0000_0000_0000_0000_0000_0000

  predicate IsUint256(x: nat) { x < UINT256_LIMIT }

  function Add(a: nat, b: nat): (r: Result<nat>)
    ensures r.Ok? <==> IsUint256(a + b)
    ensures r.Ok? ==> r.value == a + b
    ensures r.Err? ==> r.error == AdditionOverflow
  {
    if IsUint256(a + b) then Ok(a + b) else Err(AdditionOverflow)
  }

  function Sub(a: nat, b: nat): (r: Result<nat>)
    ensures r.Ok? <==> b <= a
    ensures r.Ok? ==> r.value + b == a
    ensures r.Err? ==> r.error == SubtractionOverflow
  {
    if b <= a then Ok(a - b) else Err(SubtractionOverflow)
  }

  function Mul(a: nat, b: nat): (r: Result<nat>)
    ensures r.Ok? <==> IsUint256(a * b)
    ensures r.Ok? ==> r.value == a * b
    ensures r.Err? ==> r.error == MultiplicationOverflow
  {
    if IsUint256(a * b) then Ok(a * b) else Err(MultiplicationOverflow)
  }

  function Div(a: nat, b: nat): (r: Result<nat>)
    ensures r.Ok? <==> b != 0
    ensures r.Ok? ==> r.value * b <= a < r.value * b + b
    ensures r.Err? ==> r.error == DivisionByZero
  {
    if b != 0 then Ok(a / b) else Err(DivisionByZero)
  }

  /** A checked subtraction undoes a checked addition that did not overflow. */
  lemma SubUndoesAdd(a: nat, b: nat)
    requires Add(a, b).Ok?
    ensures Sub(Add(a, b).value, b) == Ok(a)
  {
  }
}
