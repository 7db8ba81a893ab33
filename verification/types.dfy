/**
 Shared vocabulary of the money-market contracts: account identifiers,
 the failure reasons a contract call can panic with, the `Result` of a step,
 and the result of an awaited cross-contract promise as a callback sees it.
 */
module Types {

  /** NEAR account identifiers are plain strings. */
  type AccountId = string

  datatype Option<+T> = None | Some(value: T)

  /** Every reason a modelled call aborts. A panic in NEAR discards the whole
      receipt: no state change and no promise created by it survives. */
  datatype Error =
    | NotOwner                  // assert_owner: predecessor is not the owner
    | RequiresOneYocto          // assert_one_yocto: attached deposit is not exactly 1
    | AlreadyInitialized        // `new` on an account that already has state
    | InvalidOwnerId            // `new` with an owner id that is not a valid account id
    | NoResponse                // price callback received no data-request details
    | PromiseFailed             // an awaited promise resolved as Failed (or NotReady)
    | NotACallback              // promise_results_count differs from what the callback asserts
    | EpochNotPassed            // settlement attempted before the epoch period elapsed
    | UnlockTooLarge            // unlock would leave the loan above the borrow limit
    | CannotLiquidationSafeLoan // liquidation of a loan within its borrow limit
    | ArithmeticFault           // checked subtraction underflow, division by zero, negative balance
    | UnknownCollateral         // no whitelist entry for a collateral token
    | BidNotFound               // no bid stored for the liquidator
    | InsufficientBidBalance    // the bid cannot pay for the collateral

  datatype Result<+T> = Ok(value: T) | Fail(error: Error) {

    predicate IsFailure() {
      Fail?
    }

    function PropagateFailure<U>(): Result<U>
      requires Fail?
    {
      Fail(error)
    }

    function Extract(): T
      requires Ok?
    {
      value
    }
  }

  /** What `env::promise_result(i)` yields to a callback, already decoded. */
  datatype PromiseResult<+T> = NotReady | Failed | Successful(value: T)

  /** Rust's checked `u128`/`u64` subtraction: an underflow panics. */
  function CheckedSub(a: nat, b: nat): (r: Result<nat>)
    ensures r.Ok? <==> b <= a
    ensures r.Ok? ==> r.value + b == a
    ensures r.Fail? ==> r.error == ArithmeticFault
  {
    if b <= a then Ok(a - b) else Fail(ArithmeticFault)
  }

  function Min(a: int, b: int): (r: int)
    ensures r <= a && r <= b
    ensures r == a || r == b
  {
    if a <= b then a else b
  }
}
