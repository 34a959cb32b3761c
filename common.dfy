/** Shared vocabulary of the token contract: addresses, results, and host aborts. */
module Common {

  /** A Soroban address (account or contract), kept as its strkey text. */
  type Address = string

  datatype Option<+T> = None | Some(value: T) {
    function GetOr(default: T): T {
      match this
      case Some(v) => v
      case None => default
    }
  }

  /** Why the Soroban host aborts an invocation: a `panic!`, an `unwrap` of a missing
      storage entry, a `require_auth` that the invocation does not satisfy, or a Rust
      arithmetic trap. An aborted invocation leaves none of its storage writes behind. */
  datatype Panic =
    | NegativeAmount       // check_nonnegative_amount and the batch amount check
    | NotAuthorized        // require_auth for an address that did not sign
    | AlreadyInitialized   // initialize on a contract that has an administrator
    | NotInitialized       // read_administrator before initialize
    | DecimalTooLarge      // initialize with a decimal that does not fit in a u8
    | AccountFrozen        // transfer or burn from a frozen account
    | InsufficientBalance  // spend_balance of more than the balance
    | DivisionByZero       // stepped vesting whose step size is 0

  /** The result of a contract function that returns `Result<T, E>`; `Trap` is a host abort. */
  datatype Result<+T, +E> = Ok(value: T) | Err(error: E) | Trap(reason: Panic)

  /** The result of a contract function that returns nothing. */
  datatype Completion = Returned | Aborted(reason: Panic)

  /** Rust's `/` on signed integers: the quotient truncated toward zero. */
  function DivTrunc(a: int, b: int): (q: int)
    requires b > 0
    ensures a >= 0 ==> q * b <= a < (q + 1) * b
    ensures a < 0 ==> (q - 1) * b < a <= q * b
  {
    if a >= 0 then a / b else -((-a) / b)
  }
}
