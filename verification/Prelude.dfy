/** Shared vocabulary: optional values, results carrying an API error, and time.

    An instant is a whole number of microseconds, the resolution of a timestamp column. */
module Prelude {

  datatype Option<+T> = None | Some(value: T) {
    function GetOr(default: T): T {
      if Some? then value else default
    }
  }

  /** The error codes the API answers with; `Internal` is a failed statement. */
  datatype Error =
    | InvalidRequest | NotFound | ModuleUnavailable | QuotaExceeded | RateLimited | SlotUnavailable
    | PickupWindowFull | PriceChanged | VersionConflict | RequestExpired | InvalidTransition
    | Conflict | BillingUnavailable | Internal

  datatype Result<+T> = Ok(value: T) | Err(error: Error) {
    predicate IsFailure() { Err? }

    function PropagateFailure<U>(): Result<U>
      requires Err?
    {
      Err(error)
    }

    function Extract(): T
      requires Ok?
    {
      value
    }
  }

  type Id = nat

  type Instant = int

  const SECOND: int := 1_000_000
  const MINUTE: int := 60_000_000
  const DAY: int := 86_400_000_000
  const MINUTES_A_DAY: int := 1440
}
