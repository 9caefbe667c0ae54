/** Types shared by the components of the data engine. */
module Contracts {
  datatype Option<+T> = None | Some(value: T)

  /** A value, or the QueryFailure the source throws. */
  datatype Outcome<+T> = Ok(value: T) | Failed(code: ErrorCode) {
    predicate IsFailure() { Failed? }

    function PropagateFailure<U>(): Outcome<U>
      requires Failed?
    {
      Failed(code)
    }

    function Extract(): T
      requires Ok?
    {
      value
    }
  }

  datatype ErrorCode =
    | AGENT_OFFLINE | QUERY_INVALID | QUERY_TIMEOUT | SOURCE_UNAVAILABLE | SOURCE_SCHEMA_MISMATCH
    | PERMISSION_DENIED | RATE_LIMITED | RESULT_TOO_LARGE | NOT_CONFIGURED | INTERNAL_ERROR

  type JobId = nat
  type Organization = string
  type AgentId = string
  type QueryId = string

  /** Milliseconds since the epoch. */
  type Instant = int
}
