/** The error the batch-create operations raise, and how an operation either
    returns a value or throws it. */
module SavedErrors {

  /** ErrorCode::CODE_SAVE_JOB_EXCEED_LIMIT_ERROR and its message. */
  const CODE_SAVE_JOB_EXCEED_LIMIT_ERROR: int := 37001
  const MSG_SAVE_JOB_EXCEED_LIMIT_ERROR: string := "儲存工作數量超過 200 筆"
  /** ErrorCode::CODE_SAVE_COMPANY_EXCEED_LIMIT_ERROR and its message. */
  const CODE_SAVE_COMPANY_EXCEED_LIMIT_ERROR: int := 37101
  const MSG_SAVE_COMPANY_EXCEED_LIMIT_ERROR: string := "儲存公司數量超過 200 筆"

  datatype ExceedLimitException = ExceedLimitException(message: string, code: int)

  /** What a call ends in: a returned value or a thrown exception. */
  datatype Outcome<T> = Returned(value: T) | Thrown(error: ExceedLimitException)

  /** Both services allow at most this many saved entries per user. */
  const TOTAL_LIMIT: int := 200

  /** The limit test both services run before inserting: the saved list's
      length plus the length of the raw request, before duplicates are
      dropped. */
  predicate ExceedsLimit(savedCount: nat, requestCount: nat)
  {
    savedCount + requestCount > TOTAL_LIMIT
  }
}
