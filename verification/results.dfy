/** The per-request record `Result` of pybench.

    Timestamps (`Started`, `Finished`, `Elapsed`) are wall-clock floats in the
    program; this model keeps only whether `done` has been called and the code
    it stored. */
module Results {

  /** What `Result.Code` holds: the HTTP status code passed by the success
      callback, or the failure object passed by the error callback. A fresh
      `Result` holds the integer 0. */
  datatype Code = Status(status: int) | Failure

  datatype Result = Result(finished: bool, code: Code)

  /** A record as `Result()` followed by `start()` leaves it: not finished,
      code 0. */
  const Started: Result := Result(false, Status(0))

  /** `Result.done(code)`: marks the record finished and stores the code,
      whatever the record held before. */
  function Done(r: Result, code: Code): (d: Result)
    ensures d == Result(true, code)
  {
    r.(finished := true, code := code)
  }

}
