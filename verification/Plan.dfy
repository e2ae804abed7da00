/** Test cases: harness/plan.py. */
module Plan {
  import opened Json
  import opened Expectations

  /** A request body. Garbled stands for bytes that are no JSON: other clients may send them. */
  datatype Body = NoBody | Garbled | Payload(json: Json)

  /** What a transport is asked to send. */
  datatype Request = Request(httpMethod: string, path: string, params: map<string, string>, body: Body)

  datatype TestCase = TestCase(
    name: string, request: Request, expectStatus: int, expectations: seq<Expectation>, retries: int)
  {
    /** `is_idempotent`: the method may be sent again when no answer came. */
    predicate IsIdempotent() { request.httpMethod in IDEMPOTENT_METHODS }

    /** At least one attempt, unless `retries` is negative, which the plan loader lets through. */
    function MaxAttempts(): int { 1 + if IsIdempotent() then retries else 0 }
  }

  const IDEMPOTENT_METHODS: set<string> := {"GET", "PUT", "DELETE", "PATCH", "HEAD", "OPTIONS"}
}
