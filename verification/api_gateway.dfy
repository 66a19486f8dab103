/** `ApiGateway.ExecuteAsync`: run an outbound action, retrying transient
    external-API failures with a linear back-off.

    The action is modelled by the outcome of each of its invocations:
    `action(k)` is what the k-th call (counting from 0) returns or throws.
    Sleeping is not modelled; the delays the gateway would wait are returned
    instead, in order. */
module ApiGateway {
  import opened Wrappers
  import opened Errors

  /** Invocations allowed in total, the first one included. */
  const MaxRetries: nat := 3

  /** Back-off unit in milliseconds; the k-th retry waits k units. */
  const RetryDelay: nat := 300

  /** RequestTimeout, ServiceUnavailable, GatewayTimeout. */
  const RetryableStatusCodes: seq<int> := [408, 503, 504]

  /** What one invocation of the action does. */
  datatype Outcome<T> = Returned(value: T) | Threw(error: Error)

  /** The exception filter of the retry branch. */
  predicate IsRetryable(e: Error) {
    e.ExternalApi? && e.statusCode in RetryableStatusCodes
  }

  predicate RetryableFailure<T>(o: Outcome<T>) {
    o.Threw? && IsRetryable(o.error)
  }

  function TotalDelay(delays: seq<nat>): nat {
    if |delays| == 0 then 0 else TotalDelay(delays[..|delays| - 1]) + delays[|delays| - 1]
  }

  /** `ExecuteAsync(action, operationName)`. Returns the action's result or
      the exception it ends with, how many times the action ran, and the
      delays waited between runs. */
  method Execute<T>(action: Option<nat -> Outcome<T>>)
    returns (r: Result<T, Error>, invocations: nat, delays: seq<nat>)
    // A null action is rejected before anything runs.
    ensures action.None? ==> r == Failure(ArgumentNull("action")) && invocations == 0 && delays == []
    // Between one and three runs; every run but the last failed retryably.
    ensures action.Some? ==> 1 <= invocations <= MaxRetries
    ensures action.Some? ==>
      forall k | 0 <= k < invocations - 1 :: RetryableFailure(action.value(k))
    // The last run decides: its value is returned unchanged, its exception
    // is rethrown unchanged, and a retryable one ends the loop only on the
    // third run.
    ensures action.Some? ==>
      var last := action.value(invocations - 1);
      && (last.Returned? ==> r == Success(last.value))
      && (last.Threw? ==> r == Failure(last.error))
      && (RetryableFailure(last) ==> invocations == MaxRetries)
    // The wait before retry k is 300*k ms, and there is none after the last run.
    ensures action.Some? ==> |delays| == invocations - 1
    ensures forall k | 0 <= k < |delays| :: delays[k] == RetryDelay * (k + 1)
  {
    if action.None? {
      return Failure(ArgumentNull("action")), 0, [];
    }
    var act := action.value;
    var attempt: nat := 0;
    invocations := 0;
    delays := [];
    while true
      invariant invocations == attempt < MaxRetries
      invariant forall k | 0 <= k < invocations :: RetryableFailure(act(k))
      invariant |delays| == attempt
      invariant forall k | 0 <= k < |delays| :: delays[k] == RetryDelay * (k + 1)
      decreases MaxRetries - attempt
    {
      var outcome := act(invocations);
      invocations := invocations + 1;
      match outcome
      case Returned(v) =>
        r := Success(v);
        return;
      case Threw(e) =>
        if IsRetryable(e) {
          attempt := attempt + 1;
          if attempt >= MaxRetries {
            r := Failure(e);
            return;
          }
          delays := delays + [RetryDelay * attempt];
        } else {
          r := Failure(e);
          return;
        }
    }
  }

  /** The gateway never waits more than 300 + 600 ms in total. */
  lemma {:induction false} DelaysAreBounded(delays: seq<nat>)
    requires |delays| <= MaxRetries - 1
    requires forall k | 0 <= k < |delays| :: delays[k] == RetryDelay * (k + 1)
    ensures TotalDelay(delays) <= 900
  {
    if |delays| > 0 {
      var init := delays[..|delays| - 1];
      assert forall k | 0 <= k < |init| :: init[k] == delays[k];
      DelaysAreBounded(init);
      if |init| > 0 {
        assert init[..|init| - 1] == [];
        assert TotalDelay(init) == RetryDelay;
      }
    }
  }

  /** Scenario: two ServiceUnavailable failures, then success. The value
      comes back after exactly three runs, having waited 300 and 600 ms. */
  method TwoTransientFailuresThenSuccess<T>(value: T) returns (r: Result<T, Error>, invocations: nat, delays: seq<nat>)
    ensures r == Success(value) && invocations == 3 && delays == [300, 600]
  {
    var unavailable := ExternalApi(503, "Service unavailable");
    r, invocations, delays := Execute(Some((k: nat) => if k < 2 then Threw(unavailable) else Returned(value)));
  }

  /** An ExternalApiException built without a status code is not retried. */
  lemma ExternalApiWithoutStatusIsNotRetryable(message: string)
    ensures !IsRetryable(ExternalApiWithoutStatus(message))
  {
  }

  /** Exactly the three transient codes are retried. */
  lemma RetryableCodes(e: Error)
    ensures IsRetryable(e) <==> e.ExternalApi? && (e.statusCode == 408 || e.statusCode == 503 || e.statusCode == 504)
  {
  }
}
