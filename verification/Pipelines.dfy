/** One execution of the decorated pipeline: handler, retries, breaker, fallback
    (policy/pipeline.ts). */
module Pipelines {
  import opened Retries
  import opened Breakers

  /** What the pipeline yields. It never throws. */
  datatype Outcome<T> =
    | Done(value: T, attempts: nat)
    | Failed(error: Error, compensateRequested: bool, fallbackTarget: string, attempts: nat)

  datatype OnFail = OnFail(compensate: bool, target: string)

  /** `started` and `ended` are the clock at the admission and at the end of the call. Nothing else
      uses the breaker in between; module Breakers interleaves calls. */
  method Execute<T>(breaker: CircuitBreaker, enabled: bool, retry: Retries.Policy, onFail: OnFail,
                    handler: nat -> Result<T>, random: nat -> real, started: int, ended: int)
    returns (outcome: Outcome<T>, calls: nat, slept: real)
    modifies breaker
    ensures breaker.policy == old(breaker.policy)
    ensures calls <= 1 || calls <= retry.maxAttempts
    ensures forall i :: 1 <= i < calls ==>
      && handler(i).Threw? && handler(i).error != ValidationError && handler(i).error != CircuitOpenError
      && (retry.retryIf.Some? ==> retry.retryIf.value(handler(i).error))
    ensures 0 < calls < retry.maxAttempts && handler(calls).Threw? ==>
      var error := handler(calls).error;
      error == ValidationError || error == CircuitOpenError || (retry.retryIf.Some? && !retry.retryIf.value(error))
    ensures slept == if calls > 0 then Sum(Delays(retry.backoff, random), calls - 1) else 0.0
    ensures 0.0 <= slept && (retry.backoff.maxDelayMs >= 0.0 ==> slept <= AtMost(Limit(retry) - 1, retry.backoff))
    ensures calls > 0 && handler(calls).Returned? ==> outcome == Done(handler(calls).value, calls)
    ensures calls > 0 && handler(calls).Threw? ==>
      outcome == Failed(handler(calls).error, onFail.compensate, if onFail.target == "" then "error" else onFail.target, calls)
    ensures !enabled ==> breaker.Now() == old(breaker.Now()) && calls > 0
    ensures enabled ==>
      var (admitted, event) := Step(breaker.policy, old(breaker.Now()), Admit(started));
      && (calls > 0 <==> event.Started?)
      && (calls == 0 ==>
            && breaker.Now() == admitted
            && outcome == Failed(CircuitOpenError, onFail.compensate, if onFail.target == "" then "error" else onFail.target, 1))
      && (calls > 0 && handler(calls).Returned? ==> breaker.Now() == Step(breaker.policy, admitted, Succeed(ended)).0)
      && (calls > 0 && handler(calls) == Threw(ValidationError) ==> breaker.Now() == Step(breaker.policy, admitted, Invalid(ended)).0)
      && (calls > 0 && handler(calls).Threw? && handler(calls).error != ValidationError ==>
            breaker.Now() == Step(breaker.policy, admitted, Fail(ended)).0)
  {
    calls, slept := 0, 0.0;
    var result: Result<T> := Threw(CircuitOpenError);
    if !enabled {
      result, calls, slept := RunWithRetry(retry, handler, random);
    } else {
      var admitted := breaker.TryStart(started);
      if admitted {
        result, calls, slept := RunWithRetry(retry, handler, random);
        match result
        case Returned(_) => breaker.OnSuccess(ended);
        case Threw(ValidationError) => breaker.OnInvalid(ended);
        case Threw(_) => breaker.OnFailure(ended);
      } else {
        if retry.backoff.maxDelayMs >= 0.0 { MoreIsMore(0, Limit(retry) - 1, retry.backoff); }
      }
    }
    match result
    case Returned(value) => outcome := Done(value, calls);
    case Threw(error) =>
      var target := if onFail.target == "" then "error" else onFail.target;
      outcome := Failed(error, onFail.compensate, target, if calls == 0 then 1 else calls);
  }
}
