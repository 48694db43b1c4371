/** The retry wrapper of scripts/notion-client.js: `retryConfig`, `isRetryableError` and
    `withRetry`. A remote operation is given by what its successive calls would do: the
    errors raised by the first calls, then the value returned by the next one. */
module NotionRetry {
  import opened Wrappers
  import opened JsString

  /** A thrown JavaScript error: its message, its optional `code` and optional `status`. */
  datatype Error = Error(message: string, code: Option<string>, status: Option<int>)

  /** Calls number 0 .. |failures| - 1 throw the listed errors; every later call returns `success`. */
  datatype Operation<T> = Operation(failures: seq<Error>, success: T)

  /** retryConfig */
  const MaxRetries: nat := 5
  const BaseDelay: nat := 1000
  const MaxDelay: nat := 10000
  const ExponentialBase: nat := 2

  const RetryableErrors: seq<string> :=
    ["ECONNRESET", "ETIMEDOUT", "ECONNREFUSED", "EHOSTUNREACH", "ENOTFOUND", "EAI_AGAIN", "fetch failed"]

  function Pow(b: nat, e: nat): nat {
    if e == 0 then 1 else b * Pow(b, e - 1)
  }

  /** The wait after failed attempt `attempt` (1-based): min(baseDelay * base^(attempt-1), maxDelay). */
  function BackoffDelay(attempt: nat): nat
    requires attempt >= 1
  {
    var d := BaseDelay * Pow(ExponentialBase, attempt - 1);
    if d < MaxDelay then d else MaxDelay
  }

  lemma BackoffSchedule()
    ensures BackoffDelay(1) == 1000 && BackoffDelay(2) == 2000
    ensures BackoffDelay(3) == 4000 && BackoffDelay(4) == 8000
  {
  }

  lemma {:induction false} PowGrows(e: nat)
    requires e >= 4
    ensures Pow(2, e) >= 16
  {
    if e > 4 {
      PowGrows(e - 1);
    }
  }

  /** From the fifth attempt on the formula gives the cap. withRetry itself never waits after
      its fifth attempt, which ends the loop; the lemma bounds every delay the formula yields. */
  lemma BackoffCapped(attempt: nat)
    requires attempt >= 5
    ensures BackoffDelay(attempt) == MaxDelay
  {
    PowGrows(attempt - 1);
  }

  /** One step of `retryableErrors.some(...)`: a token matches the lowercased message or code. */
  predicate TokenMatches(token: string, message: string, code: Option<string>) {
    Contains(message, Lower(token)) || (code.Some? && code.value == Lower(token))
  }

  predicate AnyTokenMatches(tokens: seq<string>, message: string, code: Option<string>) {
    |tokens| > 0 && (TokenMatches(tokens[0], message, code) || AnyTokenMatches(tokens[1..], message, code))
  }

  function LowerCode(code: Option<string>): Option<string> {
    if code.Some? then Some(Lower(code.value)) else None
  }

  /** isRetryableError */
  predicate IsRetryable(e: Error) {
    AnyTokenMatches(RetryableErrors, Lower(e.message), LowerCode(e.code))
    || (e.status.Some? && e.status.value >= 500 && e.status.value < 600)
  }

  lemma {:induction false} AnyTokenMatchesIff(tokens: seq<string>, message: string, code: Option<string>)
    ensures AnyTokenMatches(tokens, message, code)
        <==> exists i :: 0 <= i < |tokens| && TokenMatches(tokens[i], message, code)
  {
    if |tokens| > 0 {
      AnyTokenMatchesIff(tokens[1..], message, code);
      if AnyTokenMatches(tokens[1..], message, code) {
        var i :| 0 <= i < |tokens[1..]| && TokenMatches(tokens[1..][i], message, code);
        assert TokenMatches(tokens[i + 1], message, code);
      }
      forall i | 0 < i < |tokens| && TokenMatches(tokens[i], message, code)
        ensures AnyTokenMatches(tokens[1..], message, code)
      {
        assert tokens[1..][i - 1] == tokens[i];
      }
    }
  }

  /** isRetryableError holds exactly when one of the seven tokens occurs in the lowercased
      message or equals the lowercased code, or the status is a 5xx status. */
  lemma IsRetryableIff(e: Error)
    ensures IsRetryable(e) <==>
      (exists i :: 0 <= i < |RetryableErrors| &&
         (Contains(Lower(e.message), Lower(RetryableErrors[i]))
          || (e.code.Some? && Lower(e.code.value) == Lower(RetryableErrors[i]))))
      || (e.status.Some? && 500 <= e.status.value < 600)
  {
    AnyTokenMatchesIff(RetryableErrors, Lower(e.message), LowerCode(e.code));
  }

  /** What call number `j` (0-based) of the operation does. */
  function Call<T>(op: Operation<T>, j: nat): Result<T, Error> {
    if j < |op.failures| then Err(op.failures[j]) else Ok(op.success)
  }

  /** The operation succeeds under withRetry: fewer than maxRetries failures, all retryable. */
  predicate RetrySucceeds(failures: seq<Error>) {
    |failures| < MaxRetries && forall j :: 0 <= j < |failures| ==> IsRetryable(failures[j])
  }

  /** The message withRetry throws when it gives up. */
  function GiveUpMessage(context: string, last: Error): string {
    context + " 最终失败: " + last.message
  }

  /** withRetry: returns the result of the first successful call, stops after a
      non-retryable error or after maxRetries calls, and sleeps BackoffDelay(k) after
      failed call k whenever another call follows. `calls` is the number of calls made
      and `delays` the requested sleeps, in order. */
  method WithRetry<T>(op: Operation<T>, context: string) returns (r: Result<T, string>, calls: nat, delays: seq<nat>)
    ensures 1 <= calls <= MaxRetries
    ensures forall j :: 0 <= j < calls - 1 ==> Call(op, j).Err? && IsRetryable(Call(op, j).error)
    ensures r.Ok? <==> Call(op, calls - 1).Ok?
    ensures r.Ok? <==> RetrySucceeds(op.failures)
    ensures r.Ok? ==> r.value == op.success && calls == |op.failures| + 1
    ensures r.Err? ==>
      && calls - 1 < |op.failures|
      && (calls == MaxRetries || !IsRetryable(op.failures[calls - 1]))
      && r.error == GiveUpMessage(context, op.failures[calls - 1])
    ensures |delays| == calls - 1
    ensures forall k :: 0 <= k < |delays| ==> delays[k] == BackoffDelay(k + 1)
  {
    var attempt := 1;
    delays := [];
    var lastError := Error("", None, None);
    while attempt <= MaxRetries
      invariant 1 <= attempt <= MaxRetries
      invariant attempt - 1 <= |op.failures|
      invariant forall j :: 0 <= j < attempt - 1 ==> IsRetryable(op.failures[j])
      invariant |delays| == attempt - 1
      invariant forall k :: 0 <= k < |delays| ==> delays[k] == BackoffDelay(k + 1)
    {
      var outcome := Call(op, attempt - 1);
      if outcome.Ok? {
        r, calls := Ok(outcome.value), attempt;
        return;
      }
      lastError := outcome.error;
      var retryable := IsRetryable(lastError);
      if !retryable || attempt == MaxRetries {
        break;
      }
      var delay := BackoffDelay(attempt);
      delays := delays + [delay];
      attempt := attempt + 1;
    }
    r, calls := Err(GiveUpMessage(context, lastError)), attempt;
  }
}
