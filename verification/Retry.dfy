/** Errors with their chains of wrapping, and the retry loop. */
module Retry {
  import opened Wire

  /** Go errors as far as the code looks at them: the causes it tells apart, and wrapping (%w).
      Message text is left out. */
  datatype Error =
    | PgError(code: string)
    | InvalidOrderState
    | TxClosed
    | NoRows
    | Canceled
    | Other(tag: nat)
    | Wrapped(inner: Error)

  /** errors.As for a Postgres error: the first one down the chain. */
  function AsPgError(e: Error): Option<string> {
    match e
    case PgError(code) => Some(code)
    case Wrapped(inner) => AsPgError(inner)
    case _ => None
  }

  predicate IsRetryable(e: Error) {
    var code := AsPgError(e);
    code.Some? && (code.value == "40001" || code.value == "40P01")
  }

  function WrapTimes(e: Error, n: nat): Error {
    if n == 0 then e else Wrapped(WrapTimes(e, n - 1))
  }

  /** No stack of wrapping changes whether an error is retried. */
  lemma {:induction false} WrappingKeepsRetryable(e: Error, n: nat)
    ensures IsRetryable(WrapTimes(e, n)) == IsRetryable(e)
  {
    if n == 0 {
    } else {
      WrappingKeepsRetryable(e, n - 1);
    }
  }

  /** What an error comes from, below all wrapping. */
  function Root(e: Error): Error {
    match e
    case Wrapped(inner) => Root(inner)
    case _ => e
  }

  lemma {:induction false} RootIsWrapped(e: Error)
    ensures !Root(e).Wrapped? && exists n: nat :: e == WrapTimes(Root(e), n)
  {
    match e
    case Wrapped(inner) =>
      RootIsWrapped(inner);
      var n: nat :| inner == WrapTimes(Root(inner), n);
      assert e == WrapTimes(Root(e), n + 1);
    case _ => assert e == WrapTimes(e, 0);
  }

  /** Exactly serialization failures and deadlocks are retried, however they are wrapped. */
  lemma {:induction false} RetryableIff(e: Error)
    ensures IsRetryable(e) <==> Root(e) == PgError("40001") || Root(e) == PgError("40P01")
  {
    match e
    case Wrapped(inner) => RetryableIff(inner);
    case _ =>
  }

  /** What one run of an effectful function leaves behind: the world and maybe an error. */
  datatype Ran<W> = Ran(world: W, err: Option<Error>)

  /** How a retry loop ended: after `attempts` runs of its function. */
  datatype RetryRun<W> = RetryRun(world: W, err: Option<Error>, attempts: nat)

  const DEFAULT_MAX_ATTEMPTS: nat := 1

  function Bound(maxAttempts: int): (bound: nat)
    ensures bound >= 1
  {
    if maxAttempts <= 0 then DEFAULT_MAX_ATTEMPTS else maxAttempts
  }

  /** Waits `d`, unless the context is done first with the error `done`. */
  function RetrySleep(d: int, done: Option<Error>): Option<Error> {
    if d <= 0 then None else if done.Some? then Some(Wrapped(done.value)) else None
  }

  function NoBackoff(attempt: nat): int {
    0
  }

  /** The loop from `attempt` on. `fn` is the closure it runs, given the attempt number so that
      every attempt may behave differently, and `done` says whether the context is done while
      the loop sleeps after that attempt. */
  function RetryFrom<W>(w: W, attempt: nat, bound: nat, backoff: nat -> int, done: nat -> Option<Error>,
                        fn: (nat, W) -> Ran<W>): RetryRun<W>
    decreases bound + 1 - attempt
  {
    if attempt > bound then RetryRun(w, None, bound)
    else
      var r := fn(attempt, w);
      if r.err.None? then RetryRun(r.world, None, attempt)
      else if !IsRetryable(r.err.value) || attempt == bound then RetryRun(r.world, r.err, attempt)
      else
        var interrupted := RetrySleep(backoff(attempt), done(attempt));
        if interrupted.Some? then RetryRun(r.world, Some(Wrapped(interrupted.value)), attempt)
        else RetryFrom(r.world, attempt + 1, bound, backoff, done, fn)
  }

  /** The whole loop. */
  function RunRetry<W>(w0: W, maxAttempts: int, backoff: nat -> int, done: nat -> Option<Error>,
                       fn: (nat, W) -> Ran<W>): RetryRun<W>
  {
    RetryFrom(w0, 1, Bound(maxAttempts), backoff, done, fn)
  }

  method WithRetry<W>(w0: W, maxAttempts: int, backoff: nat -> int, done: nat -> Option<Error>,
                      fn: (nat, W) -> Ran<W>)
    returns (w: W, err: Option<Error>, attempts: nat)
    ensures RetryRun(w, err, attempts) == RunRetry(w0, maxAttempts, backoff, done, fn)
  {
    var limit := maxAttempts;
    if limit <= 0 {
      limit := DEFAULT_MAX_ATTEMPTS;
    }
    w, attempts := w0, 1;
    while attempts <= limit
      invariant 1 <= attempts <= limit + 1
      invariant RetryFrom(w, attempts, limit, backoff, done, fn) == RetryFrom(w0, 1, limit, backoff, done, fn)
    {
      var r := fn(attempts, w);
      w := r.world;
      if r.err.None? {
        return w, None, attempts;
      }
      if !IsRetryable(r.err.value) || attempts == limit {
        return w, r.err, attempts;
      }
      var interrupted := RetrySleep(backoff(attempts), done(attempts));
      if interrupted.Some? {
        return w, Some(Wrapped(interrupted.value)), attempts;
      }
      attempts := attempts + 1;
    }
    return w, None, limit;
  }

  /** The world in which attempt `k` starts when all attempts before it were made. */
  function WorldBefore<W>(w0: W, k: nat, fn: (nat, W) -> Ran<W>): W {
    if k <= 1 then w0 else fn(k - 1, WorldBefore(w0, k - 1, fn)).world
  }

  /** Attempt `k`, made after all attempts before it. */
  function AttemptAt<W>(w0: W, k: nat, fn: (nat, W) -> Ran<W>): Ran<W> {
    fn(k, WorldBefore(w0, k, fn))
  }

  predicate FailsRetryably<W>(r: Ran<W>) {
    r.err.Some? && IsRetryable(r.err.value)
  }

  /** The loop must wait after attempt `k`, and the context is done before the wait is over. */
  predicate Interrupted(k: nat, backoff: nat -> int, done: nat -> Option<Error>) {
    backoff(k) > 0 && done(k).Some?
  }

  /** The run ended at its attempt `n` for the right reason, and no attempt from `first` on should
      have ended it before. */
  ghost predicate EndsAt<W>(run: RetryRun<W>, w0: W, first: nat, limit: nat, backoff: nat -> int,
                            done: nat -> Option<Error>, fn: (nat, W) -> Ran<W>)
  {
    var n, last := run.attempts, AttemptAt(w0, run.attempts, fn);
    && first <= n <= limit
    && run.world == last.world
    && (forall k :: first <= k < n ==> FailsRetryably(AttemptAt(w0, k, fn)) && !Interrupted(k, backoff, done))
    && (if !FailsRetryably(last) || n == limit then run.err == last.err
        else Interrupted(n, backoff, done) && run.err == Some(Wrapped(Wrapped(done(n).value))))
  }

  lemma {:induction false} RetryFromEnds<W>(w0: W, attempt: nat, limit: nat, backoff: nat -> int,
                                            done: nat -> Option<Error>, fn: (nat, W) -> Ran<W>)
    requires 1 <= attempt <= limit
    ensures EndsAt(RetryFrom(WorldBefore(w0, attempt, fn), attempt, limit, backoff, done, fn),
                   w0, attempt, limit, backoff, done, fn)
    decreases limit - attempt
  {
    var r := AttemptAt(w0, attempt, fn);
    if FailsRetryably(r) && attempt < limit && !Interrupted(attempt, backoff, done) {
      RetryFromEnds(w0, attempt + 1, limit, backoff, done, fn);
    }
  }

  /** Of the attempts the caller allows, one if it allows none, the loop makes those up to the
      first that does not fail retryably or after which the wait is interrupted. Then it gives
      that attempt's outcome, or reports the interruption if another attempt was due. */
  lemma RetryEnds<W>(w0: W, maxAttempts: int, backoff: nat -> int, done: nat -> Option<Error>, fn: (nat, W) -> Ran<W>)
    ensures maxAttempts >= 1 ==>
              EndsAt(RunRetry(w0, maxAttempts, backoff, done, fn), w0, 1, maxAttempts, backoff, done, fn)
    ensures maxAttempts <= 0 ==> EndsAt(RunRetry(w0, maxAttempts, backoff, done, fn), w0, 1, 1, backoff, done, fn)
  {
    RetryFromEnds(w0, 1, if maxAttempts >= 1 then maxAttempts else 1, backoff, done, fn);
  }

  /** A function that keeps failing retryably is run exactly as often as allowed. */
  lemma RetryExhausts<W>(w0: W, maxAttempts: nat, backoff: nat -> int, done: nat -> Option<Error>,
                         fn: (nat, W) -> Ran<W>)
    requires maxAttempts >= 1
    requires forall k :: 1 <= k <= maxAttempts ==>
                           FailsRetryably(AttemptAt(w0, k, fn)) && !Interrupted(k, backoff, done)
    ensures var run := RunRetry(w0, maxAttempts, backoff, done, fn);
            run.attempts == maxAttempts && run.err == AttemptAt(w0, maxAttempts, fn).err
  {
    hide RunRetry;
    RetryEnds(w0, maxAttempts, backoff, done, fn);
  }
}
