/** Database transactions over a pool of connections, and the two transaction runners. */
module Transactions {
  import opened Wire
  import opened Retry

  /** The committed state of a database and the private states of its open transactions. */
  datatype Conns<D> = Conns(committed: D, open: map<nat, D>, next: nat)

  /** The result of running a transaction's body: it may also have changed a captured variable,
      which no rollback restores. */
  datatype BodyRun<D, R> = BodyRun(conns: Conns<D>, captured: R, err: Option<Error>)

  /** A transaction's body, given the attempt number and the id of its transaction. */
  type Body<!D, !R> = (nat, nat, Conns<D>, R) -> BodyRun<D, R>

  /** What one attempt meets: what other clients committed before it, and whether beginning and
      committing fail. A failed commit rolls back. */
  datatype Plan<!D> = Plan(env: D -> D, begin: Option<Error>, commit: Option<Error>)

  datatype World<D, R> = World(conns: Conns<D>, captured: R)

  /** The connections as the body first sees them, its own transaction open on a copy. */
  function Started<D>(plan: Plan<D>, c: Conns<D>): Conns<D> {
    var d := plan.env(c.committed);
    Conns(d, c.open[c.next := d], c.next + 1)
  }

  /** pgx.BeginTxFunc: commits when the body returns nil and rolls back otherwise. */
  function BeginTxFunc<D, R>(plan: Plan<D>, attempt: nat, w: World<D, R>, body: Body<D, R>): Ran<World<D, R>> {
    if plan.begin.Some? then
      Ran(World(w.conns.(committed := plan.env(w.conns.committed)), w.captured), plan.begin)
    else
      var id := w.conns.next;
      var r := body(attempt, id, Started(plan, w.conns), w.captured);
      var rolledBack := World(r.conns.(open := r.conns.open - {id}), r.captured);
      if r.err.Some? then Ran(rolledBack, r.err)
      else if id !in r.conns.open then Ran(rolledBack, Some(TxClosed))
      else if plan.commit.Some? then Ran(rolledBack, plan.commit)
      else Ran(World(rolledBack.conns.(committed := r.conns.open[id]), r.captured), None)
  }

  function WrapErr(err: Option<Error>): Option<Error> {
    if err.None? then None else Some(Wrapped(err.value))
  }

  function WrapBody<D, R>(body: Body<D, R>): Body<D, R> {
    (attempt: nat, id: nat, c: Conns<D>, captured: R) =>
      var r := body(attempt, id, c, captured);
      r.(err := WrapErr(r.err))
  }

  /** TxManager.runAttempt, which wraps the body's error once more than the unit of work does. */
  function TxAttempt<D, R>(plan: Plan<D>, attempt: nat, w: World<D, R>, body: Body<D, R>): Ran<World<D, R>> {
    var r := BeginTxFunc(plan, attempt, w, WrapBody(body));
    r.(err := WrapErr(r.err))
  }

  /** pgxUnitOfWork.runAttempt. */
  function UowAttempt<D, R>(plan: Plan<D>, attempt: nat, w: World<D, R>, body: Body<D, R>): Ran<World<D, R>> {
    var r := BeginTxFunc(plan, attempt, w, body);
    r.(err := WrapErr(r.err))
  }

  datatype Runner = TxManager | UnitOfWork

  function Attempt<D, R>(runner: Runner, plan: Plan<D>, attempt: nat, w: World<D, R>, body: Body<D, R>)
    : Ran<World<D, R>>
  {
    if runner.TxManager? then TxAttempt(plan, attempt, w, body) else UowAttempt(plan, attempt, w, body)
  }

  function AttemptFn<D, R>(runner: Runner, plans: nat -> Plan<D>, body: Body<D, R>)
    : (nat, World<D, R>) -> Ran<World<D, R>>
  {
    (i: nat, w: World<D, R>) => Attempt(runner, plans(i), i, w, body)
  }

  function NeverDone(attempt: nat): Option<Error> {
    None
  }

  /** Do, of either runner. */
  function Do<D, R>(runner: Runner, maxAttempts: int, plans: nat -> Plan<D>, w: World<D, R>, body: Body<D, R>)
    : RetryRun<World<D, R>>
  {
    var run := RunRetry(w, maxAttempts, NoBackoff, NeverDone, AttemptFn(runner, plans, body));
    run.(err := WrapErr(run.err))
  }

  /** The pool and the methods that change what it holds. */
  class Pool<D> {
    var conns: Conns<D>

    constructor (db: D)
      ensures conns == Conns(db, map[], 0)
    {
      conns := Conns(db, map[], 0);
    }

    method RunAttempt<R>(runner: Runner, plan: Plan<D>, attempt: nat, captured: R, body: Body<D, R>)
      returns (after: R, err: Option<Error>)
      modifies this
      ensures Ran(World(conns, after), err) == Attempt(runner, plan, attempt, World(old(conns), captured), body)
    {
      after := captured;
      conns := conns.(committed := plan.env(conns.committed));
      if plan.begin.Some? {
        err := plan.begin;
      } else {
        var id := conns.next;
        conns := Conns(conns.committed, conns.open[id := conns.committed], id + 1);
        var r := body(attempt, id, conns, captured);
        conns, after, err := r.conns, r.captured, r.err;
        if runner.TxManager? {
          err := WrapErr(err);
        }
        if err.None? && id !in conns.open {
          err := Some(TxClosed);
        } else if err.None? && plan.commit.Some? {
          err := plan.commit;
        } else if err.None? {
          conns := conns.(committed := conns.open[id]);
        }
        conns := conns.(open := conns.open - {id});
      }
      err := WrapErr(err);
    }

    method Transact<R>(runner: Runner, maxAttempts: int, plans: nat -> Plan<D>, captured: R, body: Body<D, R>)
      returns (after: R, err: Option<Error>, attempts: nat)
      modifies this
      ensures RetryRun(World(conns, after), err, attempts)
           == Do(runner, maxAttempts, plans, World(old(conns), captured), body)
    {
      var w;
      w, err, attempts := WithRetry(World(conns, captured), maxAttempts, NoBackoff, NeverDone,
                                    AttemptFn(runner, plans, body));
      conns, after := w.conns, w.captured;
      err := WrapErr(err);
    }
  }

  // Atomicity.

  /** Everything but transaction `id` is as it was. */
  predicate OnlyTx<D(==)>(id: nat, before: Conns<D>, after: Conns<D>) {
    && after.committed == before.committed
    && after.next == before.next
    && id in after.open
    && after.open - {id} == before.open - {id}
  }

  /** The body works through its own transaction only. */
  ghost predicate Confined<D(!new), R(!new)>(body: Body<D, R>) {
    forall attempt: nat, id: nat, c: Conns<D>, captured: R ::
      id in c.open ==> OnlyTx(id, c, body(attempt, id, c, captured).conns)
  }

  /** What other clients alone make of the database before the first `n` attempts. */
  function EnvAfter<D>(plans: nat -> Plan<D>, n: nat, d: D): D {
    if n == 0 then d else plans(n).env(EnvAfter(plans, n - 1, d))
  }

  /** No transaction has an id that is yet to be given out. */
  predicate ValidConns<D>(c: Conns<D>) {
    forall id :: id in c.open ==> id < c.next
  }

  /** The first thing that goes wrong in an attempt whose body answers `err`: beginning, the body
      or committing. */
  function FirstFailure<D>(plan: Plan<D>, err: Option<Error>): Option<Error> {
    if plan.begin.Some? then plan.begin else if err.Some? then err else plan.commit
  }

  /** Both or neither are errors, and they come from the same cause, however wrapped. */
  predicate SameFailure(a: Option<Error>, b: Option<Error>) {
    (a.Some? <==> b.Some?) && (a.Some? ==> Root(a.value) == Root(b.value))
  }

  lemma WrapKeepsCause(err: Option<Error>)
    ensures SameFailure(WrapErr(err), err)
  {
  }

  lemma WrappedThrice(err: Option<Error>)
    ensures SameFailure(WrapErr(WrapErr(WrapErr(err))), err)
  {
    hide Root;
    WrapKeepsCause(err);
    WrapKeepsCause(WrapErr(err));
    WrapKeepsCause(WrapErr(WrapErr(err)));
  }

  predicate RetryableFailure(err: Option<Error>) {
    err.Some? && (Root(err.value) == PgError("40001") || Root(err.value) == PgError("40P01"))
  }

  /** One attempt: a failure leaves what the other clients did, except for the captured variable,
      and has the cause of what failed first; a success adds what the body made of its own copy. */
  lemma AttemptAtomic<D(!new), R(!new)>(runner: Runner, plan: Plan<D>, attempt: nat, w: World<D, R>, body: Body<D, R>)
    requires Confined(body) && ValidConns(w.conns)
    ensures var r := Attempt(runner, plan, attempt, w, body);
            var inner := body(attempt, w.conns.next, Started(plan, w.conns), w.captured);
            && ValidConns(r.world.conns)
            && r.world.conns.open == w.conns.open
            && r.world.conns.next == w.conns.next + (if plan.begin.Some? then 0 else 1)
            && r.world.captured == (if plan.begin.Some? then w.captured else inner.captured)
            && (r.err.Some? ==> r.world.conns.committed == plan.env(w.conns.committed))
            && (r.err.None? ==>
                  && plan.begin.None? && plan.commit.None? && inner.err.None?
                  && w.conns.next in inner.conns.open
                  && r.world.conns.committed == inner.conns.open[w.conns.next])
            && SameFailure(r.err, if plan.begin.Some? then plan.begin
                                  else if inner.err.Some? then inner.err
                                  else plan.commit)
  {
    var id, started := w.conns.next, Started(plan, w.conns);
    var inner := body(attempt, id, started, w.captured);
    assert OnlyTx(id, started, inner.conns);
    assert started.open - {id} == w.conns.open;
    assert inner.conns.open - {id} == w.conns.open;
  }

  /** While attempts fail, the database moves only as the other clients move it. */
  lemma {:induction false} FailuresLeaveNothing<D(!new), R(!new)>(
    runner: Runner, plans: nat -> Plan<D>, w0: World<D, R>, body: Body<D, R>, k: nat)
    requires Confined(body) && ValidConns(w0.conns) && k >= 1
    requires forall i :: 1 <= i < k ==> AttemptAt(w0, i, AttemptFn(runner, plans, body)).err.Some?
    ensures var w := WorldBefore(w0, k, AttemptFn(runner, plans, body));
            && ValidConns(w.conns) && w.conns.open == w0.conns.open
            && w.conns.committed == EnvAfter(plans, k - 1, w0.conns.committed)
  {
    hide Attempt, Confined;
    if k == 1 {
    } else {
      var fn := AttemptFn(runner, plans, body);
      FailuresLeaveNothing(runner, plans, w0, body, k - 1);
      assert AttemptAt(w0, k - 1, fn).err.Some?;
      AttemptAtomic(runner, plans(k - 1), k - 1, WorldBefore(w0, k - 1, fn), body);
    }
  }

  /** How attempt `k` finds the world, after all attempts before it. */
  function WorldAt<D, R>(runner: Runner, plans: nat -> Plan<D>, w0: World<D, R>, body: Body<D, R>, k: nat)
    : World<D, R>
  {
    WorldBefore(w0, k, AttemptFn(runner, plans, body))
  }

  /** What attempt `k` begins with: its own copy of the database, open under the next id. */
  function OpenAt<D, R>(runner: Runner, plans: nat -> Plan<D>, w0: World<D, R>, body: Body<D, R>, k: nat): Conns<D> {
    Started(plans(k), WorldAt(runner, plans, w0, body, k).conns)
  }

  /** What the body does in attempt `k`. */
  function BodyAt<D, R>(runner: Runner, plans: nat -> Plan<D>, w0: World<D, R>, body: Body<D, R>, k: nat)
    : BodyRun<D, R>
  {
    var w := WorldAt(runner, plans, w0, body, k);
    body(k, w.conns.next, OpenAt(runner, plans, w0, body, k), w.captured)
  }

  /** The first thing that goes wrong in attempt `k`. */
  function FailureAt<D, R>(runner: Runner, plans: nat -> Plan<D>, w0: World<D, R>, body: Body<D, R>, k: nat)
    : Option<Error>
  {
    FirstFailure(plans(k), BodyAt(runner, plans, w0, body, k).err)
  }

  lemma AttemptOutcome<D(!new), R(!new)>(
    runner: Runner, plans: nat -> Plan<D>, w0: World<D, R>, body: Body<D, R>, k: nat)
    requires Confined(body) && ValidConns(w0.conns) && k >= 1
    requires forall i :: 1 <= i < k ==> AttemptAt(w0, i, AttemptFn(runner, plans, body)).err.Some?
    ensures var w := WorldAt(runner, plans, w0, body, k);
            var seen, inner := EnvAfter(plans, k, w0.conns.committed), BodyAt(runner, plans, w0, body, k);
            var r := AttemptAt(w0, k, AttemptFn(runner, plans, body));
            && OpenAt(runner, plans, w0, body, k).open == w0.conns.open[w.conns.next := seen]
            && SameFailure(r.err, FailureAt(runner, plans, w0, body, k))
            && (FailsRetryably(r) <==> RetryableFailure(FailureAt(runner, plans, w0, body, k)))
            && ValidConns(r.world.conns) && r.world.conns.open == w0.conns.open
            && (r.err.Some? ==> r.world.conns.committed == seen)
            && (r.err.None? ==>
                  && w.conns.next in inner.conns.open
                  && r.world.conns.committed == inner.conns.open[w.conns.next]
                  && r.world.captured == inner.captured)
  {
    hide Attempt, Confined;
    var fn := AttemptFn(runner, plans, body);
    FailuresLeaveNothing(runner, plans, w0, body, k);
    AttemptAtomic(runner, plans(k), k, WorldBefore(w0, k, fn), body);
    var r := AttemptAt(w0, k, fn);
    if r.err.Some? {
      RetryableIff(r.err.value);
    }
  }

  /** Do is atomic: nil means the body ran to completion in the last attempt and exactly that
      run was committed; an error means the body contributed nothing at all. Every attempt
      works on what the other clients alone made of the database. */
  lemma DoAtomic<D(!new), R(!new)>(
    runner: Runner, maxAttempts: int, plans: nat -> Plan<D>, w0: World<D, R>, body: Body<D, R>)
    requires Confined(body) && ValidConns(w0.conns)
    ensures var run := Do(runner, maxAttempts, plans, w0, body);
            var n := run.attempts;
            var w, last := WorldAt(runner, plans, w0, body, n), BodyAt(runner, plans, w0, body, n);
            && (forall k :: 1 <= k <= n ==>
                  var id := WorldAt(runner, plans, w0, body, k).conns.next;
                  OpenAt(runner, plans, w0, body, k).open
                  == w0.conns.open[id := EnvAfter(plans, k, w0.conns.committed)])
            && ValidConns(run.world.conns) && run.world.conns.open == w0.conns.open
            && (run.err.Some? ==> run.world.conns.committed == EnvAfter(plans, n, w0.conns.committed))
            && (run.err.None? ==>
                  && last.err.None? && w.conns.next in last.conns.open
                  && run.world.conns.committed == last.conns.open[w.conns.next]
                  && run.world.captured == last.captured)
  {
    hide Attempt, Confined, RunRetry, EnvAfter;
    var fn := AttemptFn(runner, plans, body);
    RetryEnds(w0, maxAttempts, NoBackoff, NeverDone, fn);
    var n := Do(runner, maxAttempts, plans, w0, body).attempts;
    assert forall i :: 1 <= i < n ==> FailsRetryably(AttemptAt(w0, i, fn));
    forall k | 1 <= k <= n
      ensures var id := WorldAt(runner, plans, w0, body, k).conns.next;
              OpenAt(runner, plans, w0, body, k).open == w0.conns.open[id := EnvAfter(plans, k, w0.conns.committed)]
    {
      AttemptOutcome(runner, plans, w0, body, k);
    }
    AttemptOutcome(runner, plans, w0, body, n);
  }

  /** `n` attempts were made, of which all but the last failed retryably, and the last did not or
      was the last allowed; a caller that allows none gets one. */
  ghost predicate EndsAfter(n: nat, maxAttempts: int, failure: nat -> Option<Error>) {
    && 1 <= n <= (if maxAttempts >= 1 then maxAttempts else 1)
    && (forall k :: 1 <= k < n ==> RetryableFailure(failure(k)))
    && (n < maxAttempts ==> !RetryableFailure(failure(n)))
  }

  lemma SameEnds(n: nat, maxAttempts: int, f: nat -> Option<Error>, g: nat -> Option<Error>)
    requires EndsAfter(n, maxAttempts, f)
    requires forall k :: 1 <= k <= n ==> SameFailure(f(k), g(k))
    ensures EndsAfter(n, maxAttempts, g)
  {
    assert forall k :: 1 <= k <= n ==> (RetryableFailure(f(k)) <==> RetryableFailure(g(k)));
  }

  /** Of the attempts allowed, Do makes those up to the first whose failure is not to be retried,
      whether it failed to begin, in its body or to commit. It answers nil exactly when nothing
      failed in its last attempt, and otherwise an error with that failure's cause. */
  lemma DoEnds<D(!new), R(!new)>(
    runner: Runner, maxAttempts: int, plans: nat -> Plan<D>, w0: World<D, R>, body: Body<D, R>)
    requires Confined(body) && ValidConns(w0.conns)
    ensures var run := Do(runner, maxAttempts, plans, w0, body);
            var n := run.attempts;
            && EndsAfter(n, maxAttempts, (k: nat) => FailureAt(runner, plans, w0, body, k))
            && SameFailure(run.err, FailureAt(runner, plans, w0, body, n))
  {
    hide Attempt, Confined, RunRetry;
    var fn := AttemptFn(runner, plans, body);
    RetryEnds(w0, maxAttempts, NoBackoff, NeverDone, fn);
    var n := Do(runner, maxAttempts, plans, w0, body).attempts;
    assert forall i :: 1 <= i < n ==> FailsRetryably(AttemptAt(w0, i, fn));
    forall k | 1 <= k <= n
      ensures FailsRetryably(AttemptAt(w0, k, fn)) <==> RetryableFailure(FailureAt(runner, plans, w0, body, k))
    {
      AttemptOutcome(runner, plans, w0, body, k);
    }
    AttemptOutcome(runner, plans, w0, body, n);
  }

  /** When every attempt allowed fails retryably, all of them are made and the last failure is
      answered. */
  lemma DoExhausts<D(!new), R(!new)>(
    runner: Runner, maxAttempts: nat, plans: nat -> Plan<D>, w0: World<D, R>, body: Body<D, R>)
    requires Confined(body) && ValidConns(w0.conns) && maxAttempts >= 1
    requires forall k :: 1 <= k <= maxAttempts ==> RetryableFailure(FailureAt(runner, plans, w0, body, k))
    ensures var run := Do(runner, maxAttempts, plans, w0, body);
            run.attempts == maxAttempts && SameFailure(run.err, FailureAt(runner, plans, w0, body, maxAttempts))
  {
    hide Do, FailureAt, Confined;
    DoEnds(runner, maxAttempts, plans, w0, body);
  }
}
