/** Queries ending concurrently: every interleaving of the locked steps of their traces. */
module Tracing {
  import opened Decimal
  import opened Bag

  /** One query's trace that has made the first `done` of its updates. */
  datatype Thread = Thread(query: Query, done: nat)

  datatype State = State(fields: Fields, threads: seq<Thread>)

  predicate Finished(t: Thread) {
    t.done >= |TraceOps(t.query)|
  }

  /** A query ends and its trace begins; a trace makes its next update; or any other code updates
      a field that is not one of the tracer's. */
  datatype Event = Begin(query: Query) | Advance(thread: nat) | Foreign(op: Op)

  predicate Enabled(s: State, e: Event) {
    match e
    case Begin(_) => true
    case Advance(i) => i < |s.threads| && !Finished(s.threads[i])
    case Foreign(op) => !IsTraceKey(op.key)
  }

  function Next(s: State, e: Event): State
    requires Enabled(s, e)
  {
    match e
    case Begin(q) => s.(threads := s.threads + [Thread(q, 0)])
    case Advance(i) =>
      var t := s.threads[i];
      State(Apply(s.fields, TraceOps(t.query)[t.done]), s.threads[i := Thread(t.query, t.done + 1)])
    case Foreign(op) => s.(fields := Apply(s.fields, op))
  }

  /** The states of one execution, from an empty bag. */
  ghost predicate IsExecution(states: seq<State>, events: seq<Event>) {
    && |states| == |events| + 1
    && states[0] == State(map[], [])
    && forall i :: 0 <= i < |events| ==> Enabled(states[i], events[i]) && states[i + 1] == Next(states[i], events[i])
  }

  // What each trace has contributed so far.

  function Recorded(t: Thread): int { if t.done >= 1 then 1 else 0 }
  function Counted(t: Thread): int { if t.done >= 2 then 1 else 0 }
  function Timed(t: Thread): int { if t.done >= 3 then t.query.duration else 0 }
  function RowsAdded(t: Thread): int { if t.done >= 4 && t.query.rowsAffected > 0 then t.query.rowsAffected else 0 }
  function ErrorCounted(t: Thread): int {
    if t.query.failed && t.done >= (if t.query.rowsAffected > 0 then 5 else 4) then 1 else 0
  }

  function Sum(threads: seq<Thread>, f: Thread -> int): int {
    if threads == [] then 0 else Sum(threads[..|threads| - 1], f) + f(threads[|threads| - 1])
  }

  function RecordedQueries(threads: seq<Thread>): multiset<Query> {
    if threads == [] then multiset{}
    else
      var last := threads[|threads| - 1];
      RecordedQueries(threads[..|threads| - 1]) + RecordedQuery(last)
  }

  function RecordedQuery(t: Thread): multiset<Query> {
    if t.done >= 1 then multiset{t.query} else multiset{}
  }

  lemma SumAppend(threads: seq<Thread>, t: Thread, f: Thread -> int)
    ensures Sum(threads + [t], f) == Sum(threads, f) + f(t)
  {
    assert (threads + [t])[..|threads|] == threads;
  }

  lemma {:induction false} SumUpdate(threads: seq<Thread>, i: nat, t: Thread, f: Thread -> int)
    requires i < |threads|
    ensures Sum(threads[i := t], f) == Sum(threads, f) - f(threads[i]) + f(t)
  {
    var n := |threads| - 1;
    if i < n {
      assert threads[i := t][..n] == threads[..n][i := t];
      SumUpdate(threads[..n], i, t, f);
    } else {
      assert threads[i := t][..n] == threads[..n];
    }
  }

  lemma {:induction false} RecordedUpdate(threads: seq<Thread>, i: nat, t: Thread)
    requires i < |threads|
    ensures RecordedQueries(threads[i := t]) + RecordedQuery(threads[i]) == RecordedQueries(threads) + RecordedQuery(t)
  {
    hide RecordedQuery;
    var n := |threads| - 1;
    if i < n {
      assert threads[i := t][..n] == threads[..n][i := t] && threads[i := t][n] == threads[n];
      RecordedUpdate(threads[..n], i, t);
      calc {
        RecordedQueries(threads[i := t]) + RecordedQuery(threads[i]);
        RecordedQueries(threads[..n][i := t]) + RecordedQuery(threads[n]) + RecordedQuery(threads[i]);
        RecordedQueries(threads[..n][i := t]) + RecordedQuery(threads[i]) + RecordedQuery(threads[n]);
        RecordedQueries(threads[..n]) + RecordedQuery(t) + RecordedQuery(threads[n]);
        RecordedQueries(threads) + RecordedQuery(t);
      }
    } else {
      assert threads[i := t][..n] == threads[..n];
    }
  }

  /** The bag holds exactly what the traces have contributed, up to 64-bit wrap-around. */
  ghost predicate Inv(s: State) {
    && multiset(GroupsAt(s.fields, QUERIES)) == RecordedQueries(s.threads)
    && |GroupsAt(s.fields, QUERIES)| == Sum(s.threads, Recorded)
    && IntAt(s.fields, QUERY_COUNT) == Wrap(Sum(s.threads, Counted))
    && DurationAt(s.fields, DURATION) == Wrap(Sum(s.threads, Timed))
    && IntAt(s.fields, ROWS) == Wrap(Sum(s.threads, RowsAdded))
    && IntAt(s.fields, ERROR_COUNT) == Wrap(Sum(s.threads, ErrorCounted))
  }

  /** What a trace's next update does to each of the tracer's fields. */
  lemma StepEffect(fields: Fields, q: Query, done: nat)
    requires done < |TraceOps(q)|
    ensures var after := Apply(fields, TraceOps(q)[done]);
            && GroupsAt(after, QUERIES) == GroupsAt(fields, QUERIES) + (if done == 0 then [q] else [])
            && IntAt(after, QUERY_COUNT)
               == (if done == 1 then Wrap(IntAt(fields, QUERY_COUNT) + 1) else IntAt(fields, QUERY_COUNT))
            && DurationAt(after, DURATION)
               == (if done == 2 then Wrap(DurationAt(fields, DURATION) + q.duration) else DurationAt(fields, DURATION))
            && IntAt(after, ROWS)
               == (if done == 3 && q.rowsAffected > 0
                   then Wrap(IntAt(fields, ROWS) + q.rowsAffected) else IntAt(fields, ROWS))
            && IntAt(after, ERROR_COUNT)
               == (if q.failed && done == (if q.rowsAffected > 0 then 4 else 3)
                   then Wrap(IntAt(fields, ERROR_COUNT) + 1) else IntAt(fields, ERROR_COUNT))
  {
    hide Wrap;
    KeysDistinct();
    var op := TraceOps(q)[done];
    assert op.key == if done == 0 then QUERIES else if done == 1 then QUERY_COUNT else if done == 2 then DURATION
                     else if done == 3 && q.rowsAffected > 0 then ROWS else ERROR_COUNT;
  }

  lemma AdvanceKeepsInv(s: State, i: nat)
    requires Inv(s) && Enabled(s, Advance(i))
    ensures Inv(Next(s, Advance(i)))
  {
    hide Wrap, Apply, TraceOps, GroupsAt, IntAt, DurationAt, RecordedQueries, Sum;
    var t := s.threads[i];
    var t' := Thread(t.query, t.done + 1);
    StepEffect(s.fields, t.query, t.done);
    AdvanceGroups(GroupsAt(s.fields, QUERIES), s.threads, i);
    SumUpdate(s.threads, i, t', Recorded);
    SumUpdate(s.threads, i, t', Counted);
    SumUpdate(s.threads, i, t', Timed);
    SumUpdate(s.threads, i, t', RowsAdded);
    SumUpdate(s.threads, i, t', ErrorCounted);
    WrapAdds(Sum(s.threads, Counted), 1);
    WrapAdds(Sum(s.threads, Timed), t.query.duration);
    WrapAdds(Sum(s.threads, RowsAdded), t.query.rowsAffected);
    WrapAdds(Sum(s.threads, ErrorCounted), 1);
  }

  lemma AdvanceGroups(groups: seq<Query>, threads: seq<Thread>, i: nat)
    requires i < |threads| && multiset(groups) == RecordedQueries(threads)
    ensures var t := threads[i];
            multiset(groups + if t.done == 0 then [t.query] else [])
            == RecordedQueries(threads[i := Thread(t.query, t.done + 1)])
  {
    hide RecordedQueries;
    var t := threads[i];
    var t' := Thread(t.query, t.done + 1);
    RecordedUpdate(threads, i, t');
    assert multiset(groups + [t.query]) == multiset(groups) + multiset{t.query};
    assert groups + [] == groups;
    assert RecordedQueries(threads[i := t']) == RecordedQueries(threads) + RecordedQuery(t') - RecordedQuery(t);
  }

  lemma ApplyElsewhere(fields: Fields, op: Op, key: string)
    requires key != op.key
    ensures GroupsAt(Apply(fields, op), key) == GroupsAt(fields, key)
    ensures IntAt(Apply(fields, op), key) == IntAt(fields, key)
    ensures DurationAt(Apply(fields, op), key) == DurationAt(fields, key)
  {
    hide Wrap;
  }

  lemma ForeignKeepsInv(s: State, op: Op)
    requires Inv(s) && Enabled(s, Foreign(op))
    ensures Inv(Next(s, Foreign(op)))
  {
    hide Wrap, Apply, GroupsAt, IntAt, DurationAt, RecordedQueries, Sum;
    ApplyElsewhere(s.fields, op, QUERIES);
    ApplyElsewhere(s.fields, op, QUERY_COUNT);
    ApplyElsewhere(s.fields, op, DURATION);
    ApplyElsewhere(s.fields, op, ROWS);
    ApplyElsewhere(s.fields, op, ERROR_COUNT);
  }

  lemma BeginKeepsInv(s: State, q: Query)
    requires Inv(s)
    ensures Inv(Next(s, Begin(q)))
  {
    var t := Thread(q, 0);
    SumAppend(s.threads, t, Recorded);
    SumAppend(s.threads, t, Counted);
    SumAppend(s.threads, t, Timed);
    SumAppend(s.threads, t, RowsAdded);
    SumAppend(s.threads, t, ErrorCounted);
    assert (s.threads + [t])[..|s.threads|] == s.threads;
  }

  lemma {:induction false} ExecutionKeepsInv(states: seq<State>, events: seq<Event>)
    requires IsExecution(states, events)
    ensures Inv(states[|events|])
  {
    hide Next, Apply;
    if events == [] {
    } else {
      hide Inv;
      var n := |events| - 1;
      ExecutionKeepsInv(states[..n + 1], events[..n]);
      match events[n]
      case Begin(q) => BeginKeepsInv(states[n], q);
      case Advance(i) => AdvanceKeepsInv(states[n], i);
      case Foreign(op) => ForeignKeepsInv(states[n], op);
    }
  }

  // What a reader of the bag may rely on.

  /** How many traces have recorded their query but not yet counted it. */
  function Between(t: Thread): int { if t.done == 1 then 1 else 0 }

  lemma {:induction false} SumsCompare(threads: seq<Thread>)
    ensures Sum(threads, Recorded) == Sum(threads, Counted) + Sum(threads, Between)
    ensures 0 <= Sum(threads, ErrorCounted) <= Sum(threads, Counted) <= |threads|
  {
    if threads == [] {
    } else {
      SumsCompare(threads[..|threads| - 1]);
    }
  }

  /** In every reachable state, as long as fewer than 2^63 queries have ended, the groups
      outnumber the count by exactly the traces between those two updates, and no more errors
      than queries are counted. */
  lemma CountsAgree(states: seq<State>, events: seq<Event>)
    requires IsExecution(states, events)
    requires |states[|events|].threads| <= MAX_INT64
    ensures var s := states[|events|];
            && |GroupsAt(s.fields, QUERIES)| == IntAt(s.fields, QUERY_COUNT) + Sum(s.threads, Between)
            && 0 <= IntAt(s.fields, ERROR_COUNT) <= IntAt(s.fields, QUERY_COUNT)
  {
    var s := states[|events|];
    ExecutionKeepsInv(states, events);
    SumsCompare(s.threads);
    WrapFits(Sum(s.threads, Counted));
    WrapFits(Sum(s.threads, ErrorCounted));
  }

  // What the traced queries add up to on their own.

  function QueriesOf(threads: seq<Thread>): seq<Query> {
    seq(|threads|, i requires 0 <= i < |threads| => threads[i].query)
  }

  function Total(queries: seq<Query>, f: Query -> int): int {
    if queries == [] then 0 else Total(queries[..|queries| - 1], f) + f(queries[|queries| - 1])
  }

  function DurationOf(q: Query): int { q.duration }
  function RowsOf(q: Query): int { if q.rowsAffected > 0 then q.rowsAffected else 0 }
  function ErrorOf(q: Query): int { if q.failed then 1 else 0 }

  lemma FinishedContributes(t: Thread)
    requires Finished(t)
    ensures RecordedQuery(t) == multiset{t.query} && Counted(t) == 1 && Timed(t) == DurationOf(t.query)
    ensures RowsAdded(t) == RowsOf(t.query) && ErrorCounted(t) == ErrorOf(t.query)
  {
  }

  lemma {:induction false} QuiescentSums(threads: seq<Thread>)
    requires forall t :: t in threads ==> Finished(t)
    ensures RecordedQueries(threads) == multiset(QueriesOf(threads))
    ensures Sum(threads, Counted) == |threads|
    ensures Sum(threads, Timed) == Total(QueriesOf(threads), DurationOf)
    ensures Sum(threads, RowsAdded) == Total(QueriesOf(threads), RowsOf)
    ensures Sum(threads, ErrorCounted) == Total(QueriesOf(threads), ErrorOf)
  {
    hide Finished, RecordedQuery, Counted, Timed, RowsAdded, ErrorCounted, DurationOf, RowsOf, ErrorOf;
    if threads == [] {
    } else {
      var n := |threads| - 1;
      assert threads[n] in threads;
      FinishedContributes(threads[n]);
      QuiescentSums(threads[..n]);
      assert QueriesOf(threads)[..n] == QueriesOf(threads[..n]);
      assert QueriesOf(threads) == QueriesOf(threads[..n]) + [threads[n].query];
    }
  }

  /** Once every trace has finished, in whatever order their steps came, the bag holds each query
      once and the totals of all of them, in 64 bits. */
  lemma QuiescentTotals(states: seq<State>, events: seq<Event>)
    requires IsExecution(states, events)
    requires forall t :: t in states[|events|].threads ==> Finished(t)
    ensures var s := states[|events|];
            var queries := QueriesOf(s.threads);
            && multiset(GroupsAt(s.fields, QUERIES)) == multiset(queries)
            && IntAt(s.fields, QUERY_COUNT) == Wrap(|queries|)
            && DurationAt(s.fields, DURATION) == Wrap(Total(queries, DurationOf))
            && IntAt(s.fields, ROWS) == Wrap(Total(queries, RowsOf))
            && IntAt(s.fields, ERROR_COUNT) == Wrap(Total(queries, ErrorOf))
  {
    ExecutionKeepsInv(states, events);
    QuiescentSums(states[|events|].threads);
  }
}
