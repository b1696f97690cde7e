/** The canonical log bag: a map of fields behind a mutex, and the query tracer that updates it in
    several separately locked steps. */
module Bag {
  import opened Decimal

  /** What a finished query reports. */
  datatype Query = Query(sql: string, duration: int64, rowsAffected: int64, failed: bool)

  datatype Field =
    | Int(n: int64)
    | Duration(d: int64)
    | Values(values: seq<string>)
    | Groups(groups: seq<Query>)
    | Text(text: string)

  type Fields = map<string, Field>

  /** Addition of 64-bit integers wraps around. */
  function Wrap(n: int): int64 {
    (n + 0x8000_0000_0000_0000) % 0x1_0000_0000_0000_0000 - 0x8000_0000_0000_0000
  }

  lemma WrapAdds(a: int, b: int)
    ensures Wrap(Wrap(a) + b) == Wrap(a + b)
  {
  }

  lemma WrapFits(n: int)
    requires MIN_INT64 <= n <= MAX_INT64
    ensures Wrap(n) == n
  {
  }

  /** The one 64-bit integer that differs from `n` by a multiple of 2^64. */
  lemma WrapIff(n: int, m: int64)
    ensures Wrap(n) == m <==> (m - n) % 0x1_0000_0000_0000_0000 == 0
  {
  }

  // Reading a field as one type or another: a missing field or one of another type reads as zero.

  function IntAt(fields: Fields, key: string): int64 {
    if key in fields && fields[key].Int? then fields[key].n else 0
  }

  function DurationAt(fields: Fields, key: string): int64 {
    if key in fields && fields[key].Duration? then fields[key].d else 0
  }

  function ValuesAt(fields: Fields, key: string): seq<string> {
    if key in fields && fields[key].Values? then fields[key].values else []
  }

  function GroupsAt(fields: Fields, key: string): seq<Query> {
    if key in fields && fields[key].Groups? then fields[key].groups else []
  }

  /** One locked update of the bag. */
  datatype Op =
    | SetOp(key: string, value: Field)
    | AddOp(key: string, delta: int64)
    | AddDurationOp(key: string, d: int64)
    | AppendOp(key: string, line: string)
    | AppendGroupOp(key: string, query: Query)

  function Apply(fields: Fields, op: Op): Fields {
    match op
    case SetOp(key, value) => fields[key := value]
    case AddOp(key, delta) => fields[key := Int(Wrap(IntAt(fields, key) + delta))]
    case AddDurationOp(key, d) => fields[key := Duration(Wrap(DurationAt(fields, key) + d))]
    case AppendOp(key, value) => fields[key := Values(ValuesAt(fields, key) + [value])]
    case AppendGroupOp(key, query) => fields[key := Groups(GroupsAt(fields, key) + [query])]
  }

  /** An update leaves its field set, added to modulo 2^64 or appended to, where a field that was
      missing or of another type starts from zero, and leaves every other field alone. */
  lemma ApplyEffect(fields: Fields, op: Op)
    ensures var key, after := op.key, Apply(fields, op);
            && after.Keys == fields.Keys + {key}
            && (forall other :: other in fields && other != key ==> after[other] == fields[other])
            && match op
               case SetOp(_, value) => after[key] == value
               case AddOp(_, delta) =>
                 && after[key].Int?
                 && var n := if key in fields && fields[key].Int? then fields[key].n else 0;
                    (after[key].n - (n + delta)) % 0x1_0000_0000_0000_0000 == 0
               case AddDurationOp(_, delta) =>
                 && after[key].Duration?
                 && var d := if key in fields && fields[key].Duration? then fields[key].d else 0;
                    (after[key].d - (d + delta)) % 0x1_0000_0000_0000_0000 == 0
               case AppendOp(_, line) =>
                 after[key]
                 == if key in fields && fields[key].Values? then Values(fields[key].values + [line])
                    else Values([line])
               case AppendGroupOp(_, query) =>
                 after[key]
                 == if key in fields && fields[key].Groups? then Groups(fields[key].groups + [query])
                    else Groups([query])
  {
    hide Wrap;
    match op
    case AddOp(key, delta) =>
      var sum := IntAt(fields, key) + delta;
      WrapIff(sum, Wrap(sum));
    case AddDurationOp(key, delta) =>
      var sum := DurationAt(fields, key) + delta;
      WrapIff(sum, Wrap(sum));
    case _ =>
  }

  function ApplyAll(fields: Fields, ops: seq<Op>): Fields {
    if ops == [] then fields else Apply(ApplyAll(fields, ops[..|ops| - 1]), ops[|ops| - 1])
  }

  class LogBag {
    var fields: Fields

    constructor ()
      ensures fields == map[]
    {
      fields := map[];
    }

    method Set(key: string, value: Field)
      modifies this
      ensures fields == Apply(old(fields), SetOp(key, value))
    {
      fields := fields[key := value];
    }

    method Add(key: string, delta: int64)
      modifies this
      ensures fields == Apply(old(fields), AddOp(key, delta))
    {
      var current: int64 := 0;
      if key in fields && fields[key].Int? {
        current := fields[key].n;
      }
      fields := fields[key := Int(Wrap(current + delta))];
    }

    method AddDuration(key: string, d: int64)
      modifies this
      ensures fields == Apply(old(fields), AddDurationOp(key, d))
    {
      var current: int64 := 0;
      if key in fields && fields[key].Duration? {
        current := fields[key].d;
      }
      fields := fields[key := Duration(Wrap(current + d))];
    }

    method Append(key: string, value: string)
      modifies this
      ensures fields == Apply(old(fields), AppendOp(key, value))
    {
      var values: seq<string> := [];
      if key in fields && fields[key].Values? {
        values := fields[key].values;
      }
      fields := fields[key := Values(values + [value])];
    }

    method AppendGroup(key: string, query: Query)
      modifies this
      ensures fields == Apply(old(fields), AppendGroupOp(key, query))
    {
      var records: seq<Query> := [];
      if key in fields && fields[key].Groups? {
        records := fields[key].groups;
      }
      fields := fields[key := Groups(records + [query])];
    }
  }

  const QUERIES := "db.queries"
  const QUERY_COUNT := "db.query_count"
  const DURATION := "db.duration"
  const ROWS := "db.rows_affected"
  const ERROR_COUNT := "db.error_count"

  lemma KeysDistinct()
    ensures QUERIES != QUERY_COUNT && QUERIES != DURATION && QUERIES != ROWS && QUERIES != ERROR_COUNT
    ensures QUERY_COUNT != DURATION && QUERY_COUNT != ROWS && QUERY_COUNT != ERROR_COUNT
    ensures DURATION != ROWS && DURATION != ERROR_COUNT && ROWS != ERROR_COUNT
  {
    assert QUERY_COUNT[3] != ERROR_COUNT[3];
  }

  predicate IsTraceKey(key: string) {
    key == QUERIES || key == QUERY_COUNT || key == DURATION || key == ROWS || key == ERROR_COUNT
  }

  /** The updates that ending one query makes, in order. */
  function TraceOps(q: Query): seq<Op> {
    [AppendGroupOp(QUERIES, q), AddOp(QUERY_COUNT, 1), AddDurationOp(DURATION, q.duration)]
    + (if q.rowsAffected > 0 then [AddOp(ROWS, q.rowsAffected)] else [])
    + if q.failed then [AddOp(ERROR_COUNT, 1)] else []
  }

  lemma ApplyAllAppend(fields: Fields, ops: seq<Op>, op: Op)
    ensures ApplyAll(fields, ops + [op]) == Apply(ApplyAll(fields, ops), op)
  {
    assert (ops + [op])[..|ops|] == ops;
  }

  /** TraceQueryEnd; without a bag in the context it does nothing. */
  method TraceQueryEnd(bag: LogBag?, q: Query)
    modifies bag
    ensures bag != null ==> bag.fields == ApplyAll(old(bag.fields), TraceOps(q))
  {
    if bag == null {
      return;
    }
    hide Apply, ApplyAll;
    ghost var start, ops := bag.fields, [];
    assert bag.fields == ApplyAll(start, ops);
    bag.AppendGroup(QUERIES, q);
    ApplyAllAppend(start, ops, AppendGroupOp(QUERIES, q));
    ops := ops + [AppendGroupOp(QUERIES, q)];
    bag.Add(QUERY_COUNT, 1);
    ApplyAllAppend(start, ops, AddOp(QUERY_COUNT, 1));
    ops := ops + [AddOp(QUERY_COUNT, 1)];
    bag.AddDuration(DURATION, q.duration);
    ApplyAllAppend(start, ops, AddDurationOp(DURATION, q.duration));
    ops := ops + [AddDurationOp(DURATION, q.duration)];
    if q.rowsAffected > 0 {
      bag.Add(ROWS, q.rowsAffected);
      ApplyAllAppend(start, ops, AddOp(ROWS, q.rowsAffected));
      ops := ops + [AddOp(ROWS, q.rowsAffected)];
    }
    if !q.failed {
      assert ops == TraceOps(q);
      return;
    }
    bag.Add(ERROR_COUNT, 1);
    ApplyAllAppend(start, ops, AddOp(ERROR_COUNT, 1));
    assert ops + [AddOp(ERROR_COUNT, 1)] == TraceOps(q);
  }
}
