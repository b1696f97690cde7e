/** Completing an order: reserve stock, record the payment and mark the order paid, inside a
    unit of work. */
module Orders {
  import opened Wire
  import opened Retry
  import opened Transactions

  datatype Status = PendingPayment | Paid | OtherStatus(name: string)

  datatype Payment = Payment(orderID: string, providerPaymentID: string, amount: int)

  datatype OrderDB = OrderDB(orders: map<string, Status>, reservations: seq<string>, payments: seq<Payment>)

  datatype Command = Command(orderID: string, paymentID: string, amount: int)

  /** A repository call that fails may leave the transaction's copy in any state. */
  datatype Fault = Fault(err: Error, after: OrderDB)

  /** Which of the repository calls of one attempt fail. */
  datatype Faults = Faults(get: Option<Fault>, reserve: Option<Fault>, create: Option<Fault>, mark: Option<Fault>)

  function Failed(fault: Fault): Ran<OrderDB> {
    Ran(fault.after, Some(Wrapped(fault.err)))
  }

  /** What Complete does to a database when it gets through. */
  function Completed(db: OrderDB, cmd: Command): OrderDB {
    OrderDB(db.orders[cmd.orderID := Paid],
            db.reservations + [cmd.orderID],
            db.payments + [Payment(cmd.orderID, cmd.paymentID, cmd.amount)])
  }

  /** completeOrderUseCase.Complete on the state that its repositories share. */
  function Complete(db: OrderDB, cmd: Command, faults: Faults): Ran<OrderDB> {
    if faults.get.Some? then Failed(faults.get.value)
    else if cmd.orderID !in db.orders then Ran(db, Some(Wrapped(NoRows)))
    else if db.orders[cmd.orderID] == Paid then Ran(db, None)
    else if db.orders[cmd.orderID] != PendingPayment then Ran(db, Some(InvalidOrderState))
    else if faults.reserve.Some? then Failed(faults.reserve.value)
    else if faults.create.Some? then Failed(faults.create.value)
    else if faults.mark.Some? then Failed(faults.mark.value)
    else Ran(Completed(db, cmd), None)
  }

  /** The repositories of one transaction, over its copy of the database. */
  class OrderTx {
    var db: OrderDB

    constructor (db: OrderDB)
      ensures this.db == db
    {
      this.db := db;
    }

    method GetByID(orderID: string, fault: Option<Fault>) returns (status: Option<Status>, err: Option<Error>)
      modifies this
      ensures fault.Some? ==> db == fault.value.after && err == Some(fault.value.err)
      ensures fault.None? ==> db == old(db)
      ensures fault.None? && orderID !in db.orders ==> err == Some(NoRows)
      ensures fault.None? && orderID in db.orders ==> err == None && status == Some(db.orders[orderID])
    {
      if fault.Some? {
        db := fault.value.after;
        return None, Some(fault.value.err);
      }
      if orderID !in db.orders {
        return None, Some(NoRows);
      }
      return Some(db.orders[orderID]), None;
    }

    method ReserveForOrder(orderID: string, fault: Option<Fault>) returns (err: Option<Error>)
      modifies this
      ensures fault.Some? ==> db == fault.value.after && err == Some(fault.value.err)
      ensures fault.None? ==> db == old(db).(reservations := old(db).reservations + [orderID]) && err == None
    {
      if fault.Some? {
        db := fault.value.after;
        return Some(fault.value.err);
      }
      db := db.(reservations := db.reservations + [orderID]);
      return None;
    }

    method CreatePayment(payment: Payment, fault: Option<Fault>) returns (err: Option<Error>)
      modifies this
      ensures fault.Some? ==> db == fault.value.after && err == Some(fault.value.err)
      ensures fault.None? ==> db == old(db).(payments := old(db).payments + [payment]) && err == None
    {
      if fault.Some? {
        db := fault.value.after;
        return Some(fault.value.err);
      }
      db := db.(payments := db.payments + [payment]);
      return None;
    }

    method MarkPaid(orderID: string, fault: Option<Fault>) returns (err: Option<Error>)
      modifies this
      ensures fault.Some? ==> db == fault.value.after && err == Some(fault.value.err)
      ensures fault.None? ==>
                err == None
                && db == if orderID in old(db).orders then old(db).(orders := old(db).orders[orderID := Paid])
                         else old(db)
    {
      if fault.Some? {
        db := fault.value.after;
        return Some(fault.value.err);
      }
      if orderID in db.orders {
        db := db.(orders := db.orders[orderID := Paid]);
      }
      return None;
    }

    method CompleteOrder(cmd: Command, faults: Faults) returns (err: Option<Error>)
      modifies this
      ensures Ran(db, err) == Complete(old(db), cmd, faults)
    {
      var status;
      status, err := GetByID(cmd.orderID, faults.get);
      if err.Some? {
        return Some(Wrapped(err.value));
      }
      if status.value == Paid {
        return None;
      }
      if status.value != PendingPayment {
        return Some(InvalidOrderState);
      }
      err := ReserveForOrder(cmd.orderID, faults.reserve);
      if err.Some? {
        return Some(Wrapped(err.value));
      }
      err := CreatePayment(Payment(cmd.orderID, cmd.paymentID, cmd.amount), faults.create);
      if err.Some? {
        return Some(Wrapped(err.value));
      }
      err := MarkPaid(cmd.orderID, faults.mark);
      if err.Some? {
        return Some(Wrapped(err.value));
      }
      return None;
    }
  }

  /** The unit of work binds the use case to its transaction, so every repository call acts on
      that transaction's copy. */
  function CompleteBody(cmd: Command, faults: nat -> Faults): Body<OrderDB, ()> {
    (attempt: nat, id: nat, c: Conns<OrderDB>, captured: ()) =>
      if id !in c.open then BodyRun(c, (), Some(Wrapped(TxClosed)))
      else
        var r := Complete(c.open[id], cmd, faults(attempt));
        BodyRun(c.(open := c.open[id := r.world]), (), WrapErr(r.err))
  }

  /** One call of the transactional use case. */
  datatype Call = Call(cmd: Command, maxAttempts: int, plans: nat -> Plan<OrderDB>, faults: nat -> Faults)

  function TransactionalComplete(c: Conns<OrderDB>, call: Call): RetryRun<World<OrderDB, ()>> {
    var run := Do(UnitOfWork, call.maxAttempts, call.plans, World(c, ()), CompleteBody(call.cmd, call.faults));
    run.(err := WrapErr(run.err))
  }

  method CompleteInTx(pool: Pool<OrderDB>, call: Call) returns (err: Option<Error>, attempts: nat)
    modifies pool
    ensures RetryRun(World(pool.conns, ()), err, attempts) == TransactionalComplete(old(pool.conns), call)
  {
    var unused;
    var body := CompleteBody(call.cmd, call.faults);
    unused, err, attempts := pool.Transact(UnitOfWork, call.maxAttempts, call.plans, (), body);
    err := WrapErr(err);
    assert unused == ();
  }

  lemma CompleteBodyConfined(cmd: Command, faults: nat -> Faults)
    ensures Confined(CompleteBody(cmd, faults))
  {
    forall attempt: nat, id: nat, c: Conns<OrderDB>, captured: () | id in c.open
      ensures OnlyTx(id, c, CompleteBody(cmd, faults)(attempt, id, c, captured).conns)
    {
      hide Complete;
      assert CompleteBody(cmd, faults)(attempt, id, c, captured).conns.open - {id} == c.open - {id};
    }
  }

  /** The first thing that goes wrong while completing an order found in `db`, if anything does. */
  function CompleteFailure(db: OrderDB, cmd: Command, faults: Faults): Option<Error> {
    if faults.get.Some? then Some(faults.get.value.err)
    else if cmd.orderID !in db.orders then Some(NoRows)
    else
      match db.orders[cmd.orderID]
      case Paid => None
      case OtherStatus(_) => Some(InvalidOrderState)
      case PendingPayment =>
        if faults.reserve.Some? then Some(faults.reserve.value.err)
        else if faults.create.Some? then Some(faults.create.value.err)
        else if faults.mark.Some? then Some(faults.mark.value.err)
        else None
  }

  lemma CompleteFails(db: OrderDB, cmd: Command, faults: Faults)
    ensures var done := Complete(db, cmd, faults);
            && SameFailure(done.err, CompleteFailure(db, cmd, faults))
            && (done.err.None? ==>
                  && cmd.orderID in db.orders
                  && done.world == if db.orders[cmd.orderID] == Paid then db else Completed(db, cmd))
  {
  }

  lemma CompleteInside(c: Conns<OrderDB>, id: nat, attempt: nat, cmd: Command, faults: nat -> Faults, captured: ())
    requires id in c.open
    ensures var r := CompleteBody(cmd, faults)(attempt, id, c, captured);
            && SameFailure(r.err, CompleteFailure(c.open[id], cmd, faults(attempt)))
            && id in r.conns.open
            && (r.err.None? ==>
                  var db := c.open[id];
                  && cmd.orderID in db.orders
                  && r.conns.open[id] == if db.orders[cmd.orderID] == Paid then db else Completed(db, cmd))
  {
    hide Complete, CompleteFailure, Root;
    var done := Complete(c.open[id], cmd, faults(attempt));
    CompleteFails(c.open[id], cmd, faults(attempt));
    WrapKeepsCause(done.err);
  }

  /** The database the last attempt of a call worked on: what other clients alone made of it. */
  function Seen(c: Conns<OrderDB>, call: Call): OrderDB {
    EnvAfter(call.plans, TransactionalComplete(c, call).attempts, c.committed)
  }

  /** Nothing fails that an attempt on `db` gets to: beginning, committing and reading the order
      succeed, and the order is paid already, or is pending and can be completed. */
  predicate GetsThrough(db: OrderDB, order: string, plan: Plan<OrderDB>, faults: Faults) {
    && plan.begin.None? && plan.commit.None? && faults.get.None?
    && order in db.orders
    && (|| db.orders[order] == Paid
        || (db.orders[order] == PendingPayment && faults.reserve.None? && faults.create.None? && faults.mark.None?))
  }

  /** The first thing that goes wrong in attempt `k` of a call, if it comes to that attempt. */
  function FailureOf(c: Conns<OrderDB>, call: Call, k: nat): Option<Error> {
    FirstFailure(call.plans(k), CompleteFailure(EnvAfter(call.plans, k, c.committed), call.cmd, call.faults(k)))
  }

  lemma AttemptInside(c: Conns<OrderDB>, call: Call, k: nat)
    requires var body, w0 := CompleteBody(call.cmd, call.faults), World(c, ());
             OpenAt(UnitOfWork, call.plans, w0, body, k).open
             == c.open[WorldAt(UnitOfWork, call.plans, w0, body, k).conns.next := EnvAfter(call.plans, k, c.committed)]
    ensures var body, w0 := CompleteBody(call.cmd, call.faults), World(c, ());
            var id := WorldAt(UnitOfWork, call.plans, w0, body, k).conns.next;
            var seen, r := EnvAfter(call.plans, k, c.committed), BodyAt(UnitOfWork, call.plans, w0, body, k);
            && SameFailure(FailureAt(UnitOfWork, call.plans, w0, body, k), FailureOf(c, call, k))
            && (r.err.None? ==>
                  && CompleteFailure(seen, call.cmd, call.faults(k)).None?
                  && id in r.conns.open
                  && r.conns.open[id]
                     == if seen.orders[call.cmd.orderID] == Paid then seen else Completed(seen, call.cmd))
  {
    hide Complete, CompleteBody, WorldAt, EnvAfter;
    var body, w0 := CompleteBody(call.cmd, call.faults), World(c, ());
    var w := WorldAt(UnitOfWork, call.plans, w0, body, k);
    CompleteInside(OpenAt(UnitOfWork, call.plans, w0, body, k), w.conns.next, k, call.cmd, call.faults, w.captured);
  }

  /** A call goes on to the first attempt whose failure is not to be retried. It answers nil exactly
      when that attempt gets through, and otherwise an error with the cause of its failure. It adds
      exactly one completion if it answers nil and found the order pending, and nothing if it found
      it paid or answers an error. */
  lemma CompleteOutcome(c: Conns<OrderDB>, call: Call)
    requires ValidConns(c)
    ensures var run, db, order := TransactionalComplete(c, call), Seen(c, call), call.cmd.orderID;
            var n := run.attempts;
            && EndsAfter(n, call.maxAttempts, (k: nat) => FailureOf(c, call, k))
            && SameFailure(run.err, FailureOf(c, call, n))
            && ValidConns(run.world.conns) && run.world.conns.open == c.open
            && (run.err.None? <==> GetsThrough(db, order, call.plans(n), call.faults(n)))
            && run.world.conns.committed
               == if run.err.None? && db.orders[order] == PendingPayment then Completed(db, call.cmd) else db
  {
    hide Do, EnvAfter;
    var body, w0 := CompleteBody(call.cmd, call.faults), World(c, ());
    CompleteBodyConfined(call.cmd, call.faults);
    DoAtomic(UnitOfWork, call.maxAttempts, call.plans, w0, body);
    DoEnds(UnitOfWork, call.maxAttempts, call.plans, w0, body);
    var n := TransactionalComplete(c, call).attempts;
    forall k | 1 <= k <= n
      ensures SameFailure(FailureAt(UnitOfWork, call.plans, w0, body, k), FailureOf(c, call, k))
    {
      AttemptInside(c, call, k);
    }
    SameEnds(n, call.maxAttempts, (k: nat) => FailureAt(UnitOfWork, call.plans, w0, body, k),
             (k: nat) => FailureOf(c, call, k));
    AttemptInside(c, call, n);
  }

  // What a run of calls does to each order.

  function PaymentsOf(payments: seq<Payment>, order: string): seq<Payment> {
    if payments == [] then []
    else
      var last := payments[|payments| - 1];
      PaymentsOf(payments[..|payments| - 1], order) + if last.orderID == order then [last] else []
  }

  function ReservationsOf(reservations: seq<string>, order: string): nat {
    if reservations == [] then 0
    else
      ReservationsOf(reservations[..|reservations| - 1], order)
      + if reservations[|reservations| - 1] == order then 1 else 0
  }

  /** All that the database says about one order. */
  datatype Row = Row(status: Option<Status>, payments: seq<Payment>, reservations: nat)

  function RowOf(db: OrderDB, order: string): Row {
    Row(if order in db.orders then Some(db.orders[order]) else None,
        PaymentsOf(db.payments, order), ReservationsOf(db.reservations, order))
  }

  /** One payment and one reservation were added, and the order is paid. */
  predicate PaidOnce(a: Row, b: Row) {
    && b.status == Some(Paid)
    && |b.payments| == |a.payments| + 1 && a.payments <= b.payments
    && b.reservations == a.reservations + 1
  }

  /** An order stays as it is, or is created, or goes from pending to paid once. */
  predicate RowEvolves(a: Row, b: Row) {
    || b == a
    || (a.status.None? && b.status.Some? && b.payments == a.payments && b.reservations == a.reservations)
    || ((a.status.None? || a.status == Some(PendingPayment)) && PaidOnce(a, b))
  }

  ghost predicate Evolves(a: OrderDB, b: OrderDB) {
    forall order :: RowEvolves(RowOf(a, order), RowOf(b, order))
  }

  /** The other clients move orders only in this way too. */
  ghost predicate Orderly(plans: nat -> Plan<OrderDB>) {
    forall i: nat, d: OrderDB :: Evolves(d, plans(i).env(d))
  }

  lemma EvolvesTransitive(a: OrderDB, b: OrderDB, c: OrderDB)
    requires Evolves(a, b) && Evolves(b, c)
    ensures Evolves(a, c)
  {
    forall order ensures RowEvolves(RowOf(a, order), RowOf(c, order)) {
      assert RowEvolves(RowOf(a, order), RowOf(b, order)) && RowEvolves(RowOf(b, order), RowOf(c, order));
    }
  }

  lemma {:induction false} EnvEvolves(plans: nat -> Plan<OrderDB>, n: nat, d: OrderDB)
    requires Orderly(plans)
    ensures Evolves(d, EnvAfter(plans, n, d))
  {
    if n == 0 {
    } else {
      EnvEvolves(plans, n - 1, d);
      EvolvesTransitive(d, EnvAfter(plans, n - 1, d), EnvAfter(plans, n, d));
    }
  }

  lemma PaymentsOfAppend(payments: seq<Payment>, p: Payment, order: string)
    ensures PaymentsOf(payments + [p], order) == PaymentsOf(payments, order) + if p.orderID == order then [p] else []
  {
    assert (payments + [p])[..|payments|] == payments;
  }

  lemma ReservationsOfAppend(reservations: seq<string>, r: string, order: string)
    ensures ReservationsOf(reservations + [r], order)
         == ReservationsOf(reservations, order) + if r == order then 1 else 0
  {
    assert (reservations + [r])[..|reservations|] == reservations;
  }

  /** A completion adds its payment and its reservation to its own order's row only. */
  lemma CompletedRows(db: OrderDB, cmd: Command, order: string)
    ensures var before, after := RowOf(db, order), RowOf(Completed(db, cmd), order);
            if order == cmd.orderID
            then after == Row(Some(Paid),
                              before.payments + [Payment(order, cmd.paymentID, cmd.amount)],
                              before.reservations + 1)
            else after == before
  {
    hide PaymentsOf, ReservationsOf;
    PaymentsOfAppend(db.payments, Payment(cmd.orderID, cmd.paymentID, cmd.amount), order);
    ReservationsOfAppend(db.reservations, cmd.orderID, order);
  }

  /** One call moves its own order from pending to paid at most once and leaves every other order
      to the other clients. */
  lemma CallEvolves(c: Conns<OrderDB>, call: Call)
    requires ValidConns(c) && Orderly(call.plans)
    ensures Evolves(c.committed, TransactionalComplete(c, call).world.conns.committed)
    ensures forall order :: order != call.cmd.orderID ==>
              RowOf(TransactionalComplete(c, call).world.conns.committed, order) == RowOf(Seen(c, call), order)
  {
    hide TransactionalComplete;
    var db, after := Seen(c, call), TransactionalComplete(c, call).world.conns.committed;
    CompleteOutcome(c, call);
    EnvEvolves(call.plans, TransactionalComplete(c, call).attempts, c.committed);
    if after != db {
      forall order ensures RowEvolves(RowOf(db, order), RowOf(after, order)) {
        CompletedRows(db, call.cmd, order);
      }
      forall order | order != call.cmd.orderID ensures RowOf(after, order) == RowOf(db, order) {
        CompletedRows(db, call.cmd, order);
      }
    }
    EvolvesTransitive(c.committed, db, after);
  }

  /** Calls made one after another. */
  function RunCalls(c: Conns<OrderDB>, calls: seq<Call>): Conns<OrderDB> {
    if calls == [] then c
    else TransactionalComplete(RunCalls(c, calls[..|calls| - 1]), calls[|calls| - 1]).world.conns
  }

  lemma {:induction false} RunEvolves(c: Conns<OrderDB>, calls: seq<Call>)
    requires ValidConns(c)
    requires forall i :: 0 <= i < |calls| ==> Orderly(calls[i].plans)
    ensures ValidConns(RunCalls(c, calls)) && Evolves(c.committed, RunCalls(c, calls).committed)
  {
    hide TransactionalComplete;
    if calls == [] {
    } else {
      var before := RunCalls(c, calls[..|calls| - 1]);
      RunEvolves(c, calls[..|calls| - 1]);
      CompleteOutcome(before, calls[|calls| - 1]);
      CallEvolves(before, calls[|calls| - 1]);
      EvolvesTransitive(c.committed, before.committed, RunCalls(c, calls).committed);
    }
  }

  /** An order not yet paid has neither payment nor reservation, and none has more than one. */
  ghost predicate Consistent(db: OrderDB) {
    forall order ::
      var row := RowOf(db, order);
      && |row.payments| <= 1 && row.reservations <= 1
      && (row.status.None? || row.status == Some(PendingPayment) ==> row.payments == [] && row.reservations == 0)
  }

  /** Exactly once: over any run of transactional calls, with failures at any repository call, at
      begin and at commit, and with any retries, no order gets two payments or two reservations;
      an order that became paid got exactly one of each; a paid order stays as it is. */
  lemma ExactlyOnce(c: Conns<OrderDB>, calls: seq<Call>, order: string)
    requires ValidConns(c) && Consistent(c.committed)
    requires forall i :: 0 <= i < |calls| ==> Orderly(calls[i].plans)
    ensures Consistent(RunCalls(c, calls).committed)
    ensures var before, after := RowOf(c.committed, order), RowOf(RunCalls(c, calls).committed, order);
            && (before.status == Some(PendingPayment) ==>
                  after.status == Some(PendingPayment) || after.status == Some(Paid))
            && (before.status == Some(PendingPayment) && after.status == Some(Paid) ==>
                  |after.payments| == 1 && after.reservations == 1)
            && (before.status.Some? && before.status != Some(PendingPayment) ==> after == before)
  {
    hide RunCalls;
    var final := RunCalls(c, calls).committed;
    RunEvolves(c, calls);
    assert forall o :: RowEvolves(RowOf(c.committed, o), RowOf(final, o));
  }
}
