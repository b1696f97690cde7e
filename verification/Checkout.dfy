/** Checking out a cart: quote, authorize the payment, then complete the order in one transaction.
    The first two steps call other services and are outside the transaction. */
module Checkout {
  import opened Wire
  import opened Retry
  import opened Transactions
  import opened Orders

  /** An authorization the payment gateway has issued. */
  datatype Authorization = Authorization(id: string, orderID: string, amount: int)

  /** What the other services answer, or how they fail. */
  datatype Answer<T> = Answer(value: T) | Failure(err: Error)

  /** One checkout and everything it meets: its answers from the pricing service and the gateway,
      and its transaction's plans and faults. */
  datatype Attempted = Attempted(cartID: string, orderID: string, quote: Answer<int>, authorizationID: Answer<string>,
                                 maxAttempts: int, plans: nat -> Plan<OrderDB>, faults: nat -> Faults)

  /** The shop's database and every authorization ever issued. */
  datatype Shop = Shop(conns: Conns<OrderDB>, issued: set<Authorization>)

  datatype CheckoutResult = CheckoutResult(shop: Shop, err: Option<Error>)

  /** The checkout gets past both services, so the gateway has issued an authorization. */
  predicate Authorized(a: Attempted) {
    a.quote.Answer? && a.authorizationID.Answer?
  }

  function IssuedBy(a: Attempted): Authorization
    requires Authorized(a)
  {
    Authorization(a.authorizationID.value, a.orderID, a.quote.value)
  }

  function CallOf(a: Attempted): Call
    requires Authorized(a)
  {
    Call(Command(a.orderID, a.authorizationID.value, a.quote.value), a.maxAttempts, a.plans, a.faults)
  }

  function CheckoutOnce(shop: Shop, a: Attempted): CheckoutResult {
    if a.quote.Failure? then CheckoutResult(shop, Some(Wrapped(a.quote.err)))
    else if a.authorizationID.Failure? then CheckoutResult(shop, Some(Wrapped(a.authorizationID.err)))
    else
      var run := TransactionalComplete(shop.conns, CallOf(a));
      CheckoutResult(Shop(run.world.conns, shop.issued + {IssuedBy(a)}), WrapErr(run.err))
  }

  /** The gateway keeps what it issued. */
  class Gateway {
    var issued: set<Authorization>

    constructor ()
      ensures issued == {}
    {
      issued := {};
    }

    method Authorize(orderID: string, amount: int, answer: Answer<string>) returns (r: Answer<string>)
      modifies this
      ensures r == answer
      ensures issued == old(issued) + if answer.Answer? then {Authorization(answer.value, orderID, amount)} else {}
    {
      if answer.Answer? {
        issued := issued + {Authorization(answer.value, orderID, amount)};
      }
      r := answer;
    }
  }

  class CheckoutService {
    const gateway: Gateway
    const pool: Pool<OrderDB>

    constructor (gateway: Gateway, pool: Pool<OrderDB>)
      ensures this.gateway == gateway && this.pool == pool
    {
      this.gateway, this.pool := gateway, pool;
    }

    method Checkout(a: Attempted) returns (err: Option<Error>)
      modifies gateway, pool
      ensures CheckoutResult(Shop(pool.conns, gateway.issued), err)
           == CheckoutOnce(Shop(old(pool.conns), old(gateway.issued)), a)
    {
      var quote := a.quote;
      if quote.Failure? {
        return Some(Wrapped(quote.err));
      }
      var payment := gateway.Authorize(a.orderID, quote.value, a.authorizationID);
      if payment.Failure? {
        return Some(Wrapped(payment.err));
      }
      var attempts;
      var cmd := Command(a.orderID, payment.value, quote.value);
      err, attempts := CompleteInTx(pool, Call(cmd, a.maxAttempts, a.plans, a.faults));
      if err.Some? {
        return Some(Wrapped(err.value));
      }
    }
  }

  /** Every recorded payment is of an authorization issued for that order and that amount. */
  predicate Backed(issued: set<Authorization>, db: OrderDB) {
    forall p :: p in db.payments ==> Authorization(p.providerPaymentID, p.orderID, p.amount) in issued
  }

  ghost predicate KeepsBacked(issued: set<Authorization>, plans: nat -> Plan<OrderDB>) {
    forall i: nat, d: OrderDB :: Backed(issued, d) ==> Backed(issued, plans(i).env(d))
  }

  lemma {:induction false} EnvBacked(issued: set<Authorization>, plans: nat -> Plan<OrderDB>, n: nat, d: OrderDB)
    requires KeepsBacked(issued, plans) && Backed(issued, d)
    ensures Backed(issued, EnvAfter(plans, n, d))
  {
    if n == 0 {
    } else {
      EnvBacked(issued, plans, n - 1, d);
    }
  }

  /** Checkouts made one after another. */
  function RunCheckouts(shop: Shop, run: seq<Attempted>): Shop {
    if run == [] then shop
    else CheckoutOnce(RunCheckouts(shop, run[..|run| - 1]), run[|run| - 1]).shop
  }

  /** The other clients record only payments that were authorized by the time they do. */
  ghost predicate HonestClients(shop: Shop, run: seq<Attempted>) {
    forall i :: 0 <= i < |run| ==> KeepsBacked(RunCheckouts(shop, run[..i]).issued, run[i].plans)
  }

  lemma BackedGrows(issued: set<Authorization>, more: set<Authorization>, db: OrderDB)
    requires Backed(issued, db) && issued <= more
    ensures Backed(more, db)
  {
  }

  /** Conservation: over any run of checkouts, with any failures and retries, every payment is
      backed by an authorization of the same order and amount. */
  lemma {:induction false} PaymentsBacked(shop: Shop, run: seq<Attempted>)
    requires ValidConns(shop.conns) && Backed(shop.issued, shop.conns.committed)
    requires HonestClients(shop, run)
    ensures var after := RunCheckouts(shop, run);
            ValidConns(after.conns) && shop.issued <= after.issued && Backed(after.issued, after.conns.committed)
  {
    hide TransactionalComplete;
    if run == [] {
    } else {
      var front, a := run[..|run| - 1], run[|run| - 1];
      assert forall i :: 0 <= i < |front| ==> front[..i] == run[..i];
      PaymentsBacked(shop, front);
      var before := RunCheckouts(shop, front);
      if Authorized(a) {
        var call := CallOf(a);
        CompleteOutcome(before.conns, call);
        assert KeepsBacked(before.issued, run[|run| - 1].plans);
        EnvBacked(before.issued, a.plans, TransactionalComplete(before.conns, call).attempts, before.conns.committed);
        BackedGrows(before.issued, before.issued + {IssuedBy(a)}, Seen(before.conns, call));
      }
    }
  }

  /** Every authorization there is was there before the run or was issued in one of its checkouts,
      for that checkout's order and quoted amount. */
  lemma {:induction false} IssuedInRun(shop: Shop, run: seq<Attempted>, z: Authorization)
    requires z in RunCheckouts(shop, run).issued
    ensures z in shop.issued || exists i :: 0 <= i < |run| && Authorized(run[i]) && z == IssuedBy(run[i])
  {
    if run == [] {
    } else {
      var front, a := run[..|run| - 1], run[|run| - 1];
      if z in RunCheckouts(shop, front).issued {
        IssuedInRun(shop, front, z);
        if z !in shop.issued {
          var i :| 0 <= i < |front| && Authorized(front[i]) && z == IssuedBy(front[i]);
          assert run[i] == front[i];
        }
      } else {
        assert Authorized(run[|run| - 1]) && z == IssuedBy(run[|run| - 1]);
      }
    }
  }

  /** The payment that a checkout records when it completes its order. */
  function PaymentOf(a: Attempted): Payment
    requires Authorized(a)
  {
    Payment(a.orderID, a.authorizationID.value, a.quote.value)
  }

  /** So over any run, every payment that does not rest on an authorization from before it carries
      the order, the authorization id and the quoted amount of one checkout of the run. */
  lemma PaymentsQuoted(shop: Shop, run: seq<Attempted>, p: Payment)
    requires ValidConns(shop.conns) && Backed(shop.issued, shop.conns.committed)
    requires HonestClients(shop, run)
    requires p in RunCheckouts(shop, run).conns.committed.payments
    ensures || Authorization(p.providerPaymentID, p.orderID, p.amount) in shop.issued
            || exists i :: 0 <= i < |run| && Authorized(run[i]) && p == PaymentOf(run[i])
  {
    hide RunCheckouts, HonestClients;
    PaymentsBacked(shop, run);
    var z := Authorization(p.providerPaymentID, p.orderID, p.amount);
    IssuedInRun(shop, run, z);
    if z !in shop.issued {
      var i :| 0 <= i < |run| && Authorized(run[i]) && z == IssuedBy(run[i]);
      assert p == PaymentOf(run[i]);
    }
  }

  /** The checkout's transaction, in its last attempt, finds the order pending and gets through. */
  predicate Captures(shop: Shop, a: Attempted)
    requires Authorized(a)
  {
    var n, seen := TransactionalComplete(shop.conns, CallOf(a)).attempts, Seen(shop.conns, CallOf(a));
    GetsThrough(seen, a.orderID, a.plans(n), a.faults(n)) && seen.orders[a.orderID] == PendingPayment
  }

  /** Once the gateway has issued its authorization, a checkout records the payment it authorizes
      exactly when its transaction finds the order pending and gets through. In every other case,
      whether it answers nil or an error, the authorization stays without a payment. */
  lemma AuthorizationUsedIff(shop: Shop, a: Attempted)
    requires ValidConns(shop.conns)
    requires Authorized(a)
    ensures var seen, after := Seen(shop.conns, CallOf(a)), CheckoutOnce(shop, a).shop;
            && IssuedBy(a) in after.issued
            && (|after.conns.committed.payments| > |seen.payments| <==> Captures(shop, a))
            && after.conns.committed.payments
               == if Captures(shop, a) then seen.payments + [PaymentOf(a)] else seen.payments
  {
    hide TransactionalComplete;
    CompleteOutcome(shop.conns, CallOf(a));
  }

  /** A checkout answers nil exactly when both services answer and its transaction gets through;
      it may have found the order paid, and then it has authorized a payment and recorded none. */
  lemma CheckoutSucceedsIff(shop: Shop, a: Attempted)
    requires ValidConns(shop.conns)
    ensures CheckoutOnce(shop, a).err.None?
            <==> Authorized(a)
                 && var n := TransactionalComplete(shop.conns, CallOf(a)).attempts;
                    GetsThrough(Seen(shop.conns, CallOf(a)), a.orderID, a.plans(n), a.faults(n))
  {
    hide TransactionalComplete;
    if Authorized(a) {
      CompleteOutcome(shop.conns, CallOf(a));
    }
  }

  /** A checkout that a service fails does nothing; every error keeps the cause of what failed
      first: the quote, the authorization, or the last attempt of the transaction. */
  lemma CheckoutFails(shop: Shop, a: Attempted)
    requires ValidConns(shop.conns)
    ensures var r := CheckoutOnce(shop, a);
            && (!Authorized(a) ==> r.shop == shop)
            && SameFailure(r.err, if a.quote.Failure? then Some(a.quote.err)
                                  else if a.authorizationID.Failure? then Some(a.authorizationID.err)
                                  else
                                    var n := TransactionalComplete(shop.conns, CallOf(a)).attempts;
                                    FailureOf(shop.conns, CallOf(a), n))
  {
    hide TransactionalComplete, FailureOf;
    if Authorized(a) {
      CompleteOutcome(shop.conns, CallOf(a));
    }
  }

  /** In particular, a checkout that answers nil has recorded its own authorization, for the quoted
      amount, if it found the order pending, and nothing if it found the order already paid. */
  lemma CheckoutRecords(shop: Shop, a: Attempted)
    requires ValidConns(shop.conns)
    requires CheckoutOnce(shop, a).err.None?
    ensures Authorized(a)
    ensures var seen, after := Seen(shop.conns, CallOf(a)), CheckoutOnce(shop, a).shop;
            && IssuedBy(a) in after.issued
            && a.orderID in seen.orders
            && after.conns.committed.payments
               == if seen.orders[a.orderID] == PendingPayment then seen.payments + [PaymentOf(a)] else seen.payments
  {
    hide CheckoutOnce, TransactionalComplete;
    CheckoutSucceedsIff(shop, a);
    AuthorizationUsedIff(shop, a);
  }

  /** Checking out an order again after a checkout that answered nil authorizes a second payment
      and records none, whatever the second checkout answers. */
  lemma SecondCheckoutUnused(shop: Shop, a: Attempted, b: Attempted)
    requires ValidConns(shop.conns)
    requires CheckoutOnce(shop, a).err.None?
    requires b.orderID == a.orderID && Authorized(b) && Orderly(b.plans)
    ensures var between := CheckoutOnce(shop, a).shop;
            var after := CheckoutOnce(between, b).shop;
            && IssuedBy(b) in after.issued
            && !Captures(between, b)
            && RowOf(after.conns.committed, a.orderID) == RowOf(between.conns.committed, a.orderID)
  {
    hide TransactionalComplete, PaymentsOf, ReservationsOf;
    CompleteOutcome(shop.conns, CallOf(a));
    var between := CheckoutOnce(shop, a).shop;
    assert between.conns.committed.orders[a.orderID] == Paid;
    CompleteOutcome(between.conns, CallOf(b));
    var n := TransactionalComplete(between.conns, CallOf(b)).attempts;
    EnvEvolves(b.plans, n, between.conns.committed);
    assert RowEvolves(RowOf(between.conns.committed, a.orderID), RowOf(Seen(between.conns, CallOf(b)), a.orderID));
  }

  // One order, checked out twice with no failures and no other clients.

  function Undisturbed(attempt: nat): Plan<OrderDB> {
    Plan((db: OrderDB) => db, None, None)
  }

  function NoFaults(attempt: nat): Faults {
    Faults(None, None, None, None)
  }

  function Quietly(orderID: string, amount: int, authorizationID: string): Attempted {
    Attempted("cart", orderID, Answer(amount), Answer(authorizationID), 1, Undisturbed, NoFaults)
  }

  lemma {:induction false} UndisturbedChangesNothing(n: nat, db: OrderDB)
    ensures EnvAfter(Undisturbed, n, db) == db
  {
    if n == 0 {
    } else {
      UndisturbedChangesNothing(n - 1, db);
    }
  }

  /** Both checkouts answer nil, both authorizations are issued, and one payment is recorded. */
  lemma TwiceAuthorizedOnceRecorded(order: string, amount: int)
    ensures var db := OrderDB(map[order := PendingPayment], [], []);
            var first, second := Quietly(order, amount, "auth-1"), Quietly(order, amount, "auth-2");
            var once := CheckoutOnce(Shop(Conns(db, map[], 0), {}), first);
            var twice := CheckoutOnce(once.shop, second);
            && once.err.None? && twice.err.None?
            && twice.shop.issued == {IssuedBy(first), IssuedBy(second)}
            && twice.shop.conns.committed.payments == [PaymentOf(first)]
  {
    hide TransactionalComplete;
    var db := OrderDB(map[order := PendingPayment], [], []);
    var shop := Shop(Conns(db, map[], 0), {});
    var first, second := Quietly(order, amount, "auth-1"), Quietly(order, amount, "auth-2");
    var once := CheckoutOnce(shop, first);
    UndisturbedChangesNothing(TransactionalComplete(shop.conns, CallOf(first)).attempts, db);
    CompleteOutcome(shop.conns, CallOf(first));
    UndisturbedChangesNothing(TransactionalComplete(once.shop.conns, CallOf(second)).attempts,
                              once.shop.conns.committed);
    CompleteOutcome(once.shop.conns, CallOf(second));
  }
}
