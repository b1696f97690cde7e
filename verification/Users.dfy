/** Creating a user with a profile: two repository writes routed by the context, made atomic by
    the transaction manager, with the result captured across attempts. */
module Users {
  import opened Wire
  import opened Retry
  import opened Transactions

  // Contexts.

  datatype Key = TxKey | OtherKey(name: string)
  datatype Entry = TxEntry(id: nat) | OtherEntry(name: string)

  /** A chain of values, innermost first. */
  datatype Context = Background | WithValue(parent: Context, key: Key, entry: Entry)

  function Lookup(ctx: Context, key: Key): Option<Entry> {
    match ctx
    case Background => None
    case WithValue(parent, k, e) => if k == key then Some(e) else Lookup(parent, key)
  }

  function ContextWithTx(ctx: Context, id: nat): Context {
    WithValue(ctx, TxKey, TxEntry(id))
  }

  /** The transaction the context carries, or None for the pool itself. */
  function ExecutorFromContext(ctx: Context): Option<nat> {
    match Lookup(ctx, TxKey)
    case Some(TxEntry(id)) => Some(id)
    case _ => None
  }

  /** contextExecutor.Exec: runs a statement where the context says. */
  function Exec<D>(c: Conns<D>, ctx: Context, statement: D -> Ran<D>): Ran<Conns<D>> {
    match ExecutorFromContext(ctx)
    case None =>
      var r := statement(c.committed);
      Ran(c.(committed := r.world), WrapErr(r.err))
    case Some(id) =>
      if id !in c.open then Ran(c, Some(Wrapped(TxClosed)))
      else
        var r := statement(c.open[id]);
        Ran(c.(open := c.open[id := r.world]), WrapErr(r.err))
  }

  // The tables.

  datatype User = User(id: nat, username: string, password: string)
  datatype Profile = Profile(userID: nat, description: string, contact: string, links: seq<string>)
  datatype UserDB = UserDB(users: map<nat, User>, profiles: map<nat, Profile>)

  const UNIQUE_VIOLATION: string := "23505"
  const FOREIGN_KEY_VIOLATION: string := "23503"

  predicate UsernameTaken(db: UserDB, username: string) {
    exists id :: id in db.users && db.users[id].username == username
  }

  /** The id is the primary key and usernames are unique; `fault` is any other failure. */
  function InsertUser(db: UserDB, user: User, fault: Option<Error>): Ran<UserDB> {
    if fault.Some? then Ran(db, fault)
    else if user.id in db.users || UsernameTaken(db, user.username) then Ran(db, Some(PgError(UNIQUE_VIOLATION)))
    else Ran(db.(users := db.users[user.id := user]), None)
  }

  /** The user's id is the primary key and refers to a user. */
  function InsertProfile(db: UserDB, profile: Profile, fault: Option<Error>): Ran<UserDB> {
    if fault.Some? then Ran(db, fault)
    else if profile.userID in db.profiles then Ran(db, Some(PgError(UNIQUE_VIOLATION)))
    else if profile.userID !in db.users then Ran(db, Some(PgError(FOREIGN_KEY_VIOLATION)))
    else Ran(db.(profiles := db.profiles[profile.userID := profile]), None)
  }

  // The service.

  datatype Input = Input(username: string, password: string, description: string, contact: string, links: seq<string>)
  datatype Created = Created(user: User, profile: Profile)

  /** What one call of the service meets: the id it draws and the failures of its two writes. */
  datatype Draw = Draw(id: nat, userFault: Option<Error>, profileFault: Option<Error>)

  function NewUser(input: Input, draw: Draw): User {
    User(draw.id, input.username, input.password)
  }

  function NewProfile(input: Input, draw: Draw): Profile {
    Profile(draw.id, input.description, input.contact, input.links)
  }

  /** userService.CreateUserWithProfile; None stands for the zero result. */
  function CreateUser(c: Conns<UserDB>, ctx: Context, input: Input, draw: Draw): BodyRun<UserDB, Option<Created>> {
    var user, profile := NewUser(input, draw), NewProfile(input, draw);
    var first := Exec(c, ctx, (db: UserDB) => InsertUser(db, user, draw.userFault));
    if first.err.Some? then BodyRun(first.world, None, WrapErr(WrapErr(first.err)))
    else
      var second := Exec(first.world, ctx, (db: UserDB) => InsertProfile(db, profile, draw.profileFault));
      if second.err.Some? then BodyRun(second.world, None, WrapErr(WrapErr(second.err)))
      else BodyRun(second.world, Some(Created(user, profile)), None)
  }

  method CreateUserWithProfile(pool: Pool<UserDB>, ctx: Context, input: Input, draw: Draw)
    returns (result: Option<Created>, err: Option<Error>)
    modifies pool
    ensures BodyRun(pool.conns, result, err) == CreateUser(old(pool.conns), ctx, input, draw)
  {
    var user := NewUser(input, draw);
    var profile := NewProfile(input, draw);
    var first := Exec(pool.conns, ctx, (db: UserDB) => InsertUser(db, user, draw.userFault));
    pool.conns := first.world;
    if first.err.Some? {
      return None, WrapErr(WrapErr(first.err));
    }
    var second := Exec(pool.conns, ctx, (db: UserDB) => InsertProfile(db, profile, draw.profileFault));
    pool.conns := second.world;
    if second.err.Some? {
      return None, WrapErr(WrapErr(second.err));
    }
    return Some(Created(user, profile)), None;
  }

  /** The closure the transactional service runs: it overwrites the captured result each time. */
  function CreateBody(ctx: Context, input: Input, draws: nat -> Draw): Body<UserDB, Option<Created>> {
    (attempt: nat, id: nat, c: Conns<UserDB>, captured: Option<Created>) =>
      var r := CreateUser(c, ContextWithTx(ctx, id), input, draws(attempt));
      r.(err := WrapErr(r.err))
  }

  /** One call of the transactional service. */
  datatype CreateCall = CreateCall(ctx: Context, maxAttempts: int, plans: nat -> Plan<UserDB>, input: Input,
                                   draws: nat -> Draw)

  /** What a call leaves behind and answers. */
  datatype CreateRun = CreateRun(conns: Conns<UserDB>, result: Option<Created>, err: Option<Error>, attempts: nat)

  function CreateInTx(c: Conns<UserDB>, call: CreateCall): CreateRun {
    var body := CreateBody(call.ctx, call.input, call.draws);
    var run := Do(TxManager, call.maxAttempts, call.plans, World(c, None), body);
    var result := if run.err.Some? then None else run.world.captured;
    CreateRun(run.world.conns, result, WrapErr(run.err), run.attempts)
  }

  method CreateUserInTx(pool: Pool<UserDB>, call: CreateCall)
    returns (result: Option<Created>, err: Option<Error>, attempts: nat)
    modifies pool
    ensures CreateRun(pool.conns, result, err, attempts) == CreateInTx(old(pool.conns), call)
  {
    var body := CreateBody(call.ctx, call.input, call.draws);
    result, err, attempts := pool.Transact(TxManager, call.maxAttempts, call.plans, None, body);
    if err.Some? {
      return None, Some(Wrapped(err.value)), attempts;
    }
  }

  // Routing.

  /** A context routes to the transaction it was last given, past all its other values, and to the
      pool if it was given none or something else in its place. */
  lemma RoutedTo(ctx: Context, id: nat, name: string, entry: Entry)
    ensures ExecutorFromContext(Background).None?
    ensures ExecutorFromContext(ContextWithTx(ctx, id)) == Some(id)
    ensures ExecutorFromContext(WithValue(ctx, OtherKey(name), entry)) == ExecutorFromContext(ctx)
    ensures ExecutorFromContext(WithValue(ctx, TxKey, OtherEntry(name))).None?
  {
  }

  /** Outside a transaction a statement acts on the committed database at once. */
  lemma ExecOnPool<D>(c: Conns<D>, ctx: Context, statement: D -> Ran<D>)
    requires ExecutorFromContext(ctx).None?
    ensures var r := Exec(c, ctx, statement);
            && r.world == Conns(statement(c.committed).world, c.open, c.next)
            && r.err == WrapErr(statement(c.committed).err)
  {
  }

  lemma ExecInTx<D>(c: Conns<D>, ctx: Context, id: nat, statement: D -> Ran<D>)
    requires id in c.open && ExecutorFromContext(ctx) == Some(id)
    ensures var r := Exec(c, ctx, statement);
            OnlyTx(id, c, r.world) && r.world.open[id] == statement(c.open[id]).world
            && r.err == WrapErr(statement(c.open[id]).err)
  {
    assert Exec(c, ctx, statement).world.open - {id} == c.open - {id};
  }

  /** Every write made under a transaction's context, whatever that context already carried,
      reaches that transaction's copy and nothing else. */
  lemma CreateBodyConfined(ctx: Context, input: Input, draws: nat -> Draw)
    ensures Confined(CreateBody(ctx, input, draws))
  {
    forall attempt: nat, id: nat, c: Conns<UserDB>, captured: Option<Created> | id in c.open
      ensures OnlyTx(id, c, CreateBody(ctx, input, draws)(attempt, id, c, captured).conns)
    {
      hide InsertUser, InsertProfile, Exec;
      var txCtx, draw := ContextWithTx(ctx, id), draws(attempt);
      var user, profile := NewUser(input, draw), NewProfile(input, draw);
      assert ExecutorFromContext(txCtx) == Some(id);
      var insertUser := (db: UserDB) => InsertUser(db, user, draw.userFault);
      var insertProfile := (db: UserDB) => InsertProfile(db, profile, draw.profileFault);
      ExecInTx(c, txCtx, id, insertUser);
      ExecInTx(Exec(c, txCtx, insertUser).world, txCtx, id, insertProfile);
    }
  }

  /** The first thing that goes wrong while creating a user in `db`, if anything does. */
  function CreateFailure(db: UserDB, input: Input, draw: Draw): Option<Error> {
    if draw.userFault.Some? then draw.userFault
    else if draw.id in db.users || UsernameTaken(db, input.username) then Some(PgError("23505"))
    else if draw.profileFault.Some? then draw.profileFault
    else if draw.id in db.profiles then Some(PgError("23505"))
    else None
  }

  /** In its transaction, a call fails for the first thing that goes wrong, and otherwise makes
      exactly its two rows. */
  lemma CreateUserInside(c: Conns<UserDB>, ctx: Context, id: nat, input: Input, draw: Draw)
    requires id in c.open
    ensures var r, db := CreateUser(c, ContextWithTx(ctx, id), input, draw), c.open[id];
            var user := User(draw.id, input.username, input.password);
            var profile := Profile(draw.id, input.description, input.contact, input.links);
            && SameFailure(r.err, CreateFailure(db, input, draw))
            && id in r.conns.open
            && r.captured == (if r.err.None? then Some(Created(user, profile)) else None)
            && (r.err.None? ==> r.conns.open[id] == UserDB(db.users[draw.id := user], db.profiles[draw.id := profile]))
  {
    hide Root;
    assert ExecutorFromContext(ContextWithTx(ctx, id)) == Some(id);
    var db, user, profile := c.open[id], NewUser(input, draw), NewProfile(input, draw);
    var first := InsertUser(db, user, draw.userFault);
    var second := InsertProfile(first.world, profile, draw.profileFault);
    WrappedThrice(first.err);
    WrappedThrice(second.err);
  }

  /** The first thing that goes wrong in attempt `k` of a call, if it comes to that attempt. */
  function FailureOf(c: Conns<UserDB>, call: CreateCall, k: nat): Option<Error> {
    FirstFailure(call.plans(k), CreateFailure(EnvAfter(call.plans, k, c.committed), call.input, call.draws(k)))
  }

  lemma AttemptInside(c: Conns<UserDB>, call: CreateCall, k: nat)
    requires var body, w0 := CreateBody(call.ctx, call.input, call.draws), World(c, None);
             OpenAt(TxManager, call.plans, w0, body, k).open
             == c.open[WorldAt(TxManager, call.plans, w0, body, k).conns.next := EnvAfter(call.plans, k, c.committed)]
    ensures var body, w0 := CreateBody(call.ctx, call.input, call.draws), World(c, None);
            var id := WorldAt(TxManager, call.plans, w0, body, k).conns.next;
            var seen, r := EnvAfter(call.plans, k, c.committed), BodyAt(TxManager, call.plans, w0, body, k);
            var draw := call.draws(k);
            var user := User(draw.id, call.input.username, call.input.password);
            var profile := Profile(draw.id, call.input.description, call.input.contact, call.input.links);
            && SameFailure(FailureAt(TxManager, call.plans, w0, body, k), FailureOf(c, call, k))
            && (r.err.None? ==>
                  && id in r.conns.open
                  && r.captured == Some(Created(user, profile))
                  && r.conns.open[id] == UserDB(seen.users[draw.id := user], seen.profiles[draw.id := profile]))
  {
    hide CreateUser, CreateFailure, WorldAt, EnvAfter;
    var body, w0 := CreateBody(call.ctx, call.input, call.draws), World(c, None);
    var w := WorldAt(TxManager, call.plans, w0, body, k);
    CreateUserInside(OpenAt(TxManager, call.plans, w0, body, k), call.ctx, w.conns.next, call.input, call.draws(k));
  }

  /** A call goes on to the first attempt whose failure is not to be retried. It answers nil exactly
      when nothing fails in that attempt, the drawn id is in neither table and the username is not
      taken; otherwise it answers an error with the cause of that attempt's failure. */
  lemma CreateOutcome(c: Conns<UserDB>, call: CreateCall)
    requires ValidConns(c)
    ensures var run := CreateInTx(c, call);
            var n := run.attempts;
            var seen, plan, draw := EnvAfter(call.plans, n, c.committed), call.plans(n), call.draws(n);
            && EndsAfter(n, call.maxAttempts, (k: nat) => FailureOf(c, call, k))
            && SameFailure(run.err, FailureOf(c, call, n))
            && (run.err.None?
                <==> && plan.begin.None? && plan.commit.None?
                     && draw.userFault.None? && draw.profileFault.None?
                     && draw.id !in seen.users && draw.id !in seen.profiles
                     && forall id :: id in seen.users ==> seen.users[id].username != call.input.username)
  {
    hide Do, EnvAfter;
    var body, w0 := CreateBody(call.ctx, call.input, call.draws), World(c, None);
    CreateBodyConfined(call.ctx, call.input, call.draws);
    DoAtomic(TxManager, call.maxAttempts, call.plans, w0, body);
    DoEnds(TxManager, call.maxAttempts, call.plans, w0, body);
    var n := CreateInTx(c, call).attempts;
    forall k | 1 <= k <= n
      ensures SameFailure(FailureAt(TxManager, call.plans, w0, body, k), FailureOf(c, call, k))
    {
      AttemptInside(c, call, k);
    }
    SameEnds(n, call.maxAttempts, (k: nat) => FailureAt(TxManager, call.plans, w0, body, k),
             (k: nat) => FailureOf(c, call, k));
  }

  /** The returned result is the committed one. On success the database is what the other
      clients made of it plus exactly the returned user and its profile; on failure nothing was
      added, in any attempt, and nothing is returned. */
  lemma ReturnedIsCommitted(c: Conns<UserDB>, call: CreateCall)
    requires ValidConns(c)
    ensures var run := CreateInTx(c, call);
            var seen, input := EnvAfter(call.plans, run.attempts, c.committed), call.input;
            var id := call.draws(run.attempts).id;
            var user := User(id, input.username, input.password);
            var profile := Profile(id, input.description, input.contact, input.links);
            && ValidConns(run.conns) && run.conns.open == c.open
            && run.result == (if run.err.None? then Some(Created(user, profile)) else None)
            && run.conns.committed
               == if run.err.None? then UserDB(seen.users[id := user], seen.profiles[id := profile]) else seen
  {
    hide Do, EnvAfter;
    var body, w0 := CreateBody(call.ctx, call.input, call.draws), World(c, None);
    CreateBodyConfined(call.ctx, call.input, call.draws);
    DoAtomic(TxManager, call.maxAttempts, call.plans, w0, body);
    DoEnds(TxManager, call.maxAttempts, call.plans, w0, body);
    AttemptInside(c, call, CreateInTx(c, call).attempts);
  }

  // No user without a profile.

  predicate AllPaired(db: UserDB) {
    db.users.Keys == db.profiles.Keys
  }

  ghost predicate Preserves<D(!new)>(plans: nat -> Plan<D>, inv: D -> bool) {
    forall i: nat, d: D :: inv(d) ==> inv(plans(i).env(d))
  }

  lemma {:induction false} EnvKeeps<D(!new)>(plans: nat -> Plan<D>, inv: D -> bool, n: nat, d: D)
    requires Preserves(plans, inv) && inv(d)
    ensures inv(EnvAfter(plans, n, d))
  {
    if n == 0 {
    } else {
      EnvKeeps(plans, inv, n - 1, d);
    }
  }

  /** A run of calls of the transactional service, one after another. */
  function RunCreates(c: Conns<UserDB>, calls: seq<CreateCall>): Conns<UserDB> {
    if calls == [] then c
    else CreateInTx(RunCreates(c, calls[..|calls| - 1]), calls[|calls| - 1]).conns
  }

  /** Over any run of calls, with any failures and retries and other clients that keep users and
      profiles paired, no user is ever committed without its profile. */
  lemma {:induction false} NeverUnpaired(c: Conns<UserDB>, calls: seq<CreateCall>)
    requires ValidConns(c) && AllPaired(c.committed)
    requires forall i :: 0 <= i < |calls| ==> Preserves(calls[i].plans, AllPaired)
    ensures ValidConns(RunCreates(c, calls)) && AllPaired(RunCreates(c, calls).committed)
  {
    hide CreateInTx;
    if calls == [] {
    } else {
      var before, call := RunCreates(c, calls[..|calls| - 1]), calls[|calls| - 1];
      NeverUnpaired(c, calls[..|calls| - 1]);
      assert call in calls;
      ReturnedIsCommitted(before, call);
      EnvKeeps(call.plans, AllPaired, CreateInTx(before, call).attempts, before.committed);
    }
  }

  /** Without a transaction the same call fails for the same reasons, but what it wrote stays: the
      user alone, if its first write succeeds and its second does not. */
  lemma CreateUserOutside(c: Conns<UserDB>, ctx: Context, input: Input, draw: Draw)
    requires ExecutorFromContext(ctx).None?
    ensures var r, db := CreateUser(c, ctx, input, draw), c.committed;
            var user := User(draw.id, input.username, input.password);
            var profile := Profile(draw.id, input.description, input.contact, input.links);
            var userFails := draw.userFault.Some? || draw.id in db.users || UsernameTaken(db, input.username);
            && SameFailure(r.err, CreateFailure(db, input, draw))
            && r.captured == (if r.err.None? then Some(Created(user, profile)) else None)
            && r.conns.open == c.open && r.conns.next == c.next
            && r.conns.committed
               == if userFails then db
                  else UserDB(db.users[draw.id := user],
                              if r.err.None? then db.profiles[draw.id := profile] else db.profiles)
  {
    hide Root;
    var user, profile := NewUser(input, draw), NewProfile(input, draw);
    var first := InsertUser(c.committed, user, draw.userFault);
    var second := InsertProfile(first.world, profile, draw.profileFault);
    WrappedThrice(first.err);
    WrappedThrice(second.err);
  }

  /** So without a transaction the service keeps users and profiles paired exactly when its
      first write fails too, or its second does not. */
  lemma UnpairedWithoutTx(c: Conns<UserDB>, ctx: Context, input: Input, draw: Draw)
    requires AllPaired(c.committed) && ExecutorFromContext(ctx).None?
    ensures AllPaired(CreateUser(c, ctx, input, draw).conns.committed)
            <==> draw.userFault.Some? || draw.id in c.committed.users || UsernameTaken(c.committed, input.username)
                 || draw.profileFault.None?
  {
    var user := NewUser(input, draw);
    var first := InsertUser(c.committed, user, draw.userFault);
    if first.err.None? {
      assert draw.id in first.world.users.Keys;
      assert draw.id !in first.world.profiles.Keys;
    }
  }
}
