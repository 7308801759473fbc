/** What each use case does to the server store and which probes it asks for, error paths included. */
module UseCases {
  import opened Entities
  import opened Store
  import opened Probes
  import opened UseCalls
  import opened Instances

  /** The store after a use case, and the probes it enqueued, in order. */
  datatype Effect = Effect(db: Db, orders: seq<Order>)

  datatype Answered = Answered(db: Db, outcome: Outcome)

  /** One repository call with nobody else around. */
  function Exec(db: Db, call: Call, now: Nanos, score: Rounding): Answered {
    var d := Decide(call, Lookup(db.items, call.svr.addr), now);
    Answered(Commit(db, d, call.svr.addr, now, score), OutcomeOf(d))
  }

  datatype Verdict =
    | Done
    | ServerNotFound
    | InvalidPayload
    | InvalidPort
    | InvalidInstance         // a malformed instance id, or an address no instance can have
    | InstanceNotFound
    | AddressMismatch         // the instance belongs to another address
    | Retried                 // the probe failed and is queued again
    | OutOfRetries            // the probe failed for the last time
    | CannotCreate
    | CannotDiscover
    | InProgress
    | NoQueryablePort
    | AlreadyDiscovered

  datatype Ran = Ran(effect: Effect, verdict: Verdict)

  // ---- probeserver -----------------------------------------------------------------

  function Probed(db: Db, p: Probe, found: Option<Result>, delay: nat, now: Nanos, score: Rounding): Ran {
    var held := Lookup(db.items, p.addr);
    if held.None? then Ran(Effect(db, []), ServerNotFound)
    else if found.Some? then
      Ran(Effect(Exec(db, CallOn(Succeed(p.goal, found.value), held.value, now), now, score).db, []), Done)
    else
      var again := IncRetries(p);
      if again.None? then
        Ran(Effect(Exec(db, CallOn(Fail(p.goal), held.value, now), now, score).db, []), OutOfRetries)
      else
        Ran(Effect(Exec(db, CallOn(Requeue(p.goal), held.value, now), now, score).db,
                   [Order(again.value, Some(now + delay), None)]), Retried)
  }

  // ---- reportserver ----------------------------------------------------------------

  /** `maybeDiscoverPort`: the probe is queued first, the record is marked afterwards. */
  function MaybeDiscoverPort(db: Db, pending: Server, max: int, now: Nanos, score: Rounding): Effect {
    if HasNo(pending.status, PORT | PORT_RETRY) then
      Effect(Exec(db, CallOn(QueuePort, pending, now), now, score).db,
             [PortOrder(pending, max)])
    else Effect(db, [])
  }

  /** `valid` tells whether the instance can be registered; `info` is None when the fields cannot be parsed. */
  function ReportedServer(db: Db, a: Addr, queryPort: int, valid: bool, info: Option<Info>, max: int,
                          now: Nanos, score: Rounding): Ran {
    var held := Lookup(db.items, a);
    if held.None? && NewServer(a, queryPort).None? then Ran(Effect(db, []), InvalidPort)
    else if !valid then Ran(Effect(db, []), InvalidInstance)
    else if info.None? || !info.value.passes then Ran(Effect(db, []), InvalidPayload)
    else
      var svr := if held.Some? then held.value else NewServer(a, queryPort).value;
      var saved := Exec(db, ReportCall(svr, info.value, now), now, score);
      if !saved.outcome.Saved? then Ran(Effect(saved.db, []), CannotCreate)
      else Ran(MaybeDiscoverPort(saved.db, saved.outcome.svr, max, now, score), Done)
  }

  // ---- addserver -------------------------------------------------------------------

  /** `maybeDiscoverServer`: the record is marked first, the probe is queued afterwards. */
  function MaybeDiscoverServer(db: Db, svr: Server, max: int, now: Nanos, score: Rounding): Ran {
    if Has(svr.status, DETAILS) then Ran(Effect(db, []), AlreadyDiscovered)
    else if HasAny(svr.status, PORT_RETRY | DETAILS_RETRY) then Ran(Effect(db, []), InProgress)
    else if Has(svr.status, NO_PORT) then Ran(Effect(db, []), NoQueryablePort)
    else
      var marked := Exec(db, CallOn(Submit, svr, now), now, score);
      if marked.outcome.NotFound? then Ran(Effect(marked.db, []), CannotDiscover)
      else Ran(Effect(marked.db, [PortOrder(svr, max)]), InProgress)
  }

  function SubmittedServer(db: Db, a: Addr, max: int, now: Nanos, score: Rounding): Ran {
    var held := Lookup(db.items, a);
    if held.Some? then MaybeDiscoverServer(db, held.value, max, now, score)
    else if NewServer(a, a.port + 1).None? then Ran(Effect(db, []), CannotCreate)
    else
      var created := Exec(db, CreateCall(NewServer(a, a.port + 1).value), now, score);
      if !created.outcome.Saved? then Ran(Effect(created.db, []), CannotCreate)
      else MaybeDiscoverServer(created.db, created.outcome.svr, max, now, score)
  }

  /** The port probe that reports and submissions queue. */
  function PortOrder(svr: Server, max: int): Order {
    Order(NewProbe(svr.addr, svr.addr.port, GoalPort, max), None, None)
  }

  // ---- the periodic producers ------------------------------------------------------

  /** Details probes that expire at the deadline, for each server found. */
  function RefreshOrders(servers: seq<Server>, deadline: Nanos, max: int): (orders: seq<Order>)
    ensures |orders| == |servers|
    ensures forall i :: 0 <= i < |orders| ==> orders[i].before == Some(deadline)
  {
    seq(|servers|, i requires 0 <= i < |servers| =>
      Order(NewProbe(servers[i].addr, servers[i].queryPort, GoalDetails, max), None, Some(deadline)))
  }

  /** Port probes that wait for a countdown of their own and expire at the deadline. */
  function ReviveOrders(servers: seq<Server>, countdowns: seq<Nanos>, deadline: Nanos, max: int): (orders: seq<Order>)
    requires |countdowns| == |servers|
    ensures |orders| == |servers|
    ensures forall i :: 0 <= i < |orders| ==> orders[i].before == Some(deadline)
  {
    seq(|servers|, i requires 0 <= i < |servers| =>
      Order(NewProbe(servers[i].addr, servers[i].addr.port, GoalPort, max), Some(countdowns[i]), Some(deadline)))
  }

  // ---- renewals and removals -------------------------------------------------------

  /** A keepalive from address `ip` under an instance id: only the owner of the id is believed. */
  function Renewed(db: Db, who: Identity, ip: int, now: Nanos, score: Rounding): Ran {
    match who
    case Malformed => Ran(Effect(db, []), InvalidInstance)
    case Unknown => Ran(Effect(db, []), InstanceNotFound)
    case Known(a) =>
      if a.ip != ip then Ran(Effect(db, []), AddressMismatch)
      else
        var held := Lookup(db.items, a);
        if held.None? then Ran(Effect(db, []), ServerNotFound)
        else Ran(Effect(Exec(db, CallOn(Renew, held.value, now), now, score).db, []), Done)
  }

  /** The server is looked up before the instance. */
  function RemovedServer(db: Db, a: Addr, who: Identity, now: Nanos, score: Rounding): Ran {
    var held := Lookup(db.items, a);
    if held.None? then Ran(Effect(db, []), ServerNotFound)
    else
      match who
      case Malformed => Ran(Effect(db, []), InvalidInstance)
      case Unknown => Ran(Effect(db, []), InstanceNotFound)
      case Known(owner) =>
        if owner.ip != a.ip then Ran(Effect(db, []), AddressMismatch)
        else Ran(Effect(Exec(db, CallOn(Discard, held.value, now), now, score).db, []), Done)
  }

  /** The removals of one cleaner pass over the servers its filter returned. */
  function Cleaned(db: Db, servers: seq<Server>, cutoff: Nanos, now: Nanos, score: Rounding): Db {
    if servers == [] then db
    else
      var n := |servers| - 1;
      Exec(Cleaned(db, servers[..n], cutoff, now, score), CallOn(Clean(cutoff), servers[n], now), now, score).db
  }
}

/**
 * The discovery system as a whole: every use case one atomic, error-free step over the server
 * store and the probes that are queued or in flight.
 */
module Discovery {
  import opened Entities
  import opened Store
  import opened Probes
  import opened UseCalls
  import opened Instances
  import opened UseCases

  /** A probe that is queued or, once popped, in flight. */
  datatype Task = Task(probe: Probe, readyAt: Nanos, expires: Option<Nanos>, flying: bool)

  /**
   * Submissions are numbered: `tasks` holds those still outstanding, under the number they keep
   * through all their retries; `runs` counts the executions of each and `caps` is its retry limit.
   */
  datatype World = World(db: Db, clock: Nanos, tasks: map<nat, Task>, runs: seq<nat>, caps: seq<int>)

  datatype Event =
    | Report(a: Addr, queryPort: int, valid: bool, info: Option<Info>, max: int)
    | Submit(a: Addr, max: int)
    | Refresh(servers: seq<Server>, deadline: Nanos, max: int)
    | Revive(servers: seq<Server>, countdowns: seq<Nanos>, deadline: Nanos, max: int)
    | Renew(who: Identity, ip: int)
    | Remove(a: Addr, who: Identity)
    | Clean(servers: seq<Server>, cutoff: Nanos)
    | Pop(o: nat)
    | Execute(o: nat, found: Option<Result>, delay: nat)
    | Tick(d: nat)

  function Init(clock: Nanos): World {
    World(EMPTY_DB, clock, map[], [], [])
  }

  function TaskOf(o: Order, now: Nanos): Task {
    Task(o.probe, o.ReadyAt(now), o.before, false)
  }

  /** A submission under the next number; pointless orders are not queued. */
  function Submitted(w: World, o: Order): World {
    if o.Pointless() then w
    else w.(tasks := w.tasks[|w.runs| := TaskOf(o, w.clock)], runs := w.runs + [0],
            caps := w.caps + [o.probe.maxRetries])
  }

  function SubmittedAll(w: World, orders: seq<Order>): World {
    if orders == [] then w else Submitted(SubmittedAll(w, orders[..|orders| - 1]), orders[|orders| - 1])
  }

  function Took(w: World, e: Effect): World {
    SubmittedAll(w.(db := e.db), e.orders)
  }

  /** A consumer pops a ready probe; if it has expired it is dropped. */
  function Popped(w: World, o: nat): World {
    if o !in w.tasks || w.tasks[o].flying || w.tasks[o].readyAt > w.clock then w
    else if Expired(Item(w.tasks[o].probe, w.tasks[o].expires), w.clock) then w.(tasks := w.tasks - {o})
    else w.(tasks := w.tasks[o := w.tasks[o].(flying := true)])
  }

  /** A probe in flight is executed; a retry goes on as the same submission. */
  function Executed(w: World, o: nat, found: Option<Result>, delay: nat, score: Rounding): World {
    if o !in w.tasks || !w.tasks[o].flying || o >= |w.runs| then w
    else
      var e := Probed(w.db, w.tasks[o].probe, found, delay, w.clock, score).effect;
      w.(db := e.db, runs := w.runs[o := w.runs[o] + 1],
         tasks := if e.orders == [] then w.tasks - {o} else w.tasks[o := TaskOf(e.orders[0], w.clock)])
  }

  /** The effect of a use case other than the execution of a probe. */
  function EffectOf(w: World, e: Event, score: Rounding): Effect {
    match e
    case Report(a, port, valid, info, max) => ReportedServer(w.db, a, port, valid, info, max, w.clock, score).effect
    case Submit(a, max) => SubmittedServer(w.db, a, max, w.clock, score).effect
    case Refresh(servers, deadline, max) => Effect(w.db, RefreshOrders(servers, deadline, max))
    case Revive(servers, countdowns, deadline, max) =>
      Effect(w.db, if |countdowns| != |servers| then [] else ReviveOrders(servers, countdowns, deadline, max))
    case Renew(who, ip) => Renewed(w.db, who, ip, w.clock, score).effect
    case Remove(a, who) => RemovedServer(w.db, a, who, w.clock, score).effect
    case Clean(servers, cutoff) => Effect(Cleaned(w.db, servers, cutoff, w.clock, score), [])
    case _ => Effect(w.db, [])
  }

  function Step(w: World, e: Event, score: Rounding): World {
    match e
    case Pop(o) => Popped(w, o)
    case Execute(o, found, delay) => Executed(w, o, found, delay, score)
    case Tick(d) => w.(clock := w.clock + d)
    case _ => Took(w, EffectOf(w, e, score))
  }

  function Run(w: World, events: seq<Event>, score: Rounding): World {
    if events == [] then w else Step(Run(w, events[..|events| - 1], score), events[|events| - 1], score)
  }

  // ---- retry statuses are backed by probes -------------------------------------------

  function RetryBit(g: Goal): Status {
    if g == GoalPort then PORT_RETRY else DETAILS_RETRY
  }

  /** A probe of that goal for the address that can never expire is queued or in flight. */
  ghost predicate Backing(tasks: map<nat, Task>, a: Addr, g: Goal) {
    exists o :: o in tasks && tasks[o].probe.addr == a && tasks[o].probe.goal == g && tasks[o].expires.None?
  }

  /** Such a probe is there or, for the addresses that are due one, a port probe is about to be queued. */
  ghost predicate Covered(tasks: map<nat, Task>, due: set<Addr>, a: Addr, g: Goal) {
    Backing(tasks, a, g) || (g == GoalPort && a in due)
  }

  ghost predicate BackedAt(db: Db, tasks: map<nat, Task>, due: set<Addr>, a: Addr) {
    a in db.items ==> forall g :: Has(db.items[a].status, RetryBit(g)) ==> Covered(tasks, due, a, g)
  }

  ghost predicate BackedUpTo(w: World, due: set<Addr>) {
    forall a :: BackedAt(w.db, w.tasks, due, a)
  }

  ghost predicate Backed(w: World) {
    BackedUpTo(w, {})
  }

  /** The bookkeeping of submissions: each has run as often as it was retried, and never more than allowed. */
  ghost predicate Counted(w: World) {
    && |w.runs| == |w.caps|
    && (forall o :: 0 <= o < |w.runs| ==> w.runs[o] <= Allowed(w.caps[o]))
    && (forall o :: o in w.tasks ==>
          && o < |w.runs| && w.tasks[o].probe.maxRetries == w.caps[o]
          && w.tasks[o].probe.retries == w.runs[o] && w.runs[o] < Allowed(w.caps[o]))
  }

  /** How often a probe with this retry limit may run: the first time and once for each retry. */
  function Allowed(max: int): nat {
    if max < 0 then 1 else max + 1
  }

  ghost predicate InvUpTo(w: World, due: set<Addr>, score: Rounding) {
    Consistent(w.db, score) && BackedUpTo(w, due) && Counted(w)
  }

  ghost predicate Inv(w: World, score: Rounding) {
    InvUpTo(w, {}, score)
  }

  // ---- single calls --------------------------------------------------------------------

  /** A call changes the record at its address only, to what it decides. */
  lemma ExecAt(db: Db, call: Call, now: Nanos, score: Rounding)
    requires Consistent(db, score) && Sane(call)
    ensures var r := Exec(db, call, now, score).db;
            && Consistent(r, score)
            && Lookup(r.items, call.svr.addr) ==
                 After(Decide(call, Lookup(db.items, call.svr.addr), now), Lookup(db.items, call.svr.addr))
            && forall x :: x != call.svr.addr ==> Lookup(r.items, x) == Lookup(db.items, x)
  {
    var d := Decide(call, Lookup(db.items, call.svr.addr), now);
    DecideKeepsAddr(call, Lookup(db.items, call.svr.addr), now);
    CommitKeepsConsistent(db, d, call.svr.addr, now, score);
    hide Decide, Sane, Consistent, Retag, Untag;
  }

  /** An update of the record as it is stored is the caller's change, saved. */
  lemma UpdateStored(db: Db, u: UseCall, svr: Server, now: Nanos, score: Rounding)
    requires Consistent(db, score) && Lookup(db.items, svr.addr) == Some(svr)
    requires u.QueuePort? || u.Submit? || u.Succeed? || u.Requeue? || u.Fail? || u.Renew?
    ensures var call := CallOn(u, svr, now);
            var r := Exec(db, call, now, score);
            && r.outcome == Saved(call.svr.Bumped())
            && Consistent(r.db, score)
            && Lookup(r.db.items, svr.addr) == Some(call.svr.Bumped())
            && forall x :: x != svr.addr ==> Lookup(r.db.items, x) == Lookup(db.items, x)
  {
    var call := CallOn(u, svr, now);
    UpdateSane(u, svr, now);
    ExecAt(db, call, now, score);
    hide UpdateStatus, ClearStatus, Has, Consistent, Commit;
  }

  lemma UpdateSane(u: UseCall, svr: Server, now: Nanos)
    requires !u.Create? && !u.Report?
    ensures Sane(CallOn(u, svr, now)) && CallOn(u, svr, now).svr.addr == svr.addr
  {
    hide UpdateStatus, ClearStatus, Has;
  }

  // ---- use cases other than the execution of a probe -----------------------------------

  ghost predicate Promised(orders: seq<Order>, a: Addr, g: Goal) {
    exists i :: 0 <= i < |orders| && orders[i].probe.addr == a && orders[i].probe.goal == g && orders[i].before.None?
  }

  /** A retry bit that was not set before is set only together with a probe that never expires. */
  ghost predicate HonestAt(db: Db, db': Db, orders: seq<Order>, a: Addr) {
    a in db'.items ==> forall g :: Has(db'.items[a].status, RetryBit(g)) ==>
      || (a in db.items && Has(db.items[a].status, RetryBit(g)))
      || Promised(orders, a, g)
  }

  ghost predicate Honest(db: Db, e: Effect) {
    && (forall a :: HonestAt(db, e.db, e.orders, a))
    && (forall i :: 0 <= i < |e.orders| ==> e.orders[i].probe.retries == 0)
  }

  lemma {:induction false} SubmittingGrows(w: World, orders: seq<Order>)
    requires Counted(w) && forall i :: 0 <= i < |orders| ==> orders[i].probe.retries == 0
    ensures var t := SubmittedAll(w, orders);
            && Counted(t) && t.db == w.db && t.clock == w.clock && |t.runs| >= |w.runs|
            && (forall o :: o in w.tasks ==> o in t.tasks && t.tasks[o] == w.tasks[o])
            && (forall o :: o in t.tasks && o !in w.tasks ==> o >= |w.runs|)
            && (forall a, g :: Promised(orders, a, g) ==> Backing(t.tasks, a, g))
  {
    if orders != [] {
      var front := orders[..|orders| - 1];
      SubmittingGrows(w, front);
      var v := SubmittedAll(w, front);
      var last := orders[|orders| - 1];
      var t := SubmittedAll(w, orders);
      forall a, g | Promised(orders, a, g) ensures Backing(t.tasks, a, g) {
        if Promised(front, a, g) {
          assert Backing(v.tasks, a, g);
          var o :| o in v.tasks && v.tasks[o].probe.addr == a && v.tasks[o].probe.goal == g && v.tasks[o].expires.None?;
          assert t.tasks[o] == v.tasks[o];
        } else {
          assert !last.Pointless();
          assert t.tasks[|v.runs|] == TaskOf(last, v.clock);
        }
      }
    }
  }

  lemma HonestKeeps(w: World, e: Effect, due: set<Addr>)
    requires BackedUpTo(w, due) && Counted(w) && Honest(w.db, e)
    ensures BackedUpTo(Took(w, e), due) && Counted(Took(w, e)) && Took(w, e).db == e.db
  {
    var v := w.(db := e.db);
    SubmittingGrows(v, e.orders);
    var t := Took(w, e);
    hide SubmittedAll, Has, Counted;
    forall a ensures BackedAt(t.db, t.tasks, due, a) {
      assert BackedAt(w.db, w.tasks, due, a) && HonestAt(w.db, e.db, e.orders, a);
    }
  }

  lemma RetryBitsMarked(s: Status, bits: Status, g: Goal)
    ensures Has(UpdateStatus(s, bits), RetryBit(g)) <==> Has(s, RetryBit(g)) || Has(bits, RetryBit(g))
  {
  }

  lemma KnownBits()
    ensures forall g :: !Has(MASTER | INFO, RetryBit(g)) && !Has(NEW, RetryBit(g))
    ensures forall g :: Has(PORT_RETRY, RetryBit(g)) <==> g == GoalPort
    ensures forall g :: Has(DETAILS_RETRY, RetryBit(g)) <==> g == GoalDetails
  {
  }

  /** Marking a stored record for port discovery, together with a probe for it, is honest. */
  lemma MarkIsHonest(db: Db, u: UseCall, svr: Server, max: int, now: Nanos, score: Rounding)
    requires Consistent(db, score) && Lookup(db.items, svr.addr) == Some(svr) && (u.QueuePort? || u.Submit?)
    ensures var r := Exec(db, CallOn(u, svr, now), now, score);
            && r.outcome.Saved? && Consistent(r.db, score)
            && Honest(db, Effect(r.db, [PortOrder(svr, max)]))
  {
    hide Exec, Has, UpdateStatus, Consistent, RetryBit, CallOn;
    UpdateStored(db, u, svr, now, score);
    MarkedStatus(u, svr, now);
    var orders := [PortOrder(svr, max)];
    assert orders[0].probe.addr == svr.addr && orders[0].probe.goal == GoalPort;
    assert Promised(orders, svr.addr, GoalPort);
    KnownBits();
    forall g ensures Has(UpdateStatus(svr.status, PORT_RETRY), RetryBit(g)) <==>
      Has(svr.status, RetryBit(g)) || g == GoalPort {
      RetryBitsMarked(svr.status, PORT_RETRY, g);
    }
    var db' := Exec(db, CallOn(u, svr, now), now, score).db;
    forall a ensures HonestAt(db, db', orders, a) {
      if a != svr.addr {
        assert Lookup(db'.items, a) == Lookup(db.items, a);
      }
    }
  }

  lemma MarkedStatus(u: UseCall, svr: Server, now: Nanos)
    requires u.QueuePort? || u.Submit?
    ensures CallOn(u, svr, now).svr.status == UpdateStatus(svr.status, PORT_RETRY)
    ensures CallOn(u, svr, now).svr.addr == svr.addr
  {
    hide UpdateStatus, Has;
  }

  /** Honesty composes: the second effect may be judged against the store that the first one left. */
  lemma HonestThen(db: Db, mid: Db, e: Effect)
    requires Honest(db, Effect(mid, [])) && Honest(mid, e)
    ensures Honest(db, e)
  {
    hide Has;
    forall a ensures HonestAt(db, e.db, e.orders, a) {
      assert HonestAt(db, mid, [], a) && HonestAt(mid, e.db, e.orders, a);
    }
  }

  lemma HonestSame(db: Db)
    ensures Honest(db, Effect(db, []))
  {
  }

  /** A report saves a record with the retry bits that it had before. */
  lemma ReportCallIsHonest(db: Db, svr: Server, info: Info, now: Nanos, score: Rounding)
    requires Consistent(db, score)
    requires Lookup(db.items, svr.addr) == Some(svr) || (svr.addr !in db.items && svr.status == NEW)
    ensures var r := Exec(db, ReportCall(svr, info, now), now, score);
            && r.outcome.Saved? && Consistent(r.db, score)
            && Lookup(r.db.items, svr.addr) == Some(r.outcome.svr) && r.outcome.svr.addr == svr.addr
            && Honest(db, Effect(r.db, []))
  {
    var call := ReportCall(svr, info, now);
    assert Sane(call) by {
      hide UpdateStatus;
    }
    ExecAt(db, call, now, score);
    KnownBits();
    hide Consistent, Has, UpdateStatus, Commit, Sane;
    forall g ensures Has(UpdateStatus(svr.status, MASTER | INFO), RetryBit(g)) <==> Has(svr.status, RetryBit(g)) {
      RetryBitsMarked(svr.status, MASTER | INFO, g);
    }
  }

  lemma ReportIsHonest(db: Db, a: Addr, port: int, valid: bool, info: Option<Info>, max: int, now: Nanos,
          score: Rounding)
    requires Consistent(db, score)
    ensures var e := ReportedServer(db, a, port, valid, info, max, now, score).effect;
            Consistent(e.db, score) && Honest(db, e)
  {
    HonestSame(db);
    var held := Lookup(db.items, a);
    if (held.Some? || NewServer(a, port).Some?) && valid && info.Some? && info.value.passes {
      var svr := if held.Some? then held.value else NewServer(a, port).value;
      assert svr.addr == a;
      ReportCallIsHonest(db, svr, info.value, now, score);
      var saved := Exec(db, ReportCall(svr, info.value, now), now, score);
      HonestSame(saved.db);
      MarkIsHonest(saved.db, QueuePort, saved.outcome.svr, max, now, score);
      hide Exec, Honest, Consistent, HasNo;
      HonestThen(db, saved.db, MaybeDiscoverPort(saved.db, saved.outcome.svr, max, now, score));
    }
  }

  lemma CreateIsHonest(db: Db, svr: Server, now: Nanos, score: Rounding)
    requires Consistent(db, score) && svr.addr !in db.items && svr.status == NEW
    ensures var r := Exec(db, CreateCall(svr), now, score);
            && r.outcome == Saved(svr.Bumped()) && Consistent(r.db, score)
            && Lookup(r.db.items, svr.addr) == Some(r.outcome.svr) && r.outcome.svr.addr == svr.addr
            && Honest(db, Effect(r.db, []))
  {
    ExecAt(db, CreateCall(svr), now, score);
    KnownBits();
    hide Consistent, Has, Commit, Sane;
  }

  lemma DiscoverIsHonest(db: Db, svr: Server, max: int, now: Nanos, score: Rounding)
    requires Consistent(db, score) && Lookup(db.items, svr.addr) == Some(svr)
    ensures var e := MaybeDiscoverServer(db, svr, max, now, score).effect;
            Consistent(e.db, score) && Honest(db, e)
  {
    HonestSame(db);
    MarkIsHonest(db, UseCall.Submit, svr, max, now, score);
    hide Exec, Honest, Consistent, Has, HasAny;
  }

  /** A server is created and then handled like one that was found. */
  lemma CreateThenDiscover(db: Db, svr: Server, max: int, now: Nanos, score: Rounding)
    requires Consistent(db, score) && svr.addr !in db.items && svr.status == NEW
    ensures var created := Exec(db, CreateCall(svr), now, score);
            && created.outcome.Saved?
            && var e := MaybeDiscoverServer(created.db, created.outcome.svr, max, now, score).effect;
               Consistent(e.db, score) && Honest(db, e)
  {
    hide Exec, MaybeDiscoverServer, Honest, Consistent, CreateCall;
    CreateIsHonest(db, svr, now, score);
    var created := Exec(db, CreateCall(svr), now, score);
    DiscoverIsHonest(created.db, created.outcome.svr, max, now, score);
    HonestThen(db, created.db, MaybeDiscoverServer(created.db, created.outcome.svr, max, now, score).effect);
  }

  lemma StoredAddress(db: Db, a: Addr, score: Rounding)
    requires Consistent(db, score)
    ensures a in db.items ==> db.items[a].addr == a
  {
  }

  lemma SubmitIsHonest(db: Db, a: Addr, max: int, now: Nanos, score: Rounding)
    requires Consistent(db, score)
    ensures var e := SubmittedServer(db, a, max, now, score).effect;
            Consistent(e.db, score) && Honest(db, e)
  {
    hide Exec, MaybeDiscoverServer, Honest, Consistent, CreateCall;
    HonestSame(db);
    StoredAddress(db, a, score);
    if a in db.items {
      DiscoverIsHonest(db, db.items[a], max, now, score);
    } else if NewServer(a, a.port + 1).Some? {
      CreateThenDiscover(db, NewServer(a, a.port + 1).value, max, now, score);
    }
  }

  lemma RenewIsHonest(db: Db, who: Identity, ip: int, now: Nanos, score: Rounding)
    requires Consistent(db, score)
    ensures var e := Renewed(db, who, ip, now, score).effect;
            Consistent(e.db, score) && Honest(db, e)
  {
    HonestSame(db);
    if who.Known? && who.addr in db.items {
      UpdateStored(db, UseCall.Renew, db.items[who.addr], now, score);
      hide Exec, Consistent, Has;
    }
  }

  /** A removal leaves every other record as it was. */
  lemma RemovalIsHonest(db: Db, u: UseCall, svr: Server, now: Nanos, score: Rounding)
    requires Consistent(db, score) && (u.Discard? || u.Clean?)
    ensures var r := Exec(db, CallOn(u, svr, now), now, score);
            Consistent(r.db, score) && Honest(db, Effect(r.db, []))
  {
    var call := CallOn(u, svr, now);
    UpdateSane(u, svr, now);
    ExecAt(db, call, now, score);
    hide Commit, Consistent, Has, Sane;
  }

  lemma {:induction false} CleanIsHonest(db: Db, servers: seq<Server>, cutoff: Nanos, now: Nanos, score: Rounding)
    requires Consistent(db, score)
    ensures Consistent(Cleaned(db, servers, cutoff, now, score), score)
    ensures Honest(db, Effect(Cleaned(db, servers, cutoff, now, score), []))
  {
    hide Exec, Consistent, Honest;
    if servers == [] {
      HonestSame(db);
    } else {
      var n := |servers| - 1;
      CleanIsHonest(db, servers[..n], cutoff, now, score);
      var mid := Cleaned(db, servers[..n], cutoff, now, score);
      RemovalIsHonest(mid, UseCall.Clean(cutoff), servers[n], now, score);
      HonestThen(db, mid, Effect(Cleaned(db, servers, cutoff, now, score), []));
    }
  }

  lemma EffectIsHonest(w: World, e: Event, score: Rounding)
    requires Consistent(w.db, score)
    ensures Consistent(EffectOf(w, e, score).db, score) && Honest(w.db, EffectOf(w, e, score))
  {
    HonestSame(w.db);
    hide ReportedServer, SubmittedServer, Renewed, Cleaned, Consistent, Exec, Has;
    match e
    case Report(a, port, valid, info, max) => ReportIsHonest(w.db, a, port, valid, info, max, w.clock, score);
    case Submit(a, max) => SubmitIsHonest(w.db, a, max, w.clock, score);
    case Renew(who, ip) => RenewIsHonest(w.db, who, ip, w.clock, score);
    case Remove(a, _) =>
      if a in w.db.items {
        RemovalIsHonest(w.db, Discard, w.db.items[a], w.clock, score);
      }
    case Clean(servers, cutoff) => CleanIsHonest(w.db, servers, cutoff, w.clock, score);
    case _ =>
  }

  // ---- the execution of a probe ----------------------------------------------------------

  /** What handling a probe does to the retry bits. */
  lemma RetryBitsHandled(goal: Goal, r: Result, svr: Server, now: Nanos, g: Goal)
    ensures Has(HandleSuccess(goal, r, svr, now).status, RetryBit(g)) ==> g != goal && Has(svr.status, RetryBit(g))
    ensures Has(HandleFailure(goal, svr).status, RetryBit(g)) ==> g != goal && Has(svr.status, RetryBit(g))
    ensures Has(HandleRetry(goal, svr).status, RetryBit(g)) ==> g == goal || Has(svr.status, RetryBit(g))
  {
  }

  /** The retry bit of the probe's own goal is set afterwards only if the probe is retried. */
  lemma ProbedBits(db: Db, p: Probe, found: Option<Result>, delay: nat, now: Nanos, score: Rounding)
    requires Consistent(db, score)
    ensures var ran := Probed(db, p, found, delay, now, score);
            var e := ran.effect;
            && Consistent(e.db, score)
            && (forall x :: x != p.addr ==> Lookup(e.db.items, x) == Lookup(db.items, x))
            && (p.addr in e.db.items <==> p.addr in db.items)
            && (p.addr in db.items ==> forall g :: Has(e.db.items[p.addr].status, RetryBit(g)) ==>
                  if g == p.goal then e.orders != [] else Has(db.items[p.addr].status, RetryBit(g)))
            && (|| e.orders == []
                || (IncRetries(p).Some? && e.orders == [Order(IncRetries(p).value, Some(now + delay), None)]))
  {
    var held := Lookup(db.items, p.addr);
    if held.Some? {
      var u := if found.Some? then Succeed(p.goal, found.value) else if IncRetries(p).None? then Fail(p.goal)
        else Requeue(p.goal);
      assert held.value.addr == p.addr;
      UpdateStored(db, u, held.value, now, score);
      hide Exec, Consistent, HandleSuccess, HandleRetry, HandleFailure, Has, RetryBit;
      forall g {
        RetryBitsHandled(p.goal, if found.Some? then found.value else Result(BLANK_DETAILS, 0), held.value, now, g);
      }
    }
  }

  /** The executed probe is gone, or back in the queue for good; other probes are untouched. */
  ghost predicate TasksAfter(tasks: map<nat, Task>, tasks': map<nat, Task>, o: nat, requeued: bool)
    requires o in tasks
  {
    && (forall k :: k in tasks && k != o ==> k in tasks' && tasks'[k] == tasks[k])
    && (requeued ==> o in tasks' && tasks'[o].expires.None?
                     && tasks'[o].probe.addr == tasks[o].probe.addr && tasks'[o].probe.goal == tasks[o].probe.goal)
  }

  lemma ExecuteKeepsBackedAt(w: World, t: World, o: nat, requeued: bool, due: set<Addr>, a: Addr)
    requires o in w.tasks && TasksAfter(w.tasks, t.tasks, o, requeued) && BackedAt(w.db, w.tasks, due, a)
    requires var p := w.tasks[o].probe;
             && (a != p.addr ==> Lookup(t.db.items, a) == Lookup(w.db.items, a))
             && (a == p.addr && a in t.db.items ==>
                   a in w.db.items && forall g :: Has(t.db.items[a].status, RetryBit(g)) ==>
                   if g == p.goal then requeued else Has(w.db.items[a].status, RetryBit(g)))
    ensures BackedAt(t.db, t.tasks, due, a)
  {
    hide Has;
    var p := w.tasks[o].probe;
    forall g | a in t.db.items && Has(t.db.items[a].status, RetryBit(g)) ensures Covered(t.tasks, due, a, g) {
      if a == p.addr && g == p.goal {
        assert t.tasks[o].probe.addr == a;
      } else if Backing(w.tasks, a, g) {
        var k :| k in w.tasks && w.tasks[k].probe.addr == a && w.tasks[k].probe.goal == g && w.tasks[k].expires.None?;
        assert t.tasks[k] == w.tasks[k];
      }
    }
  }

  lemma ExecuteKeepsBacked(w: World, o: nat, found: Option<Result>, delay: nat, due: set<Addr>, score: Rounding)
    requires Consistent(w.db, score) && BackedUpTo(w, due)
    ensures Consistent(Executed(w, o, found, delay, score).db, score)
    ensures BackedUpTo(Executed(w, o, found, delay, score), due)
  {
    hide Probed, Consistent, Has, BackedAt, RetryBit;
    var t := Executed(w, o, found, delay, score);
    if t != w {
      var p := w.tasks[o].probe;
      ProbedBits(w.db, p, found, delay, w.clock, score);
      var requeued := Probed(w.db, p, found, delay, w.clock, score).effect.orders != [];
      assert TasksAfter(w.tasks, t.tasks, o, requeued);
      forall a ensures BackedAt(t.db, t.tasks, due, a) {
        ExecuteKeepsBackedAt(w, t, o, requeued, due, a);
      }
    }
  }

  lemma ExecuteKeepsCounted(w: World, o: nat, found: Option<Result>, delay: nat, score: Rounding)
    requires Counted(w)
    ensures Counted(Executed(w, o, found, delay, score))
  {
    hide Exec;
  }

  lemma PopKeeps(w: World, o: nat, due: set<Addr>)
    requires BackedUpTo(w, due) && Counted(w)
    ensures BackedUpTo(Popped(w, o), due) && Counted(Popped(w, o)) && Popped(w, o).db == w.db
  {
    var t := Popped(w, o);
    hide Has;
    forall a ensures BackedAt(t.db, t.tasks, due, a) {
      assert BackedAt(w.db, w.tasks, due, a);
      forall g | Backing(w.tasks, a, g) ensures Backing(t.tasks, a, g) {
        var k :| k in w.tasks && w.tasks[k].probe.addr == a && w.tasks[k].probe.goal == g && w.tasks[k].expires.None?;
        assert k in t.tasks && t.tasks[k].probe == w.tasks[k].probe;
      }
    }
  }

  // ---- every reachable state ---------------------------------------------------------------

  lemma StepKeepsUpTo(w: World, e: Event, due: set<Addr>, score: Rounding)
    requires InvUpTo(w, due, score)
    ensures InvUpTo(Step(w, e, score), due, score)
  {
    hide Popped, Executed, Took, EffectOf, Consistent, BackedUpTo, Counted, Honest;
    match e
    case Pop(o) => PopKeeps(w, o, due);
    case Execute(o, found, delay) =>
      ExecuteKeepsBacked(w, o, found, delay, due, score);
      ExecuteKeepsCounted(w, o, found, delay, score);
    case Tick(d) => TickKeeps(w, d, due);
    case _ =>
      EffectIsHonest(w, e, score);
      HonestKeeps(w, EffectOf(w, e, score), due);
  }

  lemma StepKeeps(w: World, e: Event, score: Rounding)
    requires Inv(w, score)
    ensures Inv(Step(w, e, score), score)
  {
    hide InvUpTo, Step;
    StepKeepsUpTo(w, e, {}, score);
  }

  lemma TickKeeps(w: World, d: nat, due: set<Addr>)
    requires BackedUpTo(w, due) && Counted(w)
    ensures BackedUpTo(w.(clock := w.clock + d), due) && Counted(w.(clock := w.clock + d))
  {
    hide Has, Backing;
  }

  lemma {:induction false} RunKeeps(start: Nanos, events: seq<Event>, score: Rounding)
    ensures Inv(Run(Init(start), events, score), score)
    decreases |events|
  {
    if events == [] {
    } else {
      hide Inv, Step;
      RunKeeps(start, events[..|events| - 1], score);
      StepKeeps(Run(Init(start), events[..|events| - 1], score), events[|events| - 1], score);
    }
  }

  /**
   * In every reachable state a server that waits for a port retry has a port probe queued or in
   * flight that never expires, and a server that waits for a details retry has such a details probe.
   */
  lemma RetriesAreBacked(start: Nanos, events: seq<Event>, score: Rounding, a: Addr)
    ensures var w := Run(Init(start), events, score);
            && (a in w.db.items && Has(w.db.items[a].status, PORT_RETRY) ==> Backing(w.tasks, a, GoalPort))
            && (a in w.db.items && Has(w.db.items[a].status, DETAILS_RETRY) ==> Backing(w.tasks, a, GoalDetails))
  {
    hide Run, Has, Backing, Consistent, Counted;
    RunKeeps(start, events, score);
    var w := Run(Init(start), events, score);
    assert BackedAt(w.db, w.tasks, {}, a);
    assert RetryBit(GoalPort) == PORT_RETRY && RetryBit(GoalDetails) == DETAILS_RETRY;
  }

  /**
   * A probe is retried only within its limit, and a submission is never executed more often than
   * once and once more for each retry it may have, whatever else happens.
   */
  lemma RunsAreBounded(start: Nanos, events: seq<Event>, score: Rounding, o: nat)
    ensures var w := Run(Init(start), events, score);
            && |w.runs| == |w.caps|
            && (o < |w.runs| ==> w.runs[o] <= Allowed(w.caps[o]))
            && (o in w.tasks ==>
                 o < |w.runs| && w.tasks[o].probe.retries == w.runs[o] && w.tasks[o].probe.maxRetries == w.caps[o])
            && (o in w.tasks && w.caps[o] >= 0 ==> 0 <= w.tasks[o].probe.retries <= w.tasks[o].probe.maxRetries)
  {
    hide Run, Consistent, BackedUpTo;
    RunKeeps(start, events, score);
  }

  // ---- when probes are run -----------------------------------------------------------------------

  /** An order that makes sense becomes a task under the next number, for its earliest time or for now. */
  lemma NewTask(w: World, o: Order)
    ensures Submitted(w, o) ==
      if o.after.Some? && o.before.Some? && o.after.value >= o.before.value then w
      else w.(tasks := w.tasks[|w.runs| := Task(o.probe, if o.after.Some? then o.after.value else w.clock, o.before,
                                                false)],
              runs := w.runs + [0], caps := w.caps + [o.probe.maxRetries])
  {
  }

  /** A pop takes a task whose time has come: it is run if its deadline has not passed, and dropped if it has. */
  lemma PopMeans(w: World, o: nat)
    requires o in w.tasks && !w.tasks[o].flying
    ensures var t := w.tasks[o];
            Popped(w, o).tasks ==
              if w.clock < t.readyAt then w.tasks
              else if t.expires.Some? && t.expires.value < w.clock then w.tasks - {o}
              else w.tasks[o := t.(flying := true)]
  {
  }

  ghost predicate InTime(w: World) {
    forall o :: o in w.tasks && w.tasks[o].flying ==> w.tasks[o].readyAt <= w.clock
  }

  lemma {:induction false} SubmittedInTime(w: World, orders: seq<Order>)
    requires InTime(w)
    ensures InTime(SubmittedAll(w, orders)) && SubmittedAll(w, orders).clock == w.clock
  {
    if orders != [] {
      SubmittedInTime(w, orders[..|orders| - 1]);
    }
  }

  lemma StepInTime(w: World, e: Event, score: Rounding)
    requires InTime(w)
    ensures InTime(Step(w, e, score))
  {
    hide EffectOf, Probed, SubmittedAll;
    if !e.Pop? && !e.Execute? && !e.Tick? {
      SubmittedInTime(w.(db := EffectOf(w, e, score).db), EffectOf(w, e, score).orders);
    }
  }

  /** In every run whatever is being executed has waited for its earliest time. */
  lemma {:induction false} NothingFliesEarly(start: Nanos, events: seq<Event>, score: Rounding)
    ensures InTime(Run(Init(start), events, score))
    decreases |events|
  {
    hide Step;
    if events == [] {
    } else {
      NothingFliesEarly(start, events[..|events| - 1], score);
      StepInTime(Run(Init(start), events[..|events| - 1], score), events[|events| - 1], score);
    }
  }

  // ---- the work left -------------------------------------------------------------------------

  /** The executions a probe may still cause. */
  function Cost(p: Probe): (c: nat)
    ensures c > 0
  {
    if p.retries < p.maxRetries then p.maxRetries - p.retries + 1 else 1
  }

  /** The executions that the first `n` submissions may still cause. */
  function Load(tasks: map<nat, Task>, n: nat): nat {
    if n == 0 then 0 else Load(tasks, n - 1) + if n - 1 in tasks then Cost(tasks[n - 1].probe) else 0
  }

  function LoadOf(w: World): nat {
    Load(w.tasks, |w.runs|)
  }

  /** Nothing is submitted. */
  predicate Quiet(e: Event) {
    !e.Report? && !e.Submit? && !e.Refresh? && !e.Revive?
  }

  /** The step executes a probe or drops one that has expired. */
  predicate Consumes(w: World, e: Event) {
    match e
    case Pop(o) =>
      && o in w.tasks && !w.tasks[o].flying && w.tasks[o].readyAt <= w.clock
      && Expired(Item(w.tasks[o].probe, w.tasks[o].expires), w.clock)
    case Execute(o, _, _) => o in w.tasks && w.tasks[o].flying && o < |w.runs|
    case _ => false
  }

  lemma {:induction false} LoadWithout(tasks: map<nat, Task>, n: nat, o: nat)
    requires o in tasks && o < n
    ensures Load(tasks - {o}, n) == Load(tasks, n) - Cost(tasks[o].probe)
  {
    if o < n - 1 {
      LoadWithout(tasks, n - 1, o);
    } else {
      LoadSame(tasks, tasks - {o}, n - 1);
    }
  }

  lemma {:induction false} LoadReplaced(tasks: map<nat, Task>, n: nat, o: nat, t: Task)
    requires o in tasks && o < n
    ensures Load(tasks[o := t], n) == Load(tasks, n) - Cost(tasks[o].probe) + Cost(t.probe)
  {
    if o < n - 1 {
      LoadReplaced(tasks, n - 1, o, t);
    } else {
      LoadSame(tasks, tasks[o := t], n - 1);
    }
  }

  lemma {:induction false} LoadSame(tasks: map<nat, Task>, tasks': map<nat, Task>, n: nat)
    requires forall o :: 0 <= o < n ==>
      (o in tasks <==> o in tasks') && (o in tasks ==> tasks'[o].probe == tasks[o].probe)
    ensures Load(tasks', n) == Load(tasks, n)
  {
    if n > 0 {
      LoadSame(tasks, tasks', n - 1);
    }
  }

  lemma QuietOrdersNothing(w: World, e: Event, score: Rounding)
    requires Quiet(e) && !e.Pop? && !e.Execute? && !e.Tick?
    ensures EffectOf(w, e, score).orders == []
    ensures Step(w, e, score).tasks == w.tasks && Step(w, e, score).runs == w.runs
  {
    hide Exec, Cleaned;
  }

  lemma ExecuteShrinks(w: World, o: nat, found: Option<Result>, delay: nat, score: Rounding)
    requires Counted(w) && Consumes(w, Execute(o, found, delay))
    ensures LoadOf(Executed(w, o, found, delay, score)) < LoadOf(w)
  {
    var t := Executed(w, o, found, delay, score);
    LoadWithout(w.tasks, |w.runs|, o);
    if t.tasks != w.tasks - {o} {
      LoadReplaced(w.tasks, |w.runs|, o, t.tasks[o]);
    }
    hide Exec, Load;
  }

  lemma PopShrinks(w: World, o: nat)
    requires Counted(w)
    ensures LoadOf(Popped(w, o)) <= LoadOf(w)
    ensures Consumes(w, Pop(o)) ==> LoadOf(Popped(w, o)) < LoadOf(w)
  {
    if o in w.tasks {
      LoadWithout(w.tasks, |w.runs|, o);
      LoadReplaced(w.tasks, |w.runs|, o, w.tasks[o].(flying := true));
    }
  }

  /** Without submissions the work left never grows, and every execution and every drop makes it smaller. */
  lemma QuietStepShrinks(w: World, e: Event, score: Rounding)
    requires Counted(w) && Quiet(e)
    ensures LoadOf(Step(w, e, score)) <= LoadOf(w)
    ensures Consumes(w, e) ==> LoadOf(Step(w, e, score)) < LoadOf(w)
  {
    hide Executed, Popped, Took, Load, Counted;
    match e
    case Pop(o) => PopShrinks(w, o);
    case Execute(o, found, delay) =>
      if Consumes(w, e) {
        ExecuteShrinks(w, o, found, delay, score);
      } else {
        ExecuteIdle(w, o, found, delay, score);
      }
    case Tick(d) =>
    case _ => QuietOrdersNothing(w, e, score);
  }

  lemma ExecuteIdle(w: World, o: nat, found: Option<Result>, delay: nat, score: Rounding)
    requires !Consumes(w, Execute(o, found, delay))
    ensures Executed(w, o, found, delay, score) == w
  {
  }

  /** How many executions and drops a run has. */
  function Consumed(w: World, events: seq<Event>, score: Rounding): nat {
    if events == [] then 0
    else
      var front := events[..|events| - 1];
      Consumed(w, front, score) + if Consumes(Run(w, front, score), events[|events| - 1]) then 1 else 0
  }

  /** Once nothing more is submitted, at most as many executions and drops follow as work was left. */
  lemma {:induction false} QuietRunsDrain(w: World, events: seq<Event>, score: Rounding)
    requires Inv(w, score) && forall i :: 0 <= i < |events| ==> Quiet(events[i])
    ensures Inv(Run(w, events, score), score)
    ensures Consumed(w, events, score) + LoadOf(Run(w, events, score)) <= LoadOf(w)
    decreases |events|
  {
    hide Step, LoadOf, Consumes, Consistent, BackedUpTo, Counted;
    if events != [] {
      var front := events[..|events| - 1];
      QuietRunsDrain(w, front, score);
      var v := Run(w, front, score);
      StepKeeps(v, events[|events| - 1], score);
      QuietStepShrinks(v, events[|events| - 1], score);
    }
  }

  lemma {:induction false} RunsCompose(w: World, a: seq<Event>, b: seq<Event>, score: Rounding)
    ensures Run(w, a + b, score) == Run(Run(w, a, score), b, score)
    decreases |b|
  {
    hide Step;
    if b == [] {
      assert a + b == a;
    } else {
      RunsCompose(w, a, b[..|b| - 1], score);
      assert (a + b)[..|a + b| - 1] == a + b[..|b| - 1];
    }
  }

  /** An outstanding probe can always be brought to the point where it is executed or dropped. */
  lemma CanProgress(w: World, score: Rounding) returns (events: seq<Event>)
    requires Inv(w, score) && w.tasks != map[]
    ensures forall i :: 0 <= i < |events| ==> Quiet(events[i])
    ensures LoadOf(Run(w, events, score)) < LoadOf(w) && Inv(Run(w, events, score), score)
  {
    hide Executed, Load, Consistent, BackedUpTo;
    var o :| o in w.tasks;
    var wait := Tick(if w.tasks[o].readyAt > w.clock then w.tasks[o].readyAt - w.clock else 0);
    var w1 := Step(w, wait, score);
    var w2 := Step(w1, Pop(o), score);
    var w3 := Step(w2, Execute(o, None, 0), score);
    StepKeeps(w, wait, score);
    StepKeeps(w1, Pop(o), score);
    StepKeeps(w2, Execute(o, None, 0), score);
    QuietStepShrinks(w1, Pop(o), score);
    QuietStepShrinks(w2, Execute(o, None, 0), score);
    assert Consumes(w1, Pop(o)) || Consumes(w2, Execute(o, None, 0));
    events := [wait, Pop(o), Execute(o, None, 0)];
    hide LoadOf, Popped, Consumes, Counted;
    ThreeSteps(w, wait, Pop(o), Execute(o, None, 0), score);
  }

  lemma ThreeSteps(w: World, a: Event, b: Event, c: Event, score: Rounding)
    ensures Run(w, [a, b, c], score) == Step(Step(Step(w, a, score), b, score), c, score)
  {
    hide Step;
    assert [a, b, c][..2] == [a, b] && [a, b][..1] == [a] && [a][..0] == [];
    assert Run(w, [a], score) == Step(w, a, score);
    assert Run(w, [a, b], score) == Step(Run(w, [a], score), b, score);
  }

  /** The system drains: from every state time, pops and executions alone can empty the queue. */
  lemma CanDrain(w: World, score: Rounding) returns (events: seq<Event>)
    requires Inv(w, score)
    ensures forall i :: 0 <= i < |events| ==> Quiet(events[i])
    ensures Run(w, events, score).tasks == map[]
    decreases LoadOf(w)
  {
    hide Step, Inv, LoadOf;
    if w.tasks == map[] {
      events := [];
    } else {
      var first := CanProgress(w, score);
      var rest := CanDrain(Run(w, first, score), score);
      RunsCompose(w, first, rest, score);
      events := first + rest;
    }
  }
}
