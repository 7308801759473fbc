/** What the verdict of a use case tells about the record that is then stored. */
module Outcomes {
  import opened Entities
  import opened Store
  import opened Probes
  import opened UseCalls
  import opened Instances
  import opened UseCases
  import opened Discovery

  /** The record that the effect leaves at the address. */
  function StoredAt(e: Effect, a: Addr): Option<Server> {
    Lookup(e.db.items, a)
  }

  // ---- submissions ---------------------------------------------------------------------

  lemma SubmitMarks(s: Status)
    ensures HasAny(UpdateStatus(s, PORT_RETRY), PORT_RETRY | DETAILS_RETRY)
    ensures !Has(s, DETAILS) ==> !Has(UpdateStatus(s, PORT_RETRY), DETAILS)
    ensures Has(UpdateStatus(s, PORT_RETRY), NO_PORT) == Has(s, NO_PORT)
    ensures !HasAny(NEW, DETAILS | NO_PORT | PORT_RETRY | DETAILS_RETRY)
  {
  }

  /** One probe of the game port of the server, to be run at once and without a deadline. */
  predicate IsPortProbe(orders: seq<Order>, a: Addr, max: int) {
    orders == [Order(Probe(a, a.port, GoalPort, 0, max), None, None)]
  }

  /** The record has been marked for a port retry and saved, and is otherwise as before. */
  predicate MarkedForPort(before: Server, after: Server) {
    && after == before.(status := after.status, version := before.version + 1)
    && Has(after.status, PORT_RETRY) && !Has(after.status, NEW)
    && SameOutside(after.status, before.status, NEW | PORT_RETRY)
  }

  lemma NewIsMarked(svr: Server, after: Server)
    requires svr.status == NEW && MarkedForPort(svr, after)
    ensures after == svr.(status := PORT_RETRY, version := svr.version + 1)
  {
  }

  lemma NewIsUndecided()
    ensures !Has(NEW, DETAILS) && !Has(NEW, NO_PORT) && !HasAny(NEW, PORT_RETRY | DETAILS_RETRY)
  {
  }

  lemma PortMark(s: Status)
    ensures var t := UpdateStatus(s, PORT_RETRY);
            Has(t, PORT_RETRY) && !Has(t, NEW) && SameOutside(t, s, NEW | PORT_RETRY)
  {
  }

  lemma SubmitBits(s: Status)
    ensures HasAny(s, DETAILS | PORT_RETRY | DETAILS_RETRY) <==>
      Has(s, DETAILS) || HasAny(s, PORT_RETRY | DETAILS_RETRY)
    ensures HasAny(s, DETAILS | PORT_RETRY | DETAILS_RETRY | NO_PORT) <==>
      Has(s, DETAILS) || HasAny(s, PORT_RETRY | DETAILS_RETRY) || Has(s, NO_PORT)
  {
  }

  lemma DiscoverVerdict(db: Db, svr: Server, max: int, now: Nanos, score: Rounding)
    requires Consistent(db, score) && Lookup(db.items, svr.addr) == Some(svr)
    ensures var ran := MaybeDiscoverServer(db, svr, max, now, score);
            var stored := StoredAt(ran.effect, svr.addr);
            && stored.Some?
            && (ran.verdict.AlreadyDiscovered? <==> Has(stored.value.status, DETAILS))
            && (ran.verdict.InProgress? ==> HasAny(stored.value.status, PORT_RETRY | DETAILS_RETRY))
            && (ran.verdict.NoQueryablePort? ==> Has(stored.value.status, NO_PORT) && stored.value == svr)
            && (ran.verdict.AlreadyDiscovered? || ran.verdict.InProgress? || ran.verdict.NoQueryablePort?)
            && (ran.effect.orders != [] <==> stored.value != svr)
            && (ran.effect.orders != [] <==> !HasAny(svr.status, DETAILS | PORT_RETRY | DETAILS_RETRY | NO_PORT))
            && (ran.verdict.NoQueryablePort? <==>
                  Has(svr.status, NO_PORT) && !HasAny(svr.status, DETAILS | PORT_RETRY | DETAILS_RETRY))
            && (stored.value == svr || MarkedForPort(svr, stored.value))
            && (ran.effect.orders == [] || IsPortProbe(ran.effect.orders, svr.addr, max))
  {
    hide Exec, Consistent, Has, HasAny, UpdateStatus, SameOutside;
    UpdateStored(db, UseCall.Submit, svr, now, score);
    SubmitMarks(svr.status);
    SubmitBits(svr.status);
    PortMark(svr.status);
  }

  /**
   * A submission that is accepted leaves the server stored, and what it is told about the server
   * is true of the stored record; a probe is queued exactly when the record was marked for it.
   */
  lemma SubmissionVerdict(db: Db, a: Addr, max: int, now: Nanos, score: Rounding)
    requires Consistent(db, score)
    ensures var ran := SubmittedServer(db, a, max, now, score);
            var stored := StoredAt(ran.effect, a);
            && (ran.verdict.CannotCreate? <==> a !in db.items && !(1 <= a.port + 1 <= 65535))
            && (ran.verdict.CannotCreate? ==> ran.effect == Effect(db, []))
            && (!ran.verdict.CannotCreate? ==>
                  && stored.Some?
                  && (ran.verdict.AlreadyDiscovered? <==> Has(stored.value.status, DETAILS))
                  && (ran.verdict.InProgress? ==> HasAny(stored.value.status, PORT_RETRY | DETAILS_RETRY))
                  && (ran.verdict.NoQueryablePort? ==> Has(stored.value.status, NO_PORT))
                  && (ran.effect.orders == [] || IsPortProbe(ran.effect.orders, a, max))
                  && (if a in db.items then stored.value == db.items[a] || MarkedForPort(db.items[a], stored.value)
                      else stored.value == Server(a, a.port + 1, PORT_RETRY, BLANK_INFO, BLANK_DETAILS, None, 2))
                  && (ran.effect.orders == [] <==> stored == Lookup(db.items, a))
                  && (ran.effect.orders == [] <==>
                        a in db.items && HasAny(db.items[a].status, DETAILS | PORT_RETRY | DETAILS_RETRY | NO_PORT)))
  {
    hide Exec, Consistent, Has, HasAny, MaybeDiscoverServer, CreateCall, Honest, UpdateStatus, MarkedForPort;
    StoredAddress(db, a, score);
    if a in db.items {
      DiscoverVerdict(db, db.items[a], max, now, score);
    } else if NewServer(a, a.port + 1).Some? {
      var svr := NewServer(a, a.port + 1).value;
      CreateIsHonest(db, svr, now, score);
      var created := Exec(db, CreateCall(svr), now, score);
      DiscoverVerdict(created.db, created.outcome.svr, max, now, score);
      NewIsUndecided();
      var e := MaybeDiscoverServer(created.db, svr.Bumped(), max, now, score).effect;
      NewIsMarked(svr.Bumped(), StoredAt(e, a).value);
    }
  }

  // ---- reports ---------------------------------------------------------------------------

  /** The status of a reported server, before its port is looked for. */
  function ReportedStatus(s: Status): Status {
    UpdateStatus(s, MASTER | INFO)
  }

  /** A report adds these two bits and ends the status New; looking for the port adds one more. */
  predicate ShowsReport(before: Status, after: Status, queued: bool) {
    && Has(after, MASTER | INFO) && !Has(after, NEW)
    && SameOutside(after, before, if queued then NEW | MASTER | INFO | PORT_RETRY else NEW | MASTER | INFO)
    && (queued ==> Has(after, PORT_RETRY))
    && (queued <==> !HasAny(before, PORT | PORT_RETRY))
  }

  lemma ReportMarks(s: Status)
    ensures HasNo(ReportedStatus(s), PORT | PORT_RETRY) ==>
      ShowsReport(s, UpdateStatus(ReportedStatus(s), PORT_RETRY), true)
    ensures !HasNo(ReportedStatus(s), PORT | PORT_RETRY) ==> ShowsReport(s, ReportedStatus(s), false)
    ensures ShowsReport(s, UpdateStatus(ReportedStatus(s), PORT_RETRY), true) ==>
      HasAny(UpdateStatus(ReportedStatus(s), PORT_RETRY), PORT | PORT_RETRY)
    ensures ShowsReport(s, ReportedStatus(s), false) ==> HasAny(ReportedStatus(s), PORT | PORT_RETRY)
  {
  }

  lemma DiscoverPortOutcome(db: Db, pending: Server, max: int, now: Nanos, score: Rounding)
    requires Consistent(db, score) && Lookup(db.items, pending.addr) == Some(pending)
    ensures var e := MaybeDiscoverPort(db, pending, max, now, score);
            StoredAt(e, pending.addr) == Some(
              if HasNo(pending.status, PORT | PORT_RETRY) then pending.Marked(PORT_RETRY).Bumped() else pending)
            && if HasNo(pending.status, PORT | PORT_RETRY) then IsPortProbe(e.orders, pending.addr, max)
               else e.orders == []
  {
    UpdateStored(db, QueuePort, pending, now, score);
    hide Exec, Consistent, Has, HasNo, HasAny, UpdateStatus;
  }

  lemma ReportSaves(db: Db, svr: Server, info: Info, now: Nanos, score: Rounding)
    requires Consistent(db, score) && (Lookup(db.items, svr.addr) == Some(svr) || svr.addr !in db.items)
    ensures var r := Exec(db, ReportCall(svr, info, now), now, score);
            && r.outcome.Saved? && r.outcome.svr == Reported(svr, info, now).Bumped()
            && Consistent(r.db, score) && Lookup(r.db.items, svr.addr) == Some(r.outcome.svr)
  {
    assert Sane(ReportCall(svr, info, now)) by {
      hide UpdateStatus;
    }
    ExecAt(db, ReportCall(svr, info, now), now, score);
    hide Consistent, UpdateStatus, Commit, Sane;
  }

  /** What a report starts from: the stored server, or a new one with the reported query port. */
  function ReportBasis(db: Db, a: Addr, port: int): Server {
    if a in db.items then db.items[a] else Server(a, port, NEW, BLANK_INFO, BLANK_DETAILS, None, 0)
  }

  /**
   * A report that succeeds leaves the server stored with the reported info, refreshed at that
   * moment, listed as a master server, and with its port known or being looked for; one probe of the
   * game port is queued exactly if the port was neither known nor being retried. Nothing else about
   * the server has changed, and a report that fails changes nothing at all.
   */
  lemma ReportOutcome(db: Db, a: Addr, port: int, valid: bool, info: Option<Info>, max: int, now: Nanos,
          score: Rounding)
    requires Consistent(db, score)
    ensures var ran := ReportedServer(db, a, port, valid, info, max, now, score);
            && (ran.verdict.Done? <==>
                 (a in db.items || 1 <= port <= 65535) && valid && info.Some? && info.value.passes)
            && (!ran.verdict.Done? ==> ran.effect == Effect(db, []))
            && (ran.verdict.Done? ==> IsReported(db, ran.effect, a, port, info.value, max, now))
  {
    hide Exec, Consistent, Has, HasAny, HasNo, UpdateStatus, MaybeDiscoverPort, ReportCall, SameOutside;
    StoredAddress(db, a, score);
    if (a in db.items || 1 <= port <= 65535) && valid && info.Some? && info.value.passes {
      var svr := ReportBasis(db, a, port);
      ReportSaves(db, svr, info.value, now, score);
      ReportMarks(svr.status);
      hide ShowsReport;
      var saved := Exec(db, ReportCall(svr, info.value, now), now, score);
      DiscoverPortOutcome(saved.db, saved.outcome.svr, max, now, score);
    }
  }

  predicate IsReported(db: Db, e: Effect, a: Addr, port: int, info: Info, max: int, now: Nanos) {
    var stored, before := StoredAt(e, a), ReportBasis(db, a, port);
    && stored.Some?
    && stored.value ==
         before.(info := info, refreshedAt := Some(now), status := stored.value.status,
                 version := before.version + if e.orders == [] then 1 else 2)
    && ShowsReport(before.status, stored.value.status, e.orders != [])
    && HasAny(stored.value.status, PORT | PORT_RETRY)
    && (e.orders == [] || IsPortProbe(e.orders, a, max))
  }

  // ---- probes ------------------------------------------------------------------------------

  /** The statuses that handling a probe must leave, by its goal. */
  predicate ShowsSuccess(goal: Goal, s: Status) {
    && Has(s, INFO | DETAILS) && !HasAny(s, NO_DETAILS | DETAILS_RETRY)
    && (goal == GoalPort ==> Has(s, PORT) && !HasAny(s, PORT_RETRY | NO_PORT))
  }

  predicate ShowsFailure(goal: Goal, s: Status) {
    match goal
    case GoalPort => Has(s, NO_PORT) && !Has(s, PORT_RETRY)
    case GoalDetails => Has(s, NO_DETAILS) && !HasAny(s, INFO | DETAILS | DETAILS_RETRY | PORT)
  }

  lemma HandlersShow(goal: Goal, r: Result, svr: Server, now: Nanos)
    ensures ShowsSuccess(goal, HandleSuccess(goal, r, svr, now).status)
    ensures ShowsFailure(goal, HandleFailure(goal, svr).status)
    ensures Has(HandleRetry(goal, svr).status, RetryBit(goal))
  {
  }

  // ---- the probers' handlers -----------------------------------------------------------------

  /** The two statuses agree on all bits but the given ones. */
  predicate SameOutside(s: Status, t: Status, bits: Status) {
    ClearStatus(s, bits) == ClearStatus(t, bits)
  }

  /** The bits that a success decides; a success of either goal also ends the status New. */
  function SuccessBits(goal: Goal): Status {
    match goal
    case GoalPort => NEW | INFO | DETAILS | PORT | NO_DETAILS | DETAILS_RETRY | PORT_RETRY | NO_PORT
    case GoalDetails => NEW | INFO | DETAILS | NO_DETAILS | DETAILS_RETRY
  }

  function FailureBits(goal: Goal): Status {
    match goal
    case GoalPort => NEW | PORT_RETRY | NO_PORT
    case GoalDetails => NEW | INFO | DETAILS | DETAILS_RETRY | PORT | NO_DETAILS
  }

  /**
   * The record has the probed details and was refreshed now; its address, its version and all other
   * bits are as before.
   */
  predicate Succeeded(goal: Goal, r: Result, before: Server, after: Server, now: Nanos) {
    && after.addr == before.addr && after.version == before.version
    && after.queryPort == (if goal == GoalPort then r.port else before.queryPort)
    && after.details == r.details && after.info == r.details.info && after.refreshedAt == Some(now)
    && ShowsSuccess(goal, after.status) && !Has(after.status, NEW)
    && SameOutside(after.status, before.status, SuccessBits(goal))
  }

  /** Nothing but the status has changed, and of it only the bits that a failure decides. */
  predicate Failed(goal: Goal, before: Server, after: Server) {
    && after == before.(status := after.status)
    && ShowsFailure(goal, after.status) && !Has(after.status, NEW)
    && SameOutside(after.status, before.status, FailureBits(goal))
  }

  lemma HandledBits(goal: Goal, r: Result, svr: Server, now: Nanos)
    ensures !Has(HandleSuccess(goal, r, svr, now).status, NEW)
    ensures SameOutside(HandleSuccess(goal, r, svr, now).status, svr.status, SuccessBits(goal))
    ensures !Has(HandleFailure(goal, svr).status, NEW)
    ensures SameOutside(HandleFailure(goal, svr).status, svr.status, FailureBits(goal))
  {
  }

  lemma HandlersDo(goal: Goal, r: Result, svr: Server, now: Nanos)
    ensures Succeeded(goal, r, svr, HandleSuccess(goal, r, svr, now), now)
    ensures Failed(goal, svr, HandleFailure(goal, svr))
  {
    HandlersShow(goal, r, svr, now);
    HandledBits(goal, r, svr, now);
    hide ShowsSuccess, ShowsFailure, SameOutside, Has, UpdateStatus, ClearStatus;
  }

  /** These two statements leave no choice: a record that meets one is the handled record. */
  lemma HandlersOnlyDo(goal: Goal, r: Result, svr: Server, after: Server, now: Nanos)
    ensures Succeeded(goal, r, svr, after, now) ==> after == HandleSuccess(goal, r, svr, now)
    ensures Failed(goal, svr, after) ==> after == HandleFailure(goal, svr)
  {
    StatusIsDecided(goal, svr.status, after.status);
    hide ShowsSuccess, ShowsFailure, SameOutside, Has, UpdateStatus, ClearStatus;
  }

  lemma StatusIsDecided(goal: Goal, before: Status, after: Status)
    ensures ShowsSuccess(goal, after) && !Has(after, NEW) && SameOutside(after, before, SuccessBits(goal)) ==>
      after == match goal
               case GoalPort => ClearStatus(UpdateStatus(before, INFO | DETAILS | PORT),
                                            NO_DETAILS | DETAILS_RETRY | PORT_RETRY | NO_PORT)
               case GoalDetails => ClearStatus(UpdateStatus(before, INFO | DETAILS), NO_DETAILS | DETAILS_RETRY)
    ensures ShowsFailure(goal, after) && !Has(after, NEW) && SameOutside(after, before, FailureBits(goal)) ==>
      after == match goal
               case GoalPort => UpdateStatus(ClearStatus(before, PORT_RETRY), NO_PORT)
               case GoalDetails => UpdateStatus(ClearStatus(before, DETAILS | INFO | DETAILS_RETRY | PORT), NO_DETAILS)
  {
  }

  // ---- the execution of a probe ------------------------------------------------------------------

  /** The record waits for a retry of the probe, has been saved, and is otherwise as before. */
  predicate MarkedForRetry(goal: Goal, before: Server, after: Server) {
    var bit := if goal == GoalPort then PORT_RETRY else DETAILS_RETRY;
    && after == before.(status := after.status, version := before.version + 1)
    && Has(after.status, bit) && !Has(after.status, NEW) && SameOutside(after.status, before.status, NEW | bit)
  }

  lemma RetryMarked(goal: Goal, svr: Server)
    ensures MarkedForRetry(goal, svr, HandleRetry(goal, svr).Bumped())
  {
  }

  /**
   * After an execution the stored record is the old one with what its verdict says handled, and
   * nothing else changed; a retry is queued after its delay exactly for a retried probe.
   */
  lemma ProbeOutcome(db: Db, p: Probe, found: Option<Result>, delay: nat, now: Nanos, score: Rounding)
    requires Consistent(db, score)
    ensures var ran := Probed(db, p, found, delay, now, score);
            var stored := StoredAt(ran.effect, p.addr);
            && (ran.verdict.ServerNotFound? <==> p.addr !in db.items)
            && (ran.verdict.Done? <==> p.addr in db.items && found.Some?)
            && (ran.verdict.Retried? <==> p.addr in db.items && found.None? && p.retries < p.maxRetries)
            && (ran.verdict.OutOfRetries? <==> p.addr in db.items && found.None? && p.retries >= p.maxRetries)
            && (stored.Some? <==> p.addr in db.items)
            && (ran.verdict.Done? ==>
                  && SavedAs(db, stored.value)
                  && Succeeded(p.goal, found.value, db.items[p.addr], Unsaved(stored.value), now))
            && (ran.verdict.Retried? ==> MarkedForRetry(p.goal, db.items[p.addr], stored.value))
            && (ran.verdict.OutOfRetries? ==>
                  && SavedAs(db, stored.value)
                  && Failed(p.goal, db.items[p.addr], Unsaved(stored.value)))
            && ran.effect.orders ==
                 if ran.verdict.Retried? then [Order(p.(retries := p.retries + 1), Some(now + delay), None)] else []
  {
    hide Exec, Consistent, HandleSuccess, HandleRetry, HandleFailure, Succeeded, Failed, MarkedForRetry;
    StoredAddress(db, p.addr, score);
    if p.addr in db.items {
      var svr := db.items[p.addr];
      var r := if found.Some? then found.value else Result(BLANK_DETAILS, 0);
      HandlersDo(p.goal, r, svr, now);
      HandledVersions(p.goal, r, svr, now);
      RetryMarked(p.goal, svr);
      var u := if found.Some? then Succeed(p.goal, r) else if p.retries < p.maxRetries then Requeue(p.goal)
               else Fail(p.goal);
      UpdateStored(db, u, svr, now, score);
    }
  }

  /** The record has the next version of the one stored before. */
  predicate SavedAs(db: Db, after: Server) {
    after.addr in db.items && after.version == db.items[after.addr].version + 1
  }

  function Unsaved(svr: Server): Server {
    svr.(version := svr.version - 1)
  }

  lemma HandledVersions(goal: Goal, r: Result, svr: Server, now: Nanos)
    ensures var t := HandleSuccess(goal, r, svr, now); t.addr == svr.addr && t.version == svr.version
    ensures var t := HandleFailure(goal, svr); t.addr == svr.addr && t.version == svr.version
  {
    hide UpdateStatus, ClearStatus;
  }

  // ---- renewals and removals -------------------------------------------------------------------

  /** Putting a record back under the status it has changes no status set. */
  lemma RetagSame(db: Db, a: Addr, score: Rounding)
    requires Consistent(db, score) && a in db.items
    ensures Retag(db.sets, a, db.items[a].status) == db.sets
  {
    hide Has, Members;
    forall k | 0 <= k < 9 ensures Retag(db.sets, a, db.items[a].status)[k] == db.sets[k] {
      assert a in db.sets[k] <==> Has(db.items[a].status, Members()[k]);
    }
  }

  /** The store in which one server was refreshed: its refresh time, version and scores, and nothing else. */
  function WithRefresh(db: Db, a: Addr, now: Nanos, score: Rounding): Db
    requires a in db.items
  {
    db.(items := db.items[a := db.items[a].(refreshedAt := Some(now), version := db.items[a].version + 1)],
        updated := db.updated[a := score(now)],
        refreshed := db.refreshed[a := score(now)])
  }

  /**
   * A keepalive is accepted exactly from the address that owns the instance, for a stored server.
   * Then the refresh time of that server has moved, and nothing else; otherwise nothing has changed.
   */
  lemma RenewOutcome(db: Db, who: Identity, ip: int, now: Nanos, score: Rounding)
    requires Consistent(db, score)
    ensures var ran := Renewed(db, who, ip, now, score);
            && (ran.verdict.Done? <==> who.Known? && who.addr.ip == ip && who.addr in db.items)
            && ran.effect == Effect(if ran.verdict.Done? then WithRefresh(db, who.addr, now, score) else db, [])
  {
    if who.Known? && who.addr in db.items {
      RetagSame(db, who.addr, score);
      StoredAddress(db, who.addr, score);
    }
    hide Consistent, Retag;
  }

  /** The store without one server: gone from the records and from every index, with all others untouched. */
  function Without(db: Db, a: Addr): Db {
    Db(db.items - {a}, db.updated - {a}, db.refreshed - {a}, seq(9, k requires 0 <= k < 9 => db.sets[k] - {a}))
  }

  /** A removal is accepted exactly for a stored server at the address that owns the instance. */
  lemma RemoveOutcome(db: Db, a: Addr, who: Identity, now: Nanos, score: Rounding)
    requires Consistent(db, score)
    ensures var ran := RemovedServer(db, a, who, now, score);
            && (ran.verdict.Done? <==> a in db.items && who.Known? && who.addr.ip == a.ip)
            && ran.effect == Effect(if ran.verdict.Done? then Without(db, a) else db, [])
  {
    StoredAddress(db, a, score);
    hide Consistent;
  }
}
