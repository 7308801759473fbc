/**
 * What one late write of a use case does: the update is made with a record in hand that may no
 * longer be the stored one, because others have come in between.
 */
module Overtaken {
  import opened Entities
  import opened Store
  import opened Probes
  import opened UseCalls
  import opened UseCases
  import opened Discovery

  /** The use cases' updates of a record they hold. */
  predicate Updates(u: UseCall) {
    u.QueuePort? || u.Submit? || u.Succeed? || u.Requeue? || u.Fail? || u.Renew?
  }

  /** Those that mark it for a port retry and whose callback does the same. */
  predicate Marks(u: UseCall) {
    u.QueuePort? || u.Submit?
  }

  /** The update run on whatever is stored by then. */
  function Late(w: World, u: UseCall, svr: Server, score: Rounding): World
    requires Updates(u)
  {
    w.(db := Exec(w.db, CallOn(u, svr, w.clock), w.clock, score).db)
  }

  /** The stored record is not newer than the one in hand, so that it is overwritten without a callback. */
  predicate Overwrites(w: World, svr: Server) {
    svr.addr in w.db.items && w.db.items[svr.addr].version <= svr.version
  }

  /** The record that a late update works on: the one in hand, or the stored one when that is newer. */
  function Basis(w: World, svr: Server): Server
    requires svr.addr in w.db.items
  {
    if Overwrites(w, svr) then svr else w.db.items[svr.addr]
  }

  /** A late update touches no other record, and none at all when the server is gone. */
  lemma LateUpdate(w: World, u: UseCall, svr: Server, score: Rounding)
    requires Consistent(w.db, score) && Updates(u)
    ensures var t := Late(w, u, svr, score).db;
            && (svr.addr !in w.db.items ==> t == w.db)
            && (svr.addr in t.items <==> svr.addr in w.db.items)
            && (forall x :: x != svr.addr ==> Lookup(t.items, x) == Lookup(w.db.items, x))
            && Consistent(t, score)
  {
    UpdateSane(u, svr, w.clock);
    ExecAt(w.db, CallOn(u, svr, w.clock), w.clock, score);
    hide Put, Drop, Consistent, UpdateStatus, ClearStatus, Has;
  }

  lemma LateResult(w: World, u: UseCall, svr: Server, score: Rounding)
    requires Consistent(w.db, score) && Updates(u)
    ensures var stored := Lookup(w.db.items, svr.addr);
            Lookup(Late(w, u, svr, score).db.items, svr.addr) ==
              After(Decide(CallOn(u, svr, w.clock), stored, w.clock), stored)
  {
    hide Exec, Consistent, Decide, After, Has, UpdateStatus, ClearStatus;
    UpdateSane(u, svr, w.clock);
    ExecAt(w.db, CallOn(u, svr, w.clock), w.clock, score);
  }

  /** What the conflict callbacks that do not mark make of a stored record. */
  function Handled(u: UseCall, stored: Server, now: Nanos): Server
    requires Updates(u) && !Marks(u)
  {
    match u
    case Succeed(goal, r) => HandleSuccess(goal, r, stored, now)
    case Requeue(goal) => HandleFailure(goal, stored)
    case Fail(goal) => HandleFailure(goal, stored)
    case Renew => stored.Refreshed(now)
  }

  /** The statuses whose joint presence makes a marking callback decline. */
  function Blockers(u: UseCall): Status
    requires Marks(u)
  {
    if u.QueuePort? then PORT | PORT_RETRY else DETAILS | PORT_RETRY | DETAILS_RETRY
  }

  /** What a late update decides on a stored record. */
  lemma LateDecision(u: UseCall, stored: Server, svr: Server, now: Nanos)
    requires Updates(u)
    ensures var after := After(Decide(CallOn(u, svr, now), Some(stored), now), Some(stored));
            after == Some(
              if stored.version <= svr.version then CallOn(u, svr, now).svr.Bumped()
              else if !Marks(u) then Handled(u, stored, now).Bumped()
              else if Has(stored.status, Blockers(u)) then stored
              else stored.Marked(PORT_RETRY).Bumped())
  {
    hide Has, UpdateStatus, ClearStatus, HandleSuccess, HandleFailure, HandleRetry;
    WrittenVersion(u, svr, now);
  }

  lemma WrittenVersion(u: UseCall, svr: Server, now: Nanos)
    requires Updates(u)
    ensures CallOn(u, svr, now).svr.version == svr.version && CallOn(u, svr, now).kind.Update?
  {
    hide UpdateStatus, ClearStatus;
  }

  lemma HandledBits(u: UseCall, stored: Server, now: Nanos, g: Goal)
    requires Updates(u) && !Marks(u)
    ensures Has(Handled(u, stored, now).status, RetryBit(g)) ==> Has(stored.status, RetryBit(g))
  {
    hide Has, UpdateStatus, ClearStatus, HandleSuccess, HandleFailure, RetryBit;
    match u
    case Succeed(goal, r) => RetryBitsHandled(goal, r, stored, now, g);
    case Requeue(goal) => RetryBitsHandled(goal, Result(BLANK_DETAILS, 0), stored, now, g);
    case Fail(goal) => RetryBitsHandled(goal, Result(BLANK_DETAILS, 0), stored, now, g);
    case Renew =>
  }

  lemma BlockedBits(u: UseCall, s: Status, g: Goal)
    requires Marks(u)
    ensures Has(s, Blockers(u)) ==> Has(s, RetryBit(GoalPort))
    ensures Has(UpdateStatus(s, PORT_RETRY), RetryBit(g)) <==> Has(s, RetryBit(g)) || g == GoalPort
  {
  }

  /**
   * The retry bits afterwards: those of the record written when it overwrites; else the port retry
   * bit and those stored before when it marks; else none that were not there.
   */
  lemma LateBits(w: World, u: UseCall, svr: Server, score: Rounding, g: Goal)
    requires Consistent(w.db, score) && Updates(u) && svr.addr in w.db.items
    ensures var t := Late(w, u, svr, score).db;
            && svr.addr in t.items
            && var bit := Has(t.items[svr.addr].status, RetryBit(g));
               if Overwrites(w, svr) then bit <==> Has(CallOn(u, svr, w.clock).svr.status, RetryBit(g))
               else if Marks(u) then bit <==> Has(w.db.items[svr.addr].status, RetryBit(g)) || g == GoalPort
               else bit ==> Has(w.db.items[svr.addr].status, RetryBit(g))
  {
    hide Has, UpdateStatus, ClearStatus, RetryBit, Exec, Consistent, CallOn, Decide, After, Blockers, Handled;
    var stored := w.db.items[svr.addr];
    LateResult(w, u, svr, score);
    LateDecision(u, stored, svr, w.clock);
    if Marks(u) {
      BlockedBits(u, stored.status, g);
    } else {
      HandledBits(u, stored, w.clock, g);
    }
  }

  // ---- when a late update leaves every retry status backed -----------------------------------

  /**
   * The server is gone; or the record in hand is written over the stored one and its retry statuses
   * are covered; or the stored one is newer, and is not marked for a port retry without a probe for it.
   */
  ghost predicate LateIsCovered(w: World, due: set<Addr>, u: UseCall, svr: Server)
    requires Updates(u)
  {
    svr.addr in w.db.items ==>
      if Overwrites(w, svr) then
        forall g :: Has(CallOn(u, svr, w.clock).svr.status, RetryBit(g)) ==> Covered(w.tasks, due, svr.addr, g)
      else Marks(u) ==> Covered(w.tasks, due, svr.addr, GoalPort)
  }

  lemma LateCoversIff(w: World, due: set<Addr>, u: UseCall, svr: Server, score: Rounding)
    requires Consistent(w.db, score) && Updates(u) && BackedAt(w.db, w.tasks, due, svr.addr)
    ensures BackedAt(Late(w, u, svr, score).db, w.tasks, due, svr.addr) <==> LateIsCovered(w, due, u, svr)
  {
    hide Exec, Consistent, Has, CallOn, RetryBit, Covered, Marks, Late, Overwrites;
    LateUpdate(w, u, svr, score);
    if svr.addr in w.db.items {
      forall g {
        LateBits(w, u, svr, score, g);
      }
    }
  }

  /** Only one record has changed, so only there can anything have become uncovered. */
  lemma BackedElsewhere(w: World, db: Db, due: set<Addr>, a: Addr)
    requires BackedUpTo(w, due) && forall x :: x != a ==> Lookup(db.items, x) == Lookup(w.db.items, x)
    ensures BackedUpTo(w.(db := db), due) <==> BackedAt(db, w.tasks, due, a)
  {
    hide Has, RetryBit, Covered;
    if BackedAt(db, w.tasks, due, a) {
      forall x ensures BackedAt(db, w.tasks, due, x) {
        assert BackedAt(w.db, w.tasks, due, x);
        assert x != a ==> Lookup(db.items, x) == Lookup(w.db.items, x);
      }
    }
  }

  /** Exactly then, whoever else is about to queue a probe. */
  lemma LateKeepsBackedIff(w: World, due: set<Addr>, u: UseCall, svr: Server, score: Rounding)
    requires Consistent(w.db, score) && BackedUpTo(w, due) && Updates(u)
    ensures BackedUpTo(Late(w, u, svr, score), due) <==> LateIsCovered(w, due, u, svr)
  {
    hide Exec, Consistent, BackedAt, LateIsCovered, CallOn;
    LateUpdate(w, u, svr, score);
    BackedElsewhere(w, Late(w, u, svr, score).db, due, svr.addr);
    assert BackedAt(w.db, w.tasks, due, svr.addr);
    LateCoversIff(w, due, u, svr, score);
  }

  // ---- the second write of a report, the first of a submission ---------------------------------

  lemma MarkedBits(u: UseCall, svr: Server, now: Nanos, g: Goal)
    requires Marks(u)
    ensures Has(CallOn(u, svr, now).svr.status, RetryBit(g)) <==> Has(svr.status, RetryBit(g)) || g == GoalPort
  {
  }

  lemma MarkIsCoveredIff(w: World, due: set<Addr>, u: UseCall, svr: Server)
    requires Marks(u)
    ensures LateIsCovered(w, due, u, svr) <==>
      || svr.addr !in w.db.items
      || (&& Covered(w.tasks, due, svr.addr, GoalPort)
          && (Overwrites(w, svr) && Has(svr.status, RetryBit(GoalDetails)) ==>
               Backing(w.tasks, svr.addr, GoalDetails)))
  {
    hide Has, CallOn, RetryBit, Backing;
    forall g {
      MarkedBits(u, svr, w.clock, g);
    }
  }

  /**
   * A late mark keeps the retry statuses backed exactly if the server is gone by then, or a port
   * probe for it that cannot expire is still outstanding and, should the write replace an
   * unrelated record with one that waits for a details retry, such a details probe is outstanding too.
   * The callback does not make up for the rest: it only declines when all its bits are set.
   */
  lemma LateMarkKeepsBackedIff(w: World, u: UseCall, pending: Server, score: Rounding)
    requires Consistent(w.db, score) && Backed(w) && Marks(u)
    ensures Backed(Late(w, u, pending, score)) <==>
      || pending.addr !in w.db.items
      || (&& Backing(w.tasks, pending.addr, GoalPort)
          && (Overwrites(w, pending) && Has(pending.status, DETAILS_RETRY) ==>
               Backing(w.tasks, pending.addr, GoalDetails)))
  {
    assert RetryBit(GoalDetails) == DETAILS_RETRY;
    hide Has, CallOn, RetryBit, Backing, LateIsCovered, Late, Consistent, BackedUpTo;
    LateKeepsBackedIff(w, {}, u, pending, score);
    MarkIsCoveredIff(w, {}, u, pending);
  }

  // ---- a report that is overtaken by its own probe ---------------------------------------------

  /** A fresh port probe is popped and succeeds: the store has the result and the queue is as before. */
  lemma FastProbe(w: World, pending: Server, max: int, r: Result, score: Rounding)
    requires Inv(w, score) && Lookup(w.db.items, pending.addr) == Some(pending)
    ensures var o := |w.runs|;
            var executed := Step(Step(Submitted(w, PortOrder(pending, max)), Pop(o), score),
                                 Execute(o, Some(r), 0), score);
            && executed.db == Exec(w.db, CallOn(Succeed(GoalPort, r), pending, w.clock), w.clock, score).db
            && executed.tasks == w.tasks && executed.clock == w.clock
  {
    hide Exec, Consistent, BackedUpTo, CallOn;
    var o := |w.runs|;
    var queued := Submitted(w, PortOrder(pending, max));
    var popped := Step(queued, Pop(o), score);
    assert popped.tasks == w.tasks[o := popped.tasks[o]] && popped.tasks[o].flying;
    var executed := Step(popped, Execute(o, Some(r), 0), score);
    assert executed.tasks == w.tasks;
  }

  /**
   * Such a run: the probe that a report queued is executed before the report marks the record.
   * The server then has its port and waits for a port retry at the same time, with nothing queued.
   */
  lemma FastProbeStrandsRetry(w: World, pending: Server, max: int, r: Result, score: Rounding)
    requires Inv(w, score) && Lookup(w.db.items, pending.addr) == Some(pending)
    requires HasNo(pending.status, PORT | PORT_RETRY) && !Backing(w.tasks, pending.addr, GoalPort)
    ensures var o := |w.runs|;
            var executed := Step(Step(Submitted(w, PortOrder(pending, max)), Pop(o), score),
                                 Execute(o, Some(r), 0), score);
            var late := Late(executed, QueuePort, pending, score);
            && pending.addr in late.db.items
            && Has(late.db.items[pending.addr].status, PORT) && Has(late.db.items[pending.addr].status, PORT_RETRY)
            && !Backing(late.tasks, pending.addr, GoalPort)
  {
    hide Exec, Consistent, BackedUpTo, Counted, Has, HasNo, UpdateStatus, ClearStatus, Submitted, Step, Decide;
    FastProbe(w, pending, max, r, score);
    UpdateStored(w.db, Succeed(GoalPort, r), pending, w.clock, score);
    var mid := Exec(w.db, CallOn(Succeed(GoalPort, r), pending, w.clock), w.clock, score).db;
    UpdateSane(QueuePort, pending, w.clock);
    ExecAt(mid, CallOn(QueuePort, pending, w.clock), w.clock, score);
    FastProbeDecision(pending, r, w.clock);
  }

  /** The late update finds the newer record with its port, and its callback does not decline. */
  lemma FastProbeDecision(svr: Server, r: Result, now: Nanos)
    ensures var stored := HandleSuccess(GoalPort, r, svr, now).Bumped();
            Decide(CallOn(QueuePort, svr, now), Some(stored), now) == Write(stored.Marked(PORT_RETRY).Bumped())
    ensures var s := UpdateStatus(HandleSuccess(GoalPort, r, svr, now).status, PORT_RETRY);
            Has(s, PORT) && Has(s, PORT_RETRY)
  {
    FastProbeStatus(svr, r, now);
    hide Has, UpdateStatus, ClearStatus;
  }

  lemma FastProbeStatus(svr: Server, r: Result, now: Nanos)
    ensures var s := HandleSuccess(GoalPort, r, svr, now).status;
            && !Has(s, PORT | PORT_RETRY)
            && Has(UpdateStatus(s, PORT_RETRY), PORT) && Has(UpdateStatus(s, PORT_RETRY), PORT_RETRY)
  {
  }

  // ---- a submission whose first write comes late ----------------------------------------------

  /**
   * The first write of a late submission leaves a newer record alone exactly if all three of the
   * statuses have appeared; so it aborts when any of them has, as it means to, exactly if then all
   * of them have. It is answered with a record in any case, and so the probe is queued.
   */
  lemma LateSubmitAbortsIff(w: World, svr: Server, max: int, score: Rounding)
    requires Consistent(w.db, score) && svr.addr in w.db.items && !Overwrites(w, svr)
    ensures var r := Exec(w.db, CallOn(UseCall.Submit, svr, w.clock), w.clock, score);
            var status := w.db.items[svr.addr].status;
            var unwanted := DETAILS | PORT_RETRY | DETAILS_RETRY;
            && (r.db == w.db <==> Has(status, unwanted))
            && !r.outcome.NotFound? && |Submitted(w.(db := r.db), PortOrder(svr, max)).runs| == |w.runs| + 1
            && ((r.db == w.db <==> HasAny(status, unwanted)) <==> (HasAny(status, unwanted) ==> Has(status, unwanted)))
  {
    hide Has, HasAny, UpdateStatus, Consistent, Put;
    UpdateSane(UseCall.Submit, svr, w.clock);
    ExecAt(w.db, CallOn(UseCall.Submit, svr, w.clock), w.clock, score);
    AllIsAny(w.db.items[svr.addr].status);
  }

  lemma AllIsAny(s: Status)
    ensures Has(s, DETAILS | PORT_RETRY | DETAILS_RETRY) ==> HasAny(s, DETAILS | PORT_RETRY | DETAILS_RETRY)
  {
  }

  // ---- a retry whose second write comes late ---------------------------------------------------

  /**
   * A retry has queued its probe again before it updates the record. The record then waits for the
   * retry exactly if the stored one was not newer; otherwise it is the stored one handled as failed,
   * although the probe is queued.
   */
  lemma LateRetryWaitsIff(w: World, goal: Goal, svr: Server, score: Rounding)
    requires Consistent(w.db, score) && svr.addr in w.db.items
    ensures var stored := w.db.items[svr.addr];
            var t := Late(w, Requeue(goal), svr, score).db;
            && svr.addr in t.items
            && (Has(t.items[svr.addr].status, RetryBit(goal)) <==> Overwrites(w, svr))
            && t.items[svr.addr] ==
                 (if Overwrites(w, svr) then HandleRetry(goal, svr) else HandleFailure(goal, stored)).Bumped()
  {
    hide Has, RetryBit, Exec, Consistent, Decide, After, HandleRetry, HandleFailure;
    var stored := w.db.items[svr.addr];
    LateResult(w, Requeue(goal), svr, score);
    LateDecision(Requeue(goal), stored, svr, w.clock);
    RetryBitsHandled(goal, Result(BLANK_DETAILS, 0), stored, w.clock, goal);
    RetryMarks(goal, svr);
  }

  lemma RetryMarks(goal: Goal, svr: Server)
    ensures forall g :: Has(HandleRetry(goal, svr).status, RetryBit(g)) <==> g == goal || Has(svr.status, RetryBit(g))
  {
  }

  /** That leaves everything backed exactly if the record was newer, or probes for all its retries are outstanding. */
  lemma LateRetryKeepsBackedIff(w: World, goal: Goal, svr: Server, score: Rounding)
    requires Consistent(w.db, score) && Backed(w)
    ensures Backed(Late(w, Requeue(goal), svr, score)) <==>
      || !Overwrites(w, svr)
      || forall g :: g == goal || Has(svr.status, RetryBit(g)) ==> Backing(w.tasks, svr.addr, g)
  {
    hide Has, RetryBit, Backing, Late, Consistent, BackedUpTo, HandleRetry, HandleFailure;
    LateKeepsBackedIff(w, {}, Requeue(goal), svr, score);
    RetryMarks(goal, svr);
    assert forall g :: Covered(w.tasks, {}, svr.addr, g) <==> Backing(w.tasks, svr.addr, g);
  }
}
