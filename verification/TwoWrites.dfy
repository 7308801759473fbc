/**
 * The discovery system with every use case that makes two writes taken apart: a submission marks
 * and then queues, a report queues and then marks, a retry queues again and then updates. Anything
 * may happen between the two, and between the reading of a record and its update.
 */
module TwoWrites {
  import opened Entities
  import opened Store
  import opened Probes
  import opened UseCalls
  import opened Instances
  import opened UseCases
  import opened Discovery
  import opened Overtaken

  /** A use case between its two writes, with what it needs for the second one. */
  datatype Stage =
    | Submitting(svr: Server, max: int)    // marked, the probe is still to be queued
    | Reporting(svr: Server)               // queued, the mark is still to be made
    | Retrying(goal: Goal, svr: Server)    // queued again, the update is still to be made

  datatype Split = Split(world: World, stages: map<nat, Stage>)

  datatype Move =
    | Whole(e: Event)                                   // a use case that nobody comes between
    | Create(a: Addr)                                   // a submission adds a server nobody has heard of
    | Save(svr: Server, info: Info)                     // the save of a heartbeat, from a record in hand
    | Refresh(svr: Server)                              // the update of a keepalive, from a record in hand
    | Resolve(o: nat, svr: Server, found: Option<Result>)   // a probe succeeds, or fails for the last time
    | BeginSubmit(c: nat, svr: Server, max: int)
    | BeginReport(c: nat, svr: Server, max: int)
    | BeginRetry(c: nat, o: nat, svr: Server, delay: nat)
    | Finish(c: nat)                                    // the second write
    | Break(c: nat)                                     // the second write fails

  /** The servers that a submission has marked without having queued its probe yet. */
  function Due(stages: map<nat, Stage>): set<Addr> {
    set c | c in stages && stages[c].Submitting? :: stages[c].svr.addr
  }

  /** The statuses with which a submission goes on to discovery. */
  predicate Discoverable(s: Status) {
    !Has(s, DETAILS) && !HasAny(s, PORT_RETRY | DETAILS_RETRY) && !Has(s, NO_PORT)
  }

  function Created(w: World, a: Addr, score: Rounding): World {
    var svr := NewServer(a, a.port + 1);
    if svr.None? then w else w.(db := Exec(w.db, CreateCall(svr.value), w.clock, score).db)
  }

  function Saved(w: World, svr: Server, info: Info, score: Rounding): World {
    w.(db := Exec(w.db, ReportCall(svr, info, w.clock), w.clock, score).db)
  }

  /** The probe is in flight, and belongs to the server whose record is in hand. */
  predicate InFlight(w: World, o: nat, svr: Server) {
    o in w.tasks && w.tasks[o].flying && o < |w.runs| && w.tasks[o].probe.addr == svr.addr
  }

  predicate Retriable(w: World, o: nat, svr: Server) {
    InFlight(w, o, svr) && IncRetries(w.tasks[o].probe).Some?
  }

  predicate Resolvable(w: World, o: nat, svr: Server, found: Option<Result>) {
    InFlight(w, o, svr) && (found.Some? || IncRetries(w.tasks[o].probe).None?)
  }

  function Resolution(goal: Goal, found: Option<Result>): UseCall {
    if found.Some? then Succeed(goal, found.value) else UseCall.Fail(goal)
  }

  /** The probe is done with, and the outcome handled on the record. */
  function Resolved(w: World, o: nat, svr: Server, found: Option<Result>, score: Rounding): World
    requires InFlight(w, o, svr)
  {
    Late(w, Resolution(w.tasks[o].probe.goal, found), svr, score).(
      runs := w.runs[o := w.runs[o] + 1], tasks := w.tasks - {o})
  }

  function Requeued(w: World, o: nat, delay: nat): World
    requires o in w.tasks && o < |w.runs| && IncRetries(w.tasks[o].probe).Some?
  {
    var again := Order(IncRetries(w.tasks[o].probe).value, Some(w.clock + delay), None);
    w.(runs := w.runs[o := w.runs[o] + 1], tasks := w.tasks[o := TaskOf(again, w.clock)])
  }

  function Finished(w: World, stage: Stage, score: Rounding): World {
    match stage
    case Submitting(svr, max) => Submitted(w, PortOrder(svr, max))
    case Reporting(svr) => Late(w, QueuePort, svr, score)
    case Retrying(goal, svr) => Late(w, Requeue(goal), svr, score)
  }

  function Apply(s: Split, m: Move, score: Rounding): Split {
    match m
    case Whole(e) => s.(world := Step(s.world, e, score))
    case Create(a) => s.(world := Created(s.world, a, score))
    case Save(svr, info) => s.(world := Saved(s.world, svr, info, score))
    case Refresh(svr) => s.(world := Late(s.world, UseCall.Renew, svr, score))
    case Resolve(o, svr, found) =>
      if !Resolvable(s.world, o, svr, found) then s else s.(world := Resolved(s.world, o, svr, found, score))
    case BeginSubmit(c, svr, max) =>
      if c in s.stages || !Discoverable(svr.status) then s
      else if svr.addr !in s.world.db.items then s
      else Split(Late(s.world, UseCall.Submit, svr, score), s.stages[c := Submitting(svr, max)])
    case BeginReport(c, svr, max) =>
      if c in s.stages || !HasNo(svr.status, PORT | PORT_RETRY) then s
      else Split(Submitted(s.world, PortOrder(svr, max)), s.stages[c := Reporting(svr)])
    case BeginRetry(c, o, svr, delay) =>
      if c in s.stages || !Retriable(s.world, o, svr) then s
      else Split(Requeued(s.world, o, delay), s.stages[c := Retrying(s.world.tasks[o].probe.goal, svr)])
    case Finish(c) =>
      if c !in s.stages then s else Split(Finished(s.world, s.stages[c], score), s.stages - {c})
    case Break(c) => if c !in s.stages then s else s.(stages := s.stages - {c})
  }

  function Play(start: Nanos, moves: seq<Move>, score: Rounding): Split {
    if moves == [] then Split(Init(start), map[])
    else Apply(Play(start, moves[..|moves| - 1], score), moves[|moves| - 1], score)
  }

  // ---- which moves leave every retry status backed ---------------------------------------------

  /** Every retry status has its probe, or a submission that is about to queue it. */
  ghost predicate Settled(s: Split) {
    BackedUpTo(s.world, Due(s.stages))
  }

  ghost predicate SplitInv(s: Split, score: Rounding) {
    InvUpTo(s.world, Due(s.stages), score)
  }

  /** A heartbeat brings back a server that has gone, with the retry statuses of the record in hand. */
  ghost predicate SaveIsCovered(w: World, due: set<Addr>, svr: Server) {
    svr.addr !in w.db.items ==>
      forall g :: Has(svr.status, RetryBit(g)) ==> Covered(w.tasks, due, svr.addr, g)
  }

  ghost predicate FinishIsCovered(w: World, due: set<Addr>, stage: Stage) {
    match stage
    case Submitting(_, _) => true
    case Reporting(svr) => LateIsCovered(w, due, QueuePort, svr)
    case Retrying(goal, svr) => LateIsCovered(w, due, Requeue(goal), svr)
  }

  /** Nobody waits for the probe that a submission now will not queue, or there is another one. */
  ghost predicate BreakIsCovered(w: World, due: set<Addr>, stage: Stage) {
    stage.Submitting? && stage.svr.addr in w.db.items && Has(w.db.items[stage.svr.addr].status, PORT_RETRY) ==>
      Covered(w.tasks, due, stage.svr.addr, GoalPort)
  }

  ghost predicate MoveIsCovered(s: Split, m: Move) {
    var due := Due(s.stages);
    match m
    case Save(svr, _) => SaveIsCovered(s.world, due, svr)
    case Refresh(svr) => LateIsCovered(s.world, due, UseCall.Renew, svr)
    case Resolve(o, svr, found) =>
      Resolvable(s.world, o, svr, found) ==>
        LateIsCovered(s.world, due, Resolution(s.world.tasks[o].probe.goal, found), svr)
    case Finish(c) => c in s.stages ==> FinishIsCovered(s.world, Due(s.stages - {c}), s.stages[c])
    case Break(c) => c in s.stages ==> BreakIsCovered(s.world, Due(s.stages - {c}), s.stages[c])
    case _ => true
  }

  // ---- single writes -----------------------------------------------------------------------------

  lemma DueAfterBegin(stages: map<nat, Stage>, c: nat, stage: Stage)
    requires c !in stages
    ensures Due(stages[c := stage]) == if stage.Submitting? then Due(stages) + {stage.svr.addr} else Due(stages)
  {
    var t := stages[c := stage];
    assert forall d :: d in stages ==> d in t && t[d] == stages[d];
    assert stage.Submitting? ==> t[c].Submitting? && t[c].svr.addr == stage.svr.addr;
  }

  lemma DueAfterEnd(stages: map<nat, Stage>, c: nat)
    requires c in stages
    ensures Due(stages - {c}) <= Due(stages)
    ensures Due(stages) == if stages[c].Submitting? then Due(stages - {c}) + {stages[c].svr.addr} else Due(stages - {c})
  {
    var t := stages - {c};
    assert forall d :: d in stages ==> d == c || (d in t && t[d] == stages[d]);
    assert forall d :: d in t ==> d in stages && t[d] == stages[d];
  }

  lemma MoreDue(w: World, due: set<Addr>, more: set<Addr>)
    requires BackedUpTo(w, due) && due <= more
    ensures BackedUpTo(w, more)
  {
    hide Has, RetryBit, Backing;
    forall a ensures BackedAt(w.db, w.tasks, more, a) {
      assert BackedAt(w.db, w.tasks, due, a);
    }
  }

  lemma SameCounted(w: World, t: World)
    requires Counted(w) && t.tasks == w.tasks && t.runs == w.runs && t.caps == w.caps
    ensures Counted(t)
  {
  }

  lemma UpdateKeepsIff(w: World, due: set<Addr>, u: UseCall, svr: Server, score: Rounding)
    requires InvUpTo(w, due, score) && Updates(u)
    ensures var t := Late(w, u, svr, score);
            && Consistent(t.db, score) && Counted(t)
            && (BackedUpTo(t, due) <==> LateIsCovered(w, due, u, svr))
  {
    hide Consistent, Counted, BackedUpTo, LateIsCovered, Exec, CallOn;
    LateUpdate(w, u, svr, score);
    LateKeepsBackedIff(w, due, u, svr, score);
    SameCounted(w, Late(w, u, svr, score));
  }

  /** A queued port probe makes up for what was due to its address. */
  lemma QueueingCovers(w: World, due: set<Addr>, svr: Server, max: int)
    requires Counted(w) && BackedUpTo(w, due + {svr.addr})
    ensures var t := Submitted(w, PortOrder(svr, max));
            Counted(t) && BackedUpTo(t, due) && t.db == w.db
  {
    var o := PortOrder(svr, max);
    var t := Submitted(w, o);
    OneOrder(w, o);
    SubmittingGrows(w, [o]);
    assert Promised([o], svr.addr, GoalPort) by {
      assert [o][0].probe.addr == svr.addr;
    }
    hide Has, RetryBit, Counted, Submitted, PortOrder, SubmittedAll;
    forall a ensures BackedAt(t.db, t.tasks, due, a) {
      assert BackedAt(w.db, w.tasks, due + {svr.addr}, a);
      forall g | Backing(w.tasks, a, g) ensures Backing(t.tasks, a, g) {
        var k :| k in w.tasks && w.tasks[k].probe.addr == a && w.tasks[k].probe.goal == g && w.tasks[k].expires.None?;
        assert t.tasks[k] == w.tasks[k];
      }
    }
  }

  lemma OneOrder(w: World, o: Order)
    ensures SubmittedAll(w, [o]) == Submitted(w, o)
  {
    assert [o][..0] == [];
    assert SubmittedAll(w, [o][..0]) == w;
  }

  /** The first write of a submission keeps everything backed up to the probe that it now owes. */
  lemma BeginSubmitKeeps(w: World, due: set<Addr>, svr: Server, score: Rounding)
    requires InvUpTo(w, due, score) && Discoverable(svr.status)
    ensures InvUpTo(Late(w, UseCall.Submit, svr, score), due + {svr.addr}, score)
  {
    NoRetryBits(svr.status);
    hide Has, HasAny, RetryBit, Backing, Consistent, BackedUpTo, LateIsCovered, CallOn, Exec, Discoverable;
    MoreDue(w, due, due + {svr.addr});
    LateUpdate(w, UseCall.Submit, svr, score);
    LateKeepsBackedIff(w, due + {svr.addr}, UseCall.Submit, svr, score);
    MarkIsCoveredIff(w, due + {svr.addr}, UseCall.Submit, svr);
  }

  lemma NoRetryBits(s: Status)
    ensures Discoverable(s) ==> forall g :: !Has(s, RetryBit(g))
  {
  }

  /** The first write of a retry leaves the probe where it backs what it backed before. */
  lemma RequeueKeeps(w: World, due: set<Addr>, o: nat, svr: Server, delay: nat)
    requires BackedUpTo(w, due) && Counted(w) && Retriable(w, o, svr)
    ensures var t := Requeued(w, o, delay);
            BackedUpTo(t, due) && Counted(t) && t.db == w.db
  {
    var t := Requeued(w, o, delay);
    hide Has, RetryBit, BackedAt;
    assert TasksAfter(w.tasks, t.tasks, o, true);
    forall a ensures BackedAt(t.db, t.tasks, due, a) {
      assert BackedAt(w.db, w.tasks, due, a);
      ExecuteKeepsBackedAt(w, t, o, true, due, a);
    }
  }

  /** The retry bit of the probe's own goal is cleared by its outcome, whatever the record. */
  lemma ResolutionClears(w: World, goal: Goal, found: Option<Result>, svr: Server, score: Rounding)
    requires Consistent(w.db, score)
    ensures var t := Late(w, Resolution(goal, found), svr, score).db;
            svr.addr in t.items ==> !Has(t.items[svr.addr].status, RetryBit(goal))
  {
    hide Has, RetryBit, Consistent, Exec, Decide, After, HandleSuccess, HandleFailure;
    var u := Resolution(goal, found);
    LateResult(w, u, svr, score);
    LateUpdate(w, u, svr, score);
    if svr.addr in w.db.items {
      var stored := w.db.items[svr.addr];
      LateDecision(u, stored, svr, w.clock);
      var r := if found.Some? then found.value else Result(BLANK_DETAILS, 0);
      RetryBitsHandled(goal, r, svr, w.clock, goal);
      RetryBitsHandled(goal, r, stored, w.clock, goal);
    }
  }

  /** Taking the probe away with it uncovers nothing more. */
  lemma ResolveKeepsIff(w: World, due: set<Addr>, o: nat, svr: Server, found: Option<Result>, score: Rounding)
    requires InvUpTo(w, due, score) && InFlight(w, o, svr)
    ensures var t := Resolved(w, o, svr, found, score);
            && Consistent(t.db, score) && Counted(t)
            && (BackedUpTo(t, due) <==> LateIsCovered(w, due, Resolution(w.tasks[o].probe.goal, found), svr))
  {
    hide Consistent, LateIsCovered, Late, Has, RetryBit, Counted;
    var goal := w.tasks[o].probe.goal;
    var mid, t := Late(w, Resolution(goal, found), svr, score), Resolved(w, o, svr, found, score);
    UpdateKeepsIff(w, due, Resolution(goal, found), svr, score);
    ResolutionClears(w, goal, found, svr, score);
    LateLeavesTasks(w, Resolution(goal, found), svr, score);
    CountedWithout(w, t, o);
    assert TasksAfter(mid.tasks, t.tasks, o, false);
    hide BackedAt;
    if BackedUpTo(mid, due) {
      forall a ensures BackedAt(t.db, t.tasks, due, a) {
        assert BackedAt(mid.db, mid.tasks, due, a);
        ExecuteKeepsBackedAt(mid, t, o, false, due, a);
      }
    }
    if BackedUpTo(t, due) {
      forall a ensures BackedAt(mid.db, mid.tasks, due, a) {
        assert BackedAt(t.db, t.tasks, due, a);
        MoreTasks(t.db, t.tasks, mid.tasks, due, a);
      }
    }
  }

  lemma LateLeavesTasks(w: World, u: UseCall, svr: Server, score: Rounding)
    requires Updates(u)
    ensures var t := Late(w, u, svr, score);
            t.tasks == w.tasks && t.runs == w.runs && t.caps == w.caps && t.clock == w.clock
  {
  }

  lemma CountedWithout(w: World, t: World, o: nat)
    requires Counted(w) && o in w.tasks && o < |w.runs|
    requires t.tasks == w.tasks - {o} && t.runs == w.runs[o := w.runs[o] + 1] && t.caps == w.caps
    ensures Counted(t)
  {
  }

  lemma MoreTasks(db: Db, tasks: map<nat, Task>, more: map<nat, Task>, due: set<Addr>, a: Addr)
    requires BackedAt(db, tasks, due, a) && forall k :: k in tasks ==> k in more && more[k] == tasks[k]
    ensures BackedAt(db, more, due, a)
  {
    hide Has, RetryBit;
    forall g | Backing(tasks, a, g) ensures Backing(more, a, g) {
      var k :| k in tasks && tasks[k].probe.addr == a && tasks[k].probe.goal == g && tasks[k].expires.None?;
      assert more[k] == tasks[k];
    }
  }

  lemma CreateKeeps(w: World, due: set<Addr>, a: Addr, score: Rounding)
    requires InvUpTo(w, due, score)
    ensures InvUpTo(Created(w, a, score), due, score)
  {
    hide Consistent, BackedUpTo, Counted, Honest, Put, Has;
    var svr := NewServer(a, a.port + 1);
    if svr.Some? && a !in w.db.items {
      CreateIsHonest(w.db, svr.value, w.clock, score);
      HonestKeeps(w, Effect(Created(w, a, score).db, []), due);
    }
  }

  lemma SaveDecision(stored: Option<Server>, svr: Server, info: Info, now: Nanos)
    ensures After(Decide(ReportCall(svr, info, now), stored, now), stored) ==
      Some(Reported(if stored.Some? then stored.value else svr, info, now).Bumped())
  {
    hide UpdateStatus;
  }

  lemma ReportedBits(svr: Server, info: Info, now: Nanos, g: Goal)
    ensures Has(Reported(svr, info, now).status, RetryBit(g)) <==> Has(svr.status, RetryBit(g))
  {
    KnownBits();
    RetryBitsMarked(svr.status, MASTER | INFO, g);
    hide Has, RetryBit, UpdateStatus;
  }

  /** The save of a heartbeat keeps everything backed exactly if it brings back no uncovered retry status. */
  lemma SaveKeepsIff(w: World, due: set<Addr>, svr: Server, info: Info, score: Rounding)
    requires InvUpTo(w, due, score)
    ensures var t := Saved(w, svr, info, score);
            && Consistent(t.db, score) && Counted(t)
            && (BackedUpTo(t, due) <==> SaveIsCovered(w, due, svr))
  {
    hide Has, RetryBit, UpdateStatus, Exec, Consistent, Covered, Reported, Decide, Counted;
    SameCounted(w, Saved(w, svr, info, score));
    var call := ReportCall(svr, info, w.clock);
    ReportedIsSane(svr, info, w.clock);
    ExecAt(w.db, call, w.clock, score);
    SaveDecision(Lookup(w.db.items, svr.addr), svr, info, w.clock);
    assert BackedAt(w.db, w.tasks, due, svr.addr);
    BackedElsewhere(w, Saved(w, svr, info, score).db, due, svr.addr);
    hide BackedUpTo;
    var basis := if svr.addr in w.db.items then w.db.items[svr.addr] else svr;
    forall g {
      ReportedBits(basis, info, w.clock, g);
    }
  }

  lemma ReportedIsSane(svr: Server, info: Info, now: Nanos)
    ensures Sane(ReportCall(svr, info, now)) && ReportCall(svr, info, now).svr.addr == svr.addr
  {
    hide UpdateStatus;
  }

  // ---- one move ----------------------------------------------------------------------------------

  lemma BreakKeepsIff(w: World, due: set<Addr>, stage: Stage)
    requires BackedUpTo(w, if stage.Submitting? then due + {stage.svr.addr} else due)
    ensures BackedUpTo(w, due) <==> BreakIsCovered(w, due, stage)
  {
    assert RetryBit(GoalPort) == PORT_RETRY;
    hide Has, RetryBit, Backing;
    if stage.Submitting? {
      var more := due + {stage.svr.addr};
      assert BackedUpTo(w, due) ==> BackedAt(w.db, w.tasks, due, stage.svr.addr);
      if BreakIsCovered(w, due, stage) {
        forall a ensures BackedAt(w.db, w.tasks, due, a) {
          assert BackedAt(w.db, w.tasks, more, a);
        }
      }
    }
  }

  lemma FinishKeepsIff(w: World, due: set<Addr>, stage: Stage, score: Rounding)
    requires InvUpTo(w, if stage.Submitting? then due + {stage.svr.addr} else due, score)
    ensures var t := Finished(w, stage, score);
            && Consistent(t.db, score) && Counted(t)
            && (BackedUpTo(t, due) <==> FinishIsCovered(w, due, stage))
  {
    hide Consistent, Counted, BackedUpTo, LateIsCovered, Exec, CallOn, Submitted;
    match stage
    case Submitting(svr, max) => QueueingCovers(w, due, svr, max);
    case Reporting(svr) => UpdateKeepsIff(w, due, QueuePort, svr, score);
    case Retrying(goal, svr) => UpdateKeepsIff(w, due, Requeue(goal), svr, score);
  }

  lemma BeginRetryOwes(s: Split, c: nat, o: nat, svr: Server, delay: nat, score: Rounding)
    requires c !in s.stages && Retriable(s.world, o, svr)
    ensures var t := Apply(s, BeginRetry(c, o, svr, delay), score);
            t.world == Requeued(s.world, o, delay) && Due(t.stages) == Due(s.stages)
  {
    hide Due;
    DueAfterBegin(s.stages, c, Retrying(s.world.tasks[o].probe.goal, svr));
  }

  /** A move keeps every retry status backed, up to what is due, exactly if it is covered. */
  lemma MoveKeepsIff(s: Split, m: Move, score: Rounding)
    requires SplitInv(s, score)
    ensures var t := Apply(s, m, score);
            && Consistent(t.world.db, score) && Counted(t.world)
            && (Settled(t) <==> MoveIsCovered(s, m))
  {
    hide Consistent, Counted, BackedUpTo, Due, Step, Late, Created, Saved, Submitted, Requeued, Finished, SaveIsCovered,
         LateIsCovered, FinishIsCovered, BreakIsCovered, Discoverable, Retriable, Resolved, InFlight, HasNo;
    var due := Due(s.stages);
    match m
    case Whole(e) => StepKeepsUpTo(s.world, e, due, score);
    case Create(a) => CreateKeeps(s.world, due, a, score);
    case Save(svr, info) => SaveKeepsIff(s.world, due, svr, info, score);
    case Refresh(svr) => UpdateKeepsIff(s.world, due, UseCall.Renew, svr, score);
    case Resolve(o, svr, found) =>
      if Resolvable(s.world, o, svr, found) {
        ResolveKeepsIff(s.world, due, o, svr, found, score);
      }
    case BeginSubmit(c, svr, max) =>
      if c !in s.stages && Discoverable(svr.status) {
        DueAfterBegin(s.stages, c, Submitting(svr, max));
        BeginSubmitKeeps(s.world, due, svr, score);
      }
    case BeginReport(c, svr, max) =>
      if c !in s.stages {
        DueAfterBegin(s.stages, c, Reporting(svr));
        MoreDue(s.world, due, due + {svr.addr});
        QueueingCovers(s.world, due, svr, max);
      }
    case BeginRetry(c, o, svr, delay) =>
      if c !in s.stages && Retriable(s.world, o, svr) {
        RequeueKeeps(s.world, due, o, svr, delay);
        BeginRetryOwes(s, c, o, svr, delay, score);
      }
    case Finish(c) =>
      if c in s.stages {
        DueAfterEnd(s.stages, c);
        FinishKeepsIff(s.world, Due(s.stages - {c}), s.stages[c], score);
      }
    case Break(c) =>
      if c in s.stages {
        DueAfterEnd(s.stages, c);
        BreakKeepsIff(s.world, Due(s.stages - {c}), s.stages[c]);
      }
  }

  // ---- whole runs --------------------------------------------------------------------------------

  lemma StartIsSettled(start: Nanos, score: Rounding)
    ensures SplitInv(Play(start, [], score), score)
  {
  }

  /** In every state of the run, the last one included, every retry status is backed up to what is due. */
  ghost predicate StaysSettled(start: Nanos, moves: seq<Move>, score: Rounding) {
    forall n :: 0 <= n <= |moves| ==> Settled(Play(start, moves[..n], score))
  }

  ghost predicate AllCovered(start: Nanos, moves: seq<Move>, score: Rounding) {
    forall n :: 0 <= n < |moves| ==> MoveIsCovered(Play(start, moves[..n], score), moves[n])
  }

  lemma LastMove(start: Nanos, moves: seq<Move>, score: Rounding)
    requires moves != []
    ensures var front, last := moves[..|moves| - 1], moves[|moves| - 1];
            && (StaysSettled(start, moves, score) <==>
                 StaysSettled(start, front, score) && Settled(Play(start, moves, score)))
            && (AllCovered(start, moves, score) <==>
                 AllCovered(start, front, score) && MoveIsCovered(Play(start, front, score), last))
  {
    hide Play, Settled, MoveIsCovered;
    var front := moves[..|moves| - 1];
    assert forall n :: 0 <= n <= |front| ==> front[..n] == moves[..n];
    assert moves[..|moves|] == moves;
    assert forall n :: 0 <= n < |front| ==> front[n] == moves[n];
  }

  /**
   * A run keeps every retry status backed, at every moment and up to the probes that submissions are
   * about to queue, exactly if each late or failed write in it is covered at its moment. Whole use
   * cases, new servers, first writes and the second writes of submissions always are.
   */
  lemma {:induction false} RunStaysSettledIff(start: Nanos, moves: seq<Move>, score: Rounding)
    ensures StaysSettled(start, moves, score) <==> AllCovered(start, moves, score)
    ensures StaysSettled(start, moves, score) ==> SplitInv(Play(start, moves, score), score)
    decreases |moves|
  {
    hide Apply, SplitInv, MoveIsCovered, Settled;
    if moves == [] {
      StartIsSettled(start, score);
      SplitIsSettled(Play(start, [], score), score);
      assert moves[..0] == [];
    } else {
      hide StaysSettled, AllCovered;
      var front := moves[..|moves| - 1];
      RunStaysSettledIff(start, front, score);
      LastMove(start, moves, score);
      if StaysSettled(start, front, score) {
        var s := Play(start, front, score);
        MoveKeepsIff(s, moves[|moves| - 1], score);
        SplitIfSettled(Play(start, moves, score), score);
      }
    }
  }

  lemma SplitIsSettled(s: Split, score: Rounding)
    requires SplitInv(s, score)
    ensures Settled(s)
  {
  }

  lemma SplitIfSettled(s: Split, score: Rounding)
    requires Consistent(s.world.db, score) && Counted(s.world)
    ensures SplitInv(s, score) <==> Settled(s)
  {
  }

  // ---- submissions -------------------------------------------------------------------------------

  /** Whole use cases and submissions taken apart. */
  predicate Submits(m: Move) {
    m.Whole? || m.Create? || m.BeginSubmit? || m.Finish?
  }

  predicate OnlySubmitting(s: Split) {
    forall c :: c in s.stages ==> s.stages[c].Submitting?
  }

  lemma {:induction false} SubmittersOnly(start: Nanos, moves: seq<Move>, score: Rounding)
    requires forall i :: 0 <= i < |moves| ==> Submits(moves[i])
    ensures OnlySubmitting(Play(start, moves, score))
    decreases |moves|
  {
    hide Late, Step, Finished, Discoverable;
    if moves != [] {
      SubmittersOnly(start, moves[..|moves| - 1], score);
    }
  }

  /**
   * Submissions alone do no harm: however many are between their two writes, and whatever other use
   * cases run meanwhile, every retry status has its probe or a submission about to queue it; and when
   * no submission is under way, its probe.
   */
  lemma SubmissionsStayBacked(start: Nanos, moves: seq<Move>, score: Rounding)
    requires forall i :: 0 <= i < |moves| ==> Submits(moves[i])
    ensures StaysSettled(start, moves, score)
    ensures var s := Play(start, moves, score); s.stages == map[] ==> Backed(s.world)
  {
    hide Play, BackedUpTo, StaysSettled, SplitInv;
    forall n | 0 <= n < |moves| ensures MoveIsCovered(Play(start, moves[..n], score), moves[n]) {
      SubmittersOnly(start, moves[..n], score);
      assert Submits(moves[n]);
    }
    RunStaysSettledIff(start, moves, score);
    SettledAtEnd(start, moves, score);
    var s := Play(start, moves, score);
    assert s.stages == map[] ==> Due(s.stages) == {};
  }

  lemma SettledAtEnd(start: Nanos, moves: seq<Move>, score: Rounding)
    requires StaysSettled(start, moves, score)
    ensures Settled(Play(start, moves, score))
  {
    hide Play, Settled;
    assert moves[..|moves|] == moves;
  }

  /**
   * Between its two writes the mark is bare: no probe is there for it, unless the server has gone or
   * some earlier port probe that cannot expire is still outstanding.
   */
  lemma BetweenWritesBackedIff(s: Split, c: nat, svr: Server, max: int, score: Rounding)
    requires Consistent(s.world.db, score) && Backed(s.world)
    requires c !in s.stages && Discoverable(svr.status)
    ensures Backed(Apply(s, BeginSubmit(c, svr, max), score).world) <==>
      svr.addr !in s.world.db.items || Backing(s.world.tasks, svr.addr, GoalPort)
  {
    assert RetryBit(GoalDetails) == DETAILS_RETRY;
    NoRetryBits(svr.status);
    hide Has, RetryBit, Backing, Consistent, BackedUpTo, Late, Discoverable;
    LateMarkKeepsBackedIff(s.world, UseCall.Submit, svr, score);
  }

  /** The second write settles the submission, whatever has come between, if no other is under way. */
  lemma QueueingSettles(s: Split, c: nat, score: Rounding)
    requires SplitInv(s, score) && c in s.stages && s.stages[c].Submitting? && Due(s.stages - {c}) == {}
    ensures Backed(Apply(s, Finish(c), score).world)
  {
    hide Due, Consistent, BackedUpTo, Counted, Submitted;
    MoveKeepsIff(s, Finish(c), score);
  }

  // ---- undisturbed, the parts make the whole -------------------------------------------------------

  /** A submission of a stored server in its two writes, with nobody in between. */
  lemma SubmitInParts(s: Split, c: nat, svr: Server, max: int, score: Rounding)
    requires Consistent(s.world.db, score) && c !in s.stages && Lookup(s.world.db.items, svr.addr) == Some(svr)
    ensures var t := Apply(Apply(s, BeginSubmit(c, svr, max), score), Finish(c), score);
            t == s.(world := Step(s.world, Event.Submit(svr.addr, max), score))
  {
    hide Has, HasAny, Exec, Consistent, CallOn, Submitted, SubmittedAll;
    var w := s.world;
    UpdateStored(w.db, UseCall.Submit, svr, w.clock, score);
    TookNothing(w);
    if Discoverable(svr.status) {
      var marked := Exec(w.db, CallOn(UseCall.Submit, svr, w.clock), w.clock, score);
      OneOrder(w.(db := marked.db), PortOrder(svr, max));
      StageEnds(s.stages, c, Submitting(svr, max));
    }
  }

  lemma TookNothing(w: World)
    ensures Took(w, Effect(w.db, [])) == w
  {
  }

  lemma StageEnds(stages: map<nat, Stage>, c: nat, stage: Stage)
    requires c !in stages
    ensures stages[c := stage] - {c} == stages
  {
  }

  /** A submission of a server nobody has heard of adds it first. */
  lemma CreateInParts(s: Split, c: nat, a: Addr, max: int, score: Rounding)
    requires Consistent(s.world.db, score) && c !in s.stages && a !in s.world.db.items
    ensures var mid := Apply(s, Move.Create(a), score);
            if NewServer(a, a.port + 1).None? then mid == s && Step(s.world, Event.Submit(a, max), score) == s.world
            else
              && a in mid.world.db.items
              && var t := Apply(Apply(mid, BeginSubmit(c, mid.world.db.items[a], max), score), Finish(c), score);
                 t == s.(world := Step(s.world, Event.Submit(a, max), score))
  {
    hide Exec, Consistent, MaybeDiscoverServer, Honest, SubmittedAll;
    var w := s.world;
    TookNothing(w);
    if NewServer(a, a.port + 1).Some? {
      CreateIsHonest(w.db, NewServer(a, a.port + 1).value, w.clock, score);
      var mid := Apply(s, Move.Create(a), score);
      SubmitInParts(mid, c, mid.world.db.items[a], max, score);
    }
  }

  /** A report in its three writes: the save, the probe and the mark. */
  lemma ReportInParts(s: Split, c: nat, svr: Server, info: Info, max: int, score: Rounding)
    requires Consistent(s.world.db, score) && c !in s.stages && info.passes
    requires Lookup(s.world.db.items, svr.addr) == Some(svr)
          || (svr.addr !in s.world.db.items && NewServer(svr.addr, svr.queryPort) == Some(svr))
    ensures var mid := Apply(s, Save(svr, info), score);
            && svr.addr in mid.world.db.items
            && var t := Apply(mid, BeginReport(c, mid.world.db.items[svr.addr], max), score);
               Apply(t, Finish(c), score) ==
                 s.(world := Step(s.world, Event.Report(svr.addr, svr.queryPort, true, Some(info), max), score))
  {
    hide Has, HasNo, Exec, Consistent, CallOn, SubmittedAll, ReportCall, Sane;
    var w := s.world;
    ReportedIsSane(svr, info, w.clock);
    ReportIsSaved(w.db, svr, info, w.clock, score);
    var saved := Exec(w.db, ReportCall(svr, info, w.clock), w.clock, score);
    var pending := saved.outcome.svr;
    var mid := w.(db := saved.db);
    TookNothing(mid);
    OneOrder(w.(db := MaybeDiscoverPort(mid.db, pending, max, w.clock, score).db), PortOrder(pending, max));
    StageEnds(s.stages, c, Reporting(pending));
    MarkAndQueueCommute(mid, MaybeDiscoverPort(mid.db, pending, max, w.clock, score).db, PortOrder(pending, max));
  }

  lemma ReportIsSaved(db: Db, svr: Server, info: Info, now: Nanos, score: Rounding)
    requires Consistent(db, score) && (Lookup(db.items, svr.addr) == Some(svr) || svr.addr !in db.items)
    ensures var r := Exec(db, ReportCall(svr, info, now), now, score);
            && r.outcome.Saved? && Consistent(r.db, score)
            && Lookup(r.db.items, svr.addr) == Some(r.outcome.svr) && r.outcome.svr.addr == svr.addr
  {
    ReportedIsSane(svr, info, now);
    ExecAt(db, ReportCall(svr, info, now), now, score);
    SaveDecision(Lookup(db.items, svr.addr), svr, info, now);
    hide Consistent, UpdateStatus, Commit, Sane;
  }

  lemma MarkAndQueueCommute(w: World, db: Db, o: Order)
    ensures Submitted(w, o).(db := db) == Submitted(w.(db := db), o)
  {
  }

  /** A retry in its two writes. */
  lemma RetryInParts(s: Split, c: nat, o: nat, svr: Server, delay: nat, score: Rounding)
    requires Consistent(s.world.db, score) && c !in s.stages && Lookup(s.world.db.items, svr.addr) == Some(svr)
    requires Retriable(s.world, o, svr)
    ensures Apply(Apply(s, BeginRetry(c, o, svr, delay), score), Finish(c), score) ==
      s.(world := Step(s.world, Event.Execute(o, None, delay), score))
  {
    hide Exec, Consistent, CallOn;
    StageEnds(s.stages, c, Retrying(s.world.tasks[o].probe.goal, svr));
  }

  /** An outcome handled on the stored record is the execution of the probe. */
  lemma ResolveIsWhole(s: Split, o: nat, svr: Server, found: Option<Result>, delay: nat, score: Rounding)
    requires Consistent(s.world.db, score) && Lookup(s.world.db.items, svr.addr) == Some(svr)
    requires Resolvable(s.world, o, svr, found)
    ensures Apply(s, Resolve(o, svr, found), score) ==
      s.(world := Step(s.world, Event.Execute(o, found, delay), score))
  {
    hide Exec, Consistent, CallOn;
  }

  /** So is a refreshed record the keepalive of its owner. */
  lemma RefreshIsWhole(s: Split, svr: Server, score: Rounding)
    requires Consistent(s.world.db, score) && Lookup(s.world.db.items, svr.addr) == Some(svr)
    ensures Apply(s, Move.Refresh(svr), score) ==
      s.(world := Step(s.world, Event.Renew(Known(svr.addr), svr.addr.ip), score))
  {
    hide Exec, Consistent, CallOn;
    TookNothing(Late(s.world, UseCall.Renew, svr, score));
  }
}
