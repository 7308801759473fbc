/**
 * The calls that the use cases make on the server repository, with their conflict callbacks,
 * and the status rules that all of them keep.
 */
module UseCalls {
  import opened Entities
  import opened Store
  import opened History

  /** The outcome of a successful probe; the details prober does not look at the port. */
  datatype Result = Result(details: Details, port: int)

  /** `HandleSuccess` of the port prober and of the details prober. */
  function HandleSuccess(goal: Goal, r: Result, svr: Server, now: Nanos): Server {
    match goal
    case GoalPort =>
      svr.(queryPort := r.port).WithDetails(r.details).Refreshed(now)
      .Marked(INFO | DETAILS | PORT).Cleared(NO_DETAILS | DETAILS_RETRY | PORT_RETRY | NO_PORT)
    case GoalDetails =>
      svr.WithDetails(r.details).Refreshed(now).Marked(INFO | DETAILS).Cleared(NO_DETAILS | DETAILS_RETRY)
  }

  function HandleRetry(goal: Goal, svr: Server): Server {
    match goal
    case GoalPort => svr.Marked(PORT_RETRY)
    case GoalDetails => svr.Marked(DETAILS_RETRY)
  }

  function HandleFailure(goal: Goal, svr: Server): Server {
    match goal
    case GoalPort => svr.Cleared(PORT_RETRY).Marked(NO_PORT)
    case GoalDetails => svr.Cleared(DETAILS | INFO | DETAILS_RETRY | PORT).Marked(NO_DETAILS)
  }

  /** The change a report makes, to a fresh record and to a stored one alike. */
  function Reported(svr: Server, info: Info, now: Nanos): Server {
    svr.WithInfo(info).Refreshed(now).Marked(MASTER | INFO)
  }

  datatype UseCall =
    | Create(a: Addr, queryPort: int)                // addserver: a server nobody has heard of
    | Report(a: Addr, queryPort: int, info: Info)    // reportserver: the heartbeat itself
    | QueuePort                                      // reportserver: port discovery is queued
    | Submit                                         // addserver: discovery is submitted
    | Succeed(goal: Goal, r: Result)                 // probeserver: the probe succeeded
    | Requeue(goal: Goal)                            // probeserver: the probe is retried
    | Fail(goal: Goal)                               // probeserver: out of retries
    | Renew                                          // renewserver
    | Clean(cutoff: Nanos)                           // servercleaner
    | Discard                                        // removeserver

  /** What the use cases have checked by the time they make the call. */
  predicate Checked(u: UseCall) {
    match u
    case Report(_, _, info) => info.passes
    case Succeed(_, r) => r.details.Passes()
    case _ => true
  }

  /** Stands for "no call": the use case had no record to work on. */
  const NOTHING: Call := Call(Remove, Server(Addr(0, 0), 0, 0, BLANK_INFO, BLANK_DETAILS, None, 0), (s, t) => None)

  /** A server nobody has heard of; if somebody adds it in the meantime, the call fails. */
  function CreateCall(svr: Server): Call {
    Call(Add, svr, (s, t) => None)
  }

  function ReportCall(svr: Server, info: Info, now: Nanos): Call {
    Call(Add, Reported(svr, info, now), (s, t) => Some(Reported(s, info, now)))
  }

  /** The call that a use case makes from the record it holds and the time. */
  function CallOf(u: UseCall, held: Option<Server>, now: Nanos): Call {
    match u
    case Create(a, port) => if NewServer(a, port).None? then NOTHING else CreateCall(NewServer(a, port).value)
    case Report(a, port, info) =>
      if held.Some? && held.value.addr == a then ReportCall(held.value, info, now)
      else if NewServer(a, port).None? then NOTHING
      else ReportCall(NewServer(a, port).value, info, now)
    case _ => if held.None? then NOTHING else CallOn(u, held.value, now)
  }

  function CallOn(u: UseCall, svr: Server, now: Nanos): Call
    requires !u.Create? && !u.Report?
  {
    match u
    case QueuePort =>
      Call(Update, svr.Marked(PORT_RETRY),
           (s: Server, t) => if Has(s.status, PORT | PORT_RETRY) then None else Some(s.Marked(PORT_RETRY)))
    case Submit =>
      Call(Update, svr.Marked(PORT_RETRY),
           (s: Server, t) => if Has(s.status, DETAILS | PORT_RETRY | DETAILS_RETRY) then None
             else Some(s.Marked(PORT_RETRY)))
    case Succeed(goal, r) => Call(Update, HandleSuccess(goal, r, svr, now),
      (s, t) => Some(HandleSuccess(goal, r, s, t)))
    case Requeue(goal) => Call(Update, HandleRetry(goal, svr), (s, t) => Some(HandleFailure(goal, s)))
    case Fail(goal) => Call(Update, HandleFailure(goal, svr), (s, t) => Some(HandleFailure(goal, s)))
    case Renew => Call(Update, svr.Refreshed(now), (s: Server, t) => Some(s.Refreshed(now)))
    case Clean(cutoff) => Call(Remove, svr, Spare(cutoff))
    case Discard => Call(Remove, svr, Always())
  }

  lemma UseCallsAreSane(u: UseCall, held: Option<Server>, now: Nanos)
    requires Checked(u)
    ensures Sane(CallOf(u, held, now))
  {
    hide UpdateStatus, ClearStatus, Has;
  }

  // ---- the status rules ------------------------------------------------------------

  /**
   * A port is known only with details, details only with info, details are not both present
   * and missing, a new server has no other status, and every server has some status.
   */
  predicate Coherent(s: Status) {
    && (Has(s, PORT) ==> Has(s, DETAILS))
    && (Has(s, DETAILS) ==> Has(s, INFO))
    && !Has(s, DETAILS | NO_DETAILS)
    && (Has(s, NEW) ==> s == NEW)
    && s != 0
  }

  /** The status is coherent, and the info it advertises has passed validation. */
  predicate WellKept(svr: Server) {
    && Coherent(svr.status)
    && (Has(svr.status, INFO) ==> svr.info.passes)
  }

  /** A record that is well kept and not refreshed in the future. */
  ghost predicate Sound(svr: Server, now: Nanos) {
    && WellKept(svr)
    && (svr.refreshedAt.Some? ==> svr.refreshedAt.value <= now)
  }

  lemma MarkingRetryKeeps(s: Status, bits: Status)
    requires Coherent(s) && (bits == PORT_RETRY || bits == DETAILS_RETRY)
    ensures Coherent(UpdateStatus(s, bits)) && (Has(UpdateStatus(s, bits), INFO) ==> Has(s, INFO))
  {
  }

  lemma ReportingKeeps(s: Status)
    requires Coherent(s)
    ensures Coherent(UpdateStatus(s, MASTER | INFO))
  {
  }

  lemma PortSuccessKeeps(s: Status)
    ensures Coherent(ClearStatus(UpdateStatus(s, INFO | DETAILS | PORT),
      NO_DETAILS | DETAILS_RETRY | PORT_RETRY | NO_PORT))
  {
  }

  lemma DetailsSuccessKeeps(s: Status)
    requires Coherent(s)
    ensures Coherent(ClearStatus(UpdateStatus(s, INFO | DETAILS), NO_DETAILS | DETAILS_RETRY))
  {
  }

  lemma PortFailureKeeps(s: Status)
    requires Coherent(s)
    ensures Coherent(UpdateStatus(ClearStatus(s, PORT_RETRY), NO_PORT))
    ensures Has(UpdateStatus(ClearStatus(s, PORT_RETRY), NO_PORT), INFO) ==> Has(s, INFO)
  {
  }

  lemma DetailsFailureKeeps(s: Status)
    requires Coherent(s)
    ensures var f := UpdateStatus(ClearStatus(s, DETAILS | INFO | DETAILS_RETRY | PORT), NO_DETAILS);
            Coherent(f) && !Has(f, INFO)
  {
  }

  lemma SuccessIsSound(goal: Goal, r: Result, svr: Server, now: Nanos)
    requires Sound(svr, now) && r.details.Passes()
    ensures Sound(HandleSuccess(goal, r, svr, now), now)
  {
    PortSuccessKeeps(svr.status);
    DetailsSuccessKeeps(svr.status);
    hide Coherent, Has, UpdateStatus, ClearStatus;
  }

  lemma RetryIsSound(goal: Goal, svr: Server, now: Nanos)
    requires Sound(svr, now)
    ensures Sound(HandleRetry(goal, svr), now)
  {
    MarkingRetryKeeps(svr.status, PORT_RETRY);
    MarkingRetryKeeps(svr.status, DETAILS_RETRY);
    hide Coherent, Has, UpdateStatus, ClearStatus;
  }

  lemma FailureIsSound(goal: Goal, svr: Server, now: Nanos)
    requires Sound(svr, now)
    ensures Sound(HandleFailure(goal, svr), now)
  {
    PortFailureKeeps(svr.status);
    DetailsFailureKeeps(svr.status);
    hide Coherent, Has, UpdateStatus, ClearStatus;
  }

  lemma ReportIsSound(svr: Server, info: Info, at: Nanos, now: Nanos)
    requires Sound(svr, now) && info.passes && at <= now
    ensures Sound(Reported(svr, info, at), now)
  {
    ReportingKeeps(svr.status);
    hide Coherent, Has, UpdateStatus, ClearStatus;
  }

  lemma NewIsSound(a: Addr, port: int, now: Nanos)
    ensures NewServer(a, port).Some? ==> Sound(NewServer(a, port).value, now)
  {
  }
}

/** In every run of the use cases every stored record is sound. */
module StatusSafety {
  import opened Entities
  import opened Store
  import opened LockProtocol
  import opened LockSafety
  import opened RecordSafety
  import opened History
  import opened RunHistory
  import opened Serializability
  import opened UseCalls

  /** The step of a client that begins the repository call of a use case. */
  ghost predicate IsUseCall(make: Maker, u: UseCall) {
    Checked(u) && forall held, t :: make(held, t) == CallOf(u, held, t)
  }

  /** A run in which every call is one that some use case makes. */
  ghost predicate UseRun(events: seq<Event>) {
    forall i :: 0 <= i < |events| && events[i].Begin? ==> exists u :: IsUseCall(events[i].make, u)
  }

  /** Whatever a use case writes, directly or through its conflict callback, is sound. */
  lemma UseCallKeeps(u: UseCall, held: Option<Server>, now: Nanos)
    requires Checked(u) && (held.Some? ==> Sound(held.value, now))
    ensures RecordSafety.Keeps(Sound, CallOf(u, held, now), now)
  {
    var call := CallOf(u, held, now);
    hide Sound, Checked;
    if !call.kind.Remove? {
      UseCallIsSound(u, held, now);
    }
    forall s, t | now <= t && Sound(s, t) && call.resolve(s, t).Some?
      ensures Sound(call.resolve(s, t).value, t)
    {
      UseCallbackIsSound(u, held, now, s, t);
    }
  }

  lemma UseCallIsSound(u: UseCall, held: Option<Server>, now: Nanos)
    requires Checked(u) && (held.Some? ==> Sound(held.value, now)) && !CallOf(u, held, now).kind.Remove?
    ensures Sound(CallOf(u, held, now).svr, now)
  {
    hide Coherent, Has, UpdateStatus, ClearStatus, HandleSuccess, HandleRetry, HandleFailure, Reported, Sound;
    match u
    case Create(a, port) => NewIsSound(a, port, now);
    case Report(a, port, info) =>
      NewIsSound(a, port, now);
      if held.Some? && held.value.addr == a {
        ReportIsSound(held.value, info, now, now);
      } else {
        ReportIsSound(NewServer(a, port).value, info, now, now);
      }
    case QueuePort => RetryIsSound(GoalPort, held.value, now); RetryMarks(held.value);
    case Submit => RetryIsSound(GoalPort, held.value, now); RetryMarks(held.value);
    case Succeed(goal, r) => SuccessIsSound(goal, r, held.value, now);
    case Requeue(goal) => RetryIsSound(goal, held.value, now);
    case Fail(goal) => FailureIsSound(goal, held.value, now);
    case Renew => RenewIsSound(held.value, now, now);
    case _ =>
  }

  lemma RetryMarks(svr: Server)
    ensures svr.Marked(PORT_RETRY) == HandleRetry(GoalPort, svr)
  {
  }

  lemma RenewIsSound(svr: Server, at: Nanos, now: Nanos)
    requires Sound(svr, now) && at <= now
    ensures Sound(svr.Refreshed(at), now)
  {
    hide Coherent, Has;
  }

  lemma UseCallbackIsSound(u: UseCall, held: Option<Server>, now: Nanos, s: Server, t: Nanos)
    requires Checked(u) && now <= t && Sound(s, t) && CallOf(u, held, now).resolve(s, t).Some?
    ensures Sound(CallOf(u, held, now).resolve(s, t).value, t)
  {
    hide Coherent, Has, UpdateStatus, ClearStatus, HandleSuccess, HandleRetry, HandleFailure, Reported, Sound;
    match u
    case Create(_, _) =>
    case Report(_, _, info) => ReportIsSound(s, info, now, t);
    case QueuePort => RetryIsSound(GoalPort, s, t); RetryMarks(s);
    case Submit => RetryIsSound(GoalPort, s, t); RetryMarks(s);
    case Succeed(goal, r) => SuccessIsSound(goal, r, s, t);
    case Requeue(goal) => FailureIsSound(goal, s, t);
    case Fail(goal) => FailureIsSound(goal, s, t);
    case Renew => RenewIsSound(s, now, t);
    case Clean(_) =>
    case Discard =>
  }

  lemma SoundIsLasting()
    ensures Lasting(Sound)
  {
    hide Coherent, Has;
  }

  /** The events of a run of use cases meet the demands of the lifting theorem and of the protocol. */
  lemma UseRunIsRespectful(events: seq<Event>)
    requires UseRun(events)
    ensures RespectfulRun(Sound, events)
    ensures forall i :: 0 <= i < |events| ==> SaneEvent(events[i])
  {
    forall i | 0 <= i < |events| && events[i].Begin?
      ensures Respectful(Sound, events[i].make) && SaneEvent(events[i])
    {
      var u :| IsUseCall(events[i].make, u);
      hide Sound, RecordSafety.Keeps, CallOf, Sane;
      forall held: Option<Server>, t ensures Sane(events[i].make(held, t)) {
        UseCallsAreSane(u, held, t);
      }
      forall held: Option<Server>, t | held.Some? ==> Sound(held.value, t)
        ensures RecordSafety.Keeps(Sound, events[i].make(held, t), t)
      {
        UseCallKeeps(u, held, t);
      }
    }
  }

  /**
   * In every reachable state of any number of interleaved reporters, submitters, probers,
   * renewals, cleaners and removals, every stored status is coherent and every advertised info valid.
   */
  lemma EveryStoredRecordIsSound(start: Nanos, events: seq<Event>, score: Rounding, a: Addr)
    requires UseRun(events)
    ensures var s := Run(Init(start), events, score);
            a in s.db.items ==> WellKept(s.db.items[a]) && Sound(s.db.items[a], s.clock)
  {
    hide WellKept, Run, UseRun, SaneEvent;
    UseRunIsRespectful(events);
    SoundIsLasting();
    RunHas(Sound, start, events, score);
  }

  /** A record is never stamped with a refresh later than the moment it was saved. */
  lemma HistoryIsTimely(start: Nanos, events: seq<Event>, score: Rounding)
    requires UseRun(events)
    ensures Timely(Run(Init(start), events, score).log)
  {
    hide WellKept, Run, UseRun, SaneEvent;
    UseRunIsRespectful(events);
    SoundIsLasting();
    RunHas(Sound, start, events, score);
  }

  /** A removal that a cleaner made with the record it had fetched. */
  ghost predicate CleanedInRun(log: seq<Entry>, j: nat, cutoff: Nanos) {
    && j < |log| && log[j].base.Some?
    && log[j].call == CallOf(Clean(cutoff), Some(log[j].base.value.svr), log[j].decidedAt)
  }

  lemma BaseIsAtAddress(log: seq<Entry>, j: nat)
    requires SerialLog(log) && j < |log| && log[j].base.Some?
    requires log[j].call.svr == log[j].base.value.svr
    ensures log[j].addr == log[j].base.value.svr.addr
  {
    assert Serial(log[j], Replay(log[..j]));
  }

  lemma CleanedFromBase(start: Nanos, events: seq<Event>, score: Rounding, j: nat, cutoff: Nanos)
    requires UseRun(events) && CleanedInRun(Run(Init(start), events, score).log, j, cutoff)
    ensures var log := Run(Init(start), events, score).log;
            && SerialLog(log)
            && CleanedFrom(log, j, log[j].base.value.svr, log[j].base.value.at, cutoff)
  {
    hide UseRun, SaneEvent, SerialLog, Run, Replay;
    UseRunIsRespectful(events);
    BaseIsGenuine(start, events, score, j);
    BaseIsAtAddress(Run(Init(start), events, score).log, j);
  }

  /**
   * The cleaner in a run of the whole system. The removal that a cleaner made with the record
   * selected by its filter - the record stored at that moment, saved before the cutoff - did not
   * delete a server refreshed after the cutoff, if the address lived on in between.
   */
  lemma CleanerIsSafe(start: Nanos, events: seq<Event>, score: Rounding, j: nat, cutoff: Nanos)
    requires UseRun(events)
    requires var log := Run(Init(start), events, score).log;
             && CleanedInRun(log, j, cutoff)
             && var at := log[j].base.value.at;
             && at <= j && Lives(log, at, j, log[j].addr)
             && log[j].addr in Stamps(log[..at]) && score(Stamps(log[..at])[log[j].addr]) < score(cutoff)
    ensures var e := Run(Init(start), events, score).log[j];
            e.before.Some? && e.after.None? && !Fresh(e.before.value, cutoff)
  {
    hide UseRun, SerialLog, Timely, Lives, Run, Stamps, Replay, CleanedFrom;
    var log := Run(Init(start), events, score).log;
    HistoryIsTimely(start, events, score);
    CleanedFromBase(start, events, score, j, cutoff);
    CleanerSparesFresh(log, j, log[j].base.value.svr, log[j].base.value.at, cutoff, score);
  }

  /**
   * Any removal by a cleaner in any run of the whole system, whatever it had fetched and whenever: it
   * deletes a fresh record only if that one's version is not greater than the fetched one's; and while
   * the address lives, exactly if it is the fetched one, which was fresh already when it was fetched.
   */
  lemma RunCleanerDeletesFreshIff(start: Nanos, events: seq<Event>, score: Rounding, j: nat, cutoff: Nanos)
    requires UseRun(events) && CleanedInRun(Run(Init(start), events, score).log, j, cutoff)
    ensures var log := Run(Init(start), events, score).log;
            var e, base := log[j], log[j].base.value;
            && e.before.Some? && e.after.None?
            && (Fresh(e.before.value, cutoff) ==> e.before.value.version <= base.svr.version)
            && (Lives(log, base.at, j, e.addr) ==>
                  (Fresh(e.before.value, cutoff) <==> e.before == Some(base.svr) && Fresh(base.svr, cutoff)))
  {
    hide UseRun, SerialLog, Run, Lives, CleanedFrom;
    var log := Run(Init(start), events, score).log;
    CleanedFromBase(start, events, score, j, cutoff);
    var base := log[j].base.value;
    CleanerDeletesFreshOnlyIf(log, j, base.svr, base.at, cutoff);
    if Lives(log, base.at, j, log[j].addr) {
      CleanerDeletesFreshIff(log, j, base.svr, base.at, cutoff);
    }
  }

  /**
   * So a cleaner whose filter selected the address at one moment and that fetched the record at a
   * later one deletes a fresh server, while the address lives, only if it was saved between the two.
   */
  lemma FreshDeletedWasSavedBetween(start: Nanos, events: seq<Event>, score: Rounding, j: nat, f: nat, cutoff: Nanos)
    requires UseRun(events) && CleanedInRun(Run(Init(start), events, score).log, j, cutoff)
    requires var log := Run(Init(start), events, score).log;
             var at := log[j].base.value.at;
             && f <= at <= j && Lives(log, at, j, log[j].addr)
             && log[j].addr in Stamps(log[..f])
             && score(Stamps(log[..f])[log[j].addr]) < score(cutoff)
    ensures var log := Run(Init(start), events, score).log;
            && log[j].before.Some?
            && (Fresh(log[j].before.value, cutoff) ==>
                  exists k :: f <= k < log[j].base.value.at && log[k].addr == log[j].addr)
  {
    hide UseRun, SerialLog, Run, Lives, Timely, Replay, Stamps;
    var log := Run(Init(start), events, score).log;
    CleanedFromBase(start, events, score, j, cutoff);
    HistoryIsTimely(start, events, score);
    RunCleanerDeletesFreshIff(start, events, score, j, cutoff);
    FreshFetchedWasSaved(log, f, log[j].base.value.at, log[j].addr, cutoff, score);
  }

  // ---- what the answers to removals say -----------------------------------------------------------

  /** At one moment of the call nothing was stored, or a newer record refreshed after the time given, if any. */
  ghost predicate NothingToRemove(log: seq<Entry>, k: Client, after: Option<Nanos>) {
    exists n :: k.entered <= n <= |log|
      && var stored := Lookup(Replay(log[..n]), k.Addr());
         stored.None?
         || (&& after.Some? && stored.value.version > k.call.svr.version
             && stored.value.refreshedAt.Some? && stored.value.refreshedAt.value > after.value)
  }

  /** The call has deleted a record that was not newer, or that was not refreshed after the time given, if any. */
  ghost predicate Deleted(log: seq<Entry>, k: Client, after: Option<Nanos>) {
    exists i :: k.entered <= i < |log| && log[i].id == k.id && log[i].after.None? && log[i].before.Some?
      && (log[i].before.value.version <= k.call.svr.version
          || after.None? || log[i].before.value.refreshedAt.None?
          || log[i].before.value.refreshedAt.value <= after.value)
  }

  /** The time after which a refreshed server is spared: the cleaner has one, a removal on request has none. */
  function SparedAfter(u: UseCall): Option<Nanos>
    requires u.Clean? || u.Discard?
  {
    match u
    case Clean(cutoff) => Some(cutoff)
    case Discard => None
  }

  /**
   * A cleaner's removal and a removal on request in any run: if the answer is that the server was
   * spared, nothing was stored at one moment of the call, or, for the cleaner, a newer record that was
   * refreshed after the cutoff; if it is that the server was removed, it was, and rightly. A removal on
   * request is never refused to a stored server, however new its record is.
   */
  lemma RemovalsMean(start: Nanos, events: seq<Event>, score: Rounding, c: nat, u: UseCall, held: Option<Server>,
                     at: Nanos)
    requires UseRun(events) && (u.Clean? || u.Discard?) && held.Some?
    requires var s := Run(Init(start), events, score);
             c in s.clients && s.clients[c].Answer().Some? && s.clients[c].call == CallOf(u, held, at)
    ensures var s := Run(Init(start), events, score);
            var k, o := s.clients[c], s.clients[c].Answer().value;
            && (o.Spared? || o.Removed? || o.Lost? || o.GaveUp?)
            && (o.Spared? ==> NothingToRemove(s.log, k, SparedAfter(u)))
            && (o.Removed? ==> Deleted(s.log, k, SparedAfter(u)))
  {
    hide UseRun, SaneEvent, Run, Replay, NothingToRemove, Deleted;
    UseRunIsRespectful(events);
    AnswersMean(start, events, score, c);
    var s := Run(Init(start), events, score);
    RemovalMeans(s.log, s.clients[c], s.clients[c].Answer().value, u, held, at);
  }

  lemma RemovalMeans(log: seq<Entry>, k: Client, o: Outcome, u: UseCall, held: Option<Server>, at: Nanos)
    requires (u.Clean? || u.Discard?) && held.Some? && k.call == CallOf(u, held, at)
    requires o.Lost? || o.GaveUp? || RightAtOneMoment(log, k, o) || RightlyWritten(log, k, o)
    ensures o.Spared? || o.Removed? || o.Lost? || o.GaveUp?
    ensures o.Spared? ==> NothingToRemove(log, k, SparedAfter(u))
    ensures o.Removed? ==> Deleted(log, k, SparedAfter(u))
  {
    hide Replay;
    assert k.call.kind.Remove?;
    if RightAtOneMoment(log, k, o) {
      var n: nat, t :| k.entered <= n <= |log| && RightFor(k, o, Lookup(Replay(log[..n]), k.Addr()), t);
      assert o.Spared?;
    } else if RightlyWritten(log, k, o) {
      var i: nat :| k.entered <= i < |log| && RightWrite(k, o, log[i]);
      assert o.Removed?;
    }
  }
}
