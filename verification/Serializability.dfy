/** What the lock protocol guarantees, for every run of any number of clients. */
module Serializability {
  import opened Entities
  import opened Store
  import opened LockProtocol
  import opened LockSafety

  ghost predicate SaneRun(events: seq<Event>) {
    forall i :: 0 <= i < |events| ==> SaneEvent(events[i])
  }

  /**
   * The store is always what its commits produce one after the other: each of them made the
   * choice of the sequential call on the record its predecessors left, and no call committed twice.
   */
  lemma CommitsSerialize(start: Nanos, events: seq<Event>, score: Rounding)
    requires SaneRun(events)
    ensures var s := Run(Init(start), events, score);
            Replay(s.log) == s.db.items && SerialLog(s.log) && OncePerCall(s.log)
  {
    hide Inv, Run;
    RunKeeps(start, events, score);
    InvIsSerial(Run(Init(start), events, score), score);
  }

  lemma InvIsSerial(s: System, score: Rounding)
    requires Inv(s, score)
    ensures Replay(s.log) == s.db.items && SerialLog(s.log) && OncePerCall(s.log) && Exclusive(s.log)
    ensures Consistent(s.db, score) && StampOk(s, score)
  {
    hide ClientOk, Apart, SerialLog, OncePerCall, Exclusive, Consistent, StampOk;
  }

  /** From ownership check to EXEC, committed calls on one address never overlap. */
  lemma IntervalsDoNotOverlap(start: Nanos, events: seq<Event>, score: Rounding, i: nat, j: nat)
    requires SaneRun(events)
    requires i < j < |Run(Init(start), events, score).log|
    requires Run(Init(start), events, score).log[i].addr == Run(Init(start), events, score).log[j].addr
    ensures var log := Run(Init(start), events, score).log;
            log[i].since < log[i].at < log[j].since < log[j].at
  {
    hide Inv, Run;
    RunKeeps(start, events, score);
    InvIsSerial(Run(Init(start), events, score), score);
  }

  /** After every step of every run the three kinds of index agree with the records. */
  lemma IndicesAgree(start: Nanos, events: seq<Event>, score: Rounding)
    requires SaneRun(events)
    ensures Consistent(Run(Init(start), events, score).db, score)
  {
    hide Inv, Run, Consistent;
    RunKeeps(start, events, score);
    InvIsSerial(Run(Init(start), events, score), score);
  }

  /** Every settled call took effect at one commit of its own, or answered from one moment of its own duration. */
  lemma CallsLinearize(start: Nanos, events: seq<Event>, score: Rounding, c: nat)
    requires SaneRun(events)
    ensures var s := Run(Init(start), events, score); c in s.clients ==> Linearized(s.log, s.clients[c])
  {
    hide Inv, Run, Linearized;
    RunKeeps(start, events, score);
    if c in Run(Init(start), events, score).clients {
      InvLinearizes(Run(Init(start), events, score), c, score);
    }
  }

  /** The callback of the call, asked about a stored record. */
  function Asked(k: Client, stored: Server, t: Nanos): Option<Server> {
    k.call.resolve(stored, t)
  }

  predicate Newer(stored: Server, k: Client) {
    stored.version > k.call.svr.version
  }

  /** An answer without a write that is right for this stored record. */
  predicate RightFor(k: Client, o: Outcome, stored: Option<Server>, t: Nanos) {
    match o
    case NotFound => k.call.kind.Update? && stored.None?
    case Kept(svr) => k.call.kind.Update? && stored == Some(svr) && Newer(svr, k) && Asked(k, svr, t).None?
    case Exists => k.call.kind.Add? && stored.Some? && Asked(k, stored.value, t).None?
    case Spared =>
      k.call.kind.Remove? && (stored.Some? ==> Newer(stored.value, k) && Asked(k, stored.value, t).None?)
    case _ => false
  }

  /** The entry is the write of this call, and of the right record. */
  ghost predicate RightWrite(k: Client, o: Outcome, e: Entry) {
    && e.id == k.id && e.call == k.call
    && match o
       case Removed =>
         && k.call.kind.Remove? && e.before.Some? && e.after.None?
         && (Newer(e.before.value, k) ==> Asked(k, e.before.value, e.decidedAt).Some?)
       case Saved(svr) =>
         && e.after == Some(svr)
         && if e.before.None? then k.call.kind.Add? && svr == k.call.svr.Bumped()
            else if k.call.kind.Update? && !Newer(e.before.value, k) then svr == k.call.svr.Bumped()
            else !k.call.kind.Remove? && Asked(k, e.before.value, e.decidedAt).Some?
                 && svr == Asked(k, e.before.value, e.decidedAt).value.Bumped()
       case _ => false
  }

  ghost predicate RightAtOneMoment(log: seq<Entry>, k: Client, o: Outcome) {
    exists n, t :: k.entered <= n <= |log| && RightFor(k, o, Lookup(Replay(log[..n]), k.Addr()), t)
  }

  ghost predicate RightlyWritten(log: seq<Entry>, k: Client, o: Outcome) {
    exists i :: k.entered <= i < |log| && RightWrite(k, o, log[i])
  }

  /**
   * What the answers say, in every run. A call that got hold of the lock has written, and then its
   * own record over one that is not newer or over nothing, or what its callback made of the stored
   * one; or it answers without a write what was right at one moment of its duration. So a removal
   * answers that it spared the server only if nothing was stored, or a newer record that its
   * callback refused to give up.
   */
  lemma AnswersMean(start: Nanos, events: seq<Event>, score: Rounding, c: nat)
    requires SaneRun(events)
    requires var s := Run(Init(start), events, score); c in s.clients && s.clients[c].Answer().Some?
    ensures var s := Run(Init(start), events, score);
            var k, o := s.clients[c], s.clients[c].Answer().value;
            o.Lost? || o.GaveUp? || RightAtOneMoment(s.log, k, o) || RightlyWritten(s.log, k, o)
  {
    hide Run, SaneRun, Replay, Linearized, SerialLog, RightAtOneMoment, RightlyWritten;
    CallsLinearize(start, events, score, c);
    CommitsSerialize(start, events, score);
    AnswerMeans(Run(Init(start), events, score).log, Run(Init(start), events, score).clients[c]);
  }

  lemma AnswerMeans(log: seq<Entry>, k: Client)
    requires Linearized(log, k) && k.Answer().Some? && SerialLog(log)
    ensures var o := k.Answer().value;
            o.Lost? || o.GaveUp? || RightAtOneMoment(log, k, o) || RightlyWritten(log, k, o)
  {
    hide Replay;
    var o := k.Answer().value;
    if o.Commits() {
      var i: nat :| LoggedAt(log, k, o, i);
      assert Serial(log[i], Replay(log[..i]));
      assert RightWrite(k, o, log[i]);
    } else if !o.Lost? && !o.GaveUp? {
      var n: nat, t :| ReadAt(log, k, o, n, t);
      assert RightFor(k, o, Lookup(Replay(log[..n]), k.Addr()), t);
    }
  }

  lemma InvLinearizes(s: System, c: nat, score: Rounding)
    requires Inv(s, score) && c in s.clients
    ensures Linearized(s.log, s.clients[c])
  {
    hide LockOk, SightOk, Linearized, Consistent, SerialLog, Exclusive, OncePerCall;
    assert ClientOk(s, s.clients[c]);
  }

  /**
   * One step of the protocol is invisible in the map from address to record, or it is the
   * whole effect of one call, taken on the record that is stored at that moment.
   */
  lemma StepRefines(s: System, e: Event, score: Rounding)
    requires Inv(s, score)
    ensures var t := Step(s, e, score);
            || (t.db == s.db && t.log == s.log)
            || (&& e.Move? && ClientOf(s, e.c).pc.Ready? && !ClientOf(s, e.c).dirty
                && var k := ClientOf(s, e.c);
                   var d := Decide(k.call, Lookup(s.db.items, k.Addr()), k.pc.decidedAt);
                && !d.Answer?
                && t.db.items == Assign(s.db.items, k.Addr(), After(d, Lookup(s.db.items, k.Addr())))
                && t.log == s.log + [NewEntry(s, e.c)])
  {
    if e.Move? && ClientOf(s, e.c).pc.Ready? && !ClientOf(s, e.c).dirty {
      hide Inv, Decide, Exec, Consistent;
      ExecIsSerial(s, e.c, score);
      StepIsExec(s, e.c, score);
      ExecLogs(s, e.c, score);
    } else {
      hide Inv, Decide, Exec;
      StepIsSilent(s, e, score);
    }
  }

  lemma ExecLogs(s: System, c: nat, score: Rounding)
    requires ClientOf(s, c).pc.Ready?
    ensures Exec(s, c, score).log == s.log + [NewEntry(s, c)]
  {
  }

  lemma StepIsSilent(s: System, e: Event, score: Rounding)
    requires !(e.Move? && ClientOf(s, e.c).pc.Ready? && !ClientOf(s, e.c).dirty)
    ensures Step(s, e, score).db == s.db && Step(s, e, score).log == s.log
  {
    hide Decide, Exec;
  }

  /** Two clients never both have a clean ownership check for the same address. */
  lemma MutualExclusion(s: System, c: nat, d: nat, score: Rounding)
    requires Inv(s, score) && c in s.clients && d in s.clients
    requires s.clients[c].pc.Owns() && !s.clients[c].dirty && s.clients[d].pc.Owns() && !s.clients[d].dirty
    requires s.clients[c].Addr() == s.clients[d].Addr()
    ensures c == d
  {
    if c != d {
      hide Inv;
      OthersAreDirty(s, c, d, score);
      assert false;
    }
  }

  // ---- what the release does not guarantee -------------------------------------------

  const IDLE_CALL: Call := FRESH.call
  const KEY: Addr := NOBODY.addr

  /** A run in which the DEL of client 0's release removes the lock of client 1. */
  function ForeignRelease(): seq<Event> {
    var make: Maker := (held, t) => IDLE_CALL;
    [Begin(0, make), Move(0), Move(0), Move(0), Move(0), Move(0), Move(0), Expire(KEY), Begin(1, make), Move(1),
      Move(0)]
  }

  function Snapshot(locks: map<Addr, nat>, tokens: nat, calls: nat, steps: nat, clients: map<nat, Client>): System {
    System(EMPTY_DB, locks, 0, tokens, calls, steps, clients, [])
  }

  function Caller(id: nat, attempts: nat, pc: Pc): Client {
    FRESH.(id := id, call := IDLE_CALL, attempts := attempts, pc := pc)
  }

  /** The states of that run, from the start on. */
  function Stage(n: nat): System
    requires n <= 11
  {
    var done := Settled(Spared);
    var deleting := Caller(0, 4, Deleting(0, done));
    if n == 0 then Snapshot(map[], 0, 0, 0, map[])
    else if n == 1 then Snapshot(map[], 0, 1, 1, map[0 := Caller(0, 5, Knocking)])
    else if n == 2 then Snapshot(map[KEY := 0], 1, 1, 2, map[0 := Caller(0, 4, Acquired(0))])
    else if n == 3 then Snapshot(map[KEY := 0], 1, 1, 3, map[0 := Caller(0, 4, Watching(0))])
    else if n == 4 then Snapshot(map[KEY := 0], 1, 1, 4, map[0 := Caller(0, 4, Owning(0, 3))])
    else if n == 5 then Snapshot(map[KEY := 0], 1, 1, 5, map[0 := Caller(0, 4, Deciding(0, 3, Sight(None, 0)))])
    else if n == 6 then Snapshot(map[KEY := 0], 1, 1, 6, map[0 := Caller(0, 4, Checking(0, done))])
    else if n == 7 then Snapshot(map[KEY := 0], 1, 1, 7, map[0 := deleting])
    else if n == 8 then Snapshot(map[], 1, 1, 8, map[0 := deleting])
    else if n == 9 then Snapshot(map[], 1, 2, 9, map[0 := deleting, 1 := Caller(1, 5, Knocking)])
    else if n == 10 then Snapshot(map[KEY := 1], 2, 2, 10, map[0 := deleting, 1 := Caller(1, 4, Acquired(1))])
    else Snapshot(map[], 2, 2, 11,
                  map[0 := Caller(0, 4, Idle).(last := Some(Spared)), 1 := Caller(1, 4, Acquired(1))])
  }

  lemma StageStepsLock(score: Rounding)
    ensures forall n :: 0 <= n < 4 ==> Step(Stage(n), ForeignRelease()[n], score) == Stage(n + 1)
  {
    hide Exec;
    assert Step(Stage(1), Move(0), score).clients == Stage(2).clients;
  }

  lemma StageStepsRead(score: Rounding)
    ensures Step(Stage(4), ForeignRelease()[4], score) == Stage(5)
  {
    hide Exec;
  }

  lemma StageStepsDecide(score: Rounding)
    ensures Step(Stage(5), ForeignRelease()[5], score) == Stage(6)
    ensures Step(Stage(6), ForeignRelease()[6], score) == Stage(7)
  {
    hide Exec;
  }

  lemma StageStepsRelease(score: Rounding)
    ensures forall n :: 7 <= n < 9 ==> Step(Stage(n), ForeignRelease()[n], score) == Stage(n + 1)
  {
    hide Exec;
    assert Step(Stage(7), Expire(KEY), score).clients == Stage(8).clients;
    assert Step(Stage(7), Expire(KEY), score).locks == Stage(8).locks;
  }

  lemma StageStepsRelock(score: Rounding)
    ensures Step(Stage(9), ForeignRelease()[9], score) == Stage(10)
  {
    hide Exec;
    assert Step(Stage(9), Move(1), score).clients == Stage(10).clients;
  }

  lemma StageStepsForeign(score: Rounding)
    ensures Step(Stage(10), ForeignRelease()[10], score) == Stage(11)
  {
    hide Exec;
    assert Step(Stage(10), Move(0), score).clients == Stage(11).clients;
    assert Step(Stage(10), Move(0), score).locks == Stage(11).locks;
  }

  lemma StageSteps(n: nat, score: Rounding)
    requires n < 11
    ensures Step(Stage(n), ForeignRelease()[n], score) == Stage(n + 1)
  {
    hide Step, Stage, ForeignRelease;
    StageStepsLock(score);
    StageStepsRead(score);
    StageStepsDecide(score);
    StageStepsRelease(score);
    StageStepsRelock(score);
    StageStepsForeign(score);
  }

  lemma StagesBegin()
    ensures Stage(0) == Init(0)
  {
  }

  lemma {:induction false} StagesRun(n: nat, score: Rounding)
    requires n <= 11
    ensures Run(Init(0), ForeignRelease()[..n], score) == Stage(n)
  {
    hide Step, Stage, Init;
    if n == 0 {
      StagesBegin();
    } else {
      StagesRun(n - 1, score);
      StageSteps(n - 1, score);
      assert ForeignRelease()[..n][..n - 1] == ForeignRelease()[..n - 1];
    }
  }

  lemma ForeignReleaseIsSane()
    ensures SaneRun(ForeignRelease()) && |ForeignRelease()| == 11
  {
  }

  lemma LastStages()
    ensures Stage(10).locks == map[KEY := 1] && ClientOf(Stage(10), 1).pc == Acquired(1)
    ensures Stage(11).locks == map[] && ClientOf(Stage(11), 1).pc == Acquired(1)
  {
  }

  /** Release checks the token and deletes the key in two commands, so it can delete a lock it does not own. */
  lemma ReleaseCanRemoveForeignLock(score: Rounding)
    ensures SaneRun(ForeignRelease()) && |ForeignRelease()| == 11
    ensures var before := Run(Init(0), ForeignRelease()[..10], score);
            var after := Run(Init(0), ForeignRelease(), score);
            && before.locks == map[KEY := 1] && ClientOf(before, 1).pc == Acquired(1)
            && after.locks == map[] && ClientOf(after, 1).pc == Acquired(1)
  {
    hide Run, Step, Stage, ForeignRelease, SaneRun, ClientOf, Init;
    ForeignReleaseIsSane();
    LastStages();
    StagesRun(10, score);
    StagesRun(11, score);
    assert ForeignRelease()[..11] == ForeignRelease();
  }
}
