/**
 * The lock as a client runs it: SETNX, WATCH, an ownership check, the operation and a deferred
 * release, inside a retry loop, with anything that others do in between any two commands.
 */
module Guard {
  import opened Entities
  import opened Store
  import opened LockProtocol
  import opened LockSafety
  import opened Serializability

  lemma {:induction false} RunsCompose(s: System, a: seq<Event>, b: seq<Event>, score: Rounding)
    ensures Run(s, a + b, score) == Run(Run(s, a, score), b, score)
    decreases |b|
  {
    hide Step;
    if b == [] {
      assert a + b == a;
    } else {
      RunsCompose(s, a, b[..|b| - 1], score);
      assert (a + b)[..|a + b| - 1] == a + b[..|b| - 1];
    }
  }

  /** The event is not a move of client `c`. */
  predicate Elsewhere(e: Event, c: nat) {
    match e
    case Fetch(d, _) => d != c
    case Begin(d, _) => d != c
    case Move(d) => d != c
    case _ => true
  }

  /** Others can flag a client's connection, and nothing else about it. */
  ghost predicate SameClient(k: Client, l: Client) {
    l == k.(dirty := l.dirty)
  }

  lemma OtherStep(s: System, e: Event, c: nat, score: Rounding)
    requires Elsewhere(e, c)
    ensures SameClient(ClientOf(s, c), ClientOf(Step(s, e, score), c))
  {
    hide Decide, Commit, Lookup, Conclude, Judge, Branch;
  }

  lemma {:induction false} OthersRun(s: System, events: seq<Event>, c: nat, score: Rounding)
    requires forall i :: 0 <= i < |events| ==> Elsewhere(events[i], c)
    ensures SameClient(ClientOf(s, c), ClientOf(Run(s, events, score), c))
    decreases |events|
  {
    hide Step, Elsewhere, ClientOf;
    if events != [] {
      OthersRun(s, events[..|events| - 1], c, score);
      OtherStep(Run(s, events[..|events| - 1], score), events[|events| - 1], c, score);
    }
  }

  lemma {:induction false} LogGrows(s: System, events: seq<Event>, score: Rounding)
    ensures |s.log| <= |Run(s, events, score).log|
    decreases |events|
  {
    hide Step;
    if events != [] {
      LogGrows(s, events[..|events| - 1], score);
      StepLogs(Run(s, events[..|events| - 1], score), events[|events| - 1], score);
    }
  }

  lemma StepLogs(s: System, e: Event, score: Rounding)
    ensures |s.log| <= |Step(s, e, score).log|
  {
    hide Decide, Commit, Lookup;
  }

  datatype Owner = Mine | Foreign | Nobody

  /** The call in progress is the same, and so is what it started from. */
  ghost predicate SameCallAs(k: Client, l: Client) {
    l.id == k.id && l.call == k.call && l.base == k.base && l.entered == k.entered
  }

  class Session {
    var sys: System
    var turn: nat
    ghost var trace: seq<Event>
    const c: nat
    const score: Rounding
    const others: nat -> seq<Event>
    ghost const start: Nanos

    /** The system is where a sane run has brought it. */
    ghost predicate Valid()
      reads this
    {
      && sys == Run(Init(start), trace, score) && SaneRun(trace)
      && forall n, i :: 0 <= i < |others(n)| ==> Elsewhere(others(n)[i], c) && SaneEvent(others(n)[i])
    }

    function Me(): Client
      reads this
    {
      ClientOf(sys, c)
    }

    constructor (start: Nanos, c: nat, score: Rounding, others: nat -> seq<Event>)
      requires forall n, i :: 0 <= i < |others(n)| ==> Elsewhere(others(n)[i], c) && SaneEvent(others(n)[i])
      ensures Valid() && Me().pc.Idle?
      ensures this.start == start && this.c == c && this.score == score && this.others == others
    {
      this.start, this.c, this.score, this.others := start, c, score, others;
      sys, turn, trace := Init(start), 0, [];
    }

    /** Whatever the others do before the next command. */
    method Yield()
      requires Valid()
      modifies this
      ensures Valid() && SameClient(old(Me()), Me()) && old(trace) <= trace
      ensures |old(sys.log)| <= |sys.log|
    {
      hide Run, Init;
      LogGrows(sys, others(turn), score);
      RunsCompose(Init(start), trace, others(turn), score);
      OthersRun(sys, others(turn), c, score);
      sys := Run(sys, others(turn), score);
      trace := trace + others(turn);
      turn := turn + 1;
    }

    /** Notes that the client's own next command has been carried out. */
    ghost method Note(e: Event, before: System)
      requires before == Run(Init(start), trace, score) && SaneRun(trace) && SaneEvent(e)
      requires forall n, i :: 0 <= i < |others(n)| ==> Elsewhere(others(n)[i], c) && SaneEvent(others(n)[i])
      requires sys == Step(before, e, score)
      modifies this`trace
      ensures Valid() && trace == old(trace) + [e]
    {
      hide Step, Init, SaneEvent;
      assert (trace + [e])[..|trace|] == trace;
      trace := trace + [e];
    }

    /** SET key token NX. */
    method SetNx() returns (acquired: bool)
      requires Valid() && Me().pc.Knocking? && Me().attempts > 0
      modifies this
      ensures Valid() && SameCallAs(old(Me()), Me()) && old(trace) <= trace && Me().attempts == old(Me()).attempts - 1
      ensures if acquired then Me().pc.Acquired? else Me().pc.Knocking?
    {
      hide Run, Init, SaneRun, Step;
      Yield();
      ghost var before := sys;
      var k := Me();
      if k.Addr() in sys.locks {
        QuietStepIs(sys, c, score);
        sys := With(sys, c, k.(attempts := k.attempts - 1)).(steps := sys.steps + 1);
        acquired := false;
      } else {
        LockStepIs(sys, c, score);
        sys := Lock(sys, c).(steps := sys.steps + 1);
        acquired := true;
      }
      Note(Move(c), before);
    }

    /** WATCH key. */
    method WatchKey()
      requires Valid() && Me().pc.Acquired?
      modifies this
      ensures Valid() && SameCallAs(old(Me()), Me()) && old(trace) <= trace && Me().attempts == old(Me()).attempts
      ensures Me().pc.Watching?
    {
      hide Run, Init, SaneRun, Step;
      Yield();
      ghost var before := sys;
      QuietStepIs(sys, c, score);
      sys := With(sys, c, Me().(pc := Watching(Me().pc.token), dirty := false)).(steps := sys.steps + 1);
      Note(Move(c), before);
    }

    /** GET key, compared with the token: a missing key is an error of its own. */
    method CheckOwner() returns (owner: Owner)
      requires Valid() && Me().pc.Watching?
      modifies this
      ensures Valid() && SameCallAs(old(Me()), Me()) && old(trace) <= trace && Me().attempts == old(Me()).attempts
      ensures match owner
              case Mine => Me().pc.Owning?
              case Foreign => Me().pc.Checking? && Me().pc.verdict == Again
              case Nobody => Me().pc.Checking? && Me().pc.verdict == Settled(Lost)
    {
      hide Run, Init, SaneRun, Step;
      Yield();
      ghost var before := sys;
      QuietStepIs(sys, c, score);
      var k := Me();
      var l;
      if k.Addr() !in sys.locks {
        owner := Nobody;
        l := k.(pc := Checking(k.pc.token, Settled(Lost)));
      } else if sys.locks[k.Addr()] != k.pc.token {
        owner := Foreign;
        l := k.(pc := Checking(k.pc.token, Again));
      } else {
        owner := Mine;
        l := k.(pc := Owning(k.pc.token, sys.steps));
      }
      sys := With(sys, c, l).(steps := sys.steps + 1);
      Note(Move(c), before);
    }

    /** HGET of the record. */
    method ReadRecord() returns (existing: Option<Server>)
      requires Valid() && Me().pc.Owning?
      modifies this
      ensures Valid() && SameCallAs(old(Me()), Me()) && old(trace) <= trace && Me().attempts == old(Me()).attempts
      ensures Me().pc.Deciding? && Me().pc.seen.svr == existing
    {
      hide Run, Init, SaneRun, Step;
      Yield();
      ghost var before := sys;
      QuietStepIs(sys, c, score);
      var k := Me();
      existing := Lookup(sys.db.items, k.Addr());
      var l := k.(pc := Deciding(k.pc.token, k.pc.since, Sight(existing, |sys.log|)));
      sys := With(sys, c, l).(steps := sys.steps + 1);
      Note(Move(c), before);
    }

    /** The branch on what was read, with the conflict callback where there is one. */
    method PickBranch(existing: Option<Server>) returns (decision: Decision)
      requires Valid() && Me().pc.Deciding? && Me().pc.seen.svr == existing
      modifies this
      ensures Valid() && SameCallAs(old(Me()), Me()) && old(trace) <= trace && Me().attempts == old(Me()).attempts
      ensures if decision.Answer? then Me().pc.Checking? && Me().pc.verdict == Settled(decision.outcome)
              else Me().pc.Stamping? && decision == Decide(Me().call, Me().pc.seen.svr, Me().pc.decidedAt)
    {
      hide Run, Init, SaneRun, Step, Decide;
      Yield();
      ghost var before := sys;
      QuietStepIs(sys, c, score);
      decision := Decide(Me().call, existing, sys.clock);
      sys := With(sys, c, Branch(Me(), sys.clock)).(steps := sys.steps + 1);
      Note(Move(c), before);
    }

    /** The clock reading that becomes the score of the update. */
    method ReadClock(ghost decision: Decision)
      requires Valid() && Me().pc.Stamping? && decision == Decide(Me().call, Me().pc.seen.svr, Me().pc.decidedAt)
      modifies this
      ensures Valid() && SameCallAs(old(Me()), Me()) && old(trace) <= trace && Me().attempts == old(Me()).attempts
      ensures Me().pc.Ready? && decision == Decide(Me().call, Me().pc.seen.svr, Me().pc.decidedAt)
    {
      hide Run, Init, SaneRun, Step, Decide;
      Yield();
      ghost var before := sys;
      QuietStepIs(sys, c, score);
      var k := Me();
      var l := k.(pc := Ready(k.pc.token, k.pc.since, k.pc.seen, k.pc.decidedAt, sys.clock));
      sys := With(sys, c, l).(steps := sys.steps + 1);
      Note(Move(c), before);
    }

    /** EXEC, which Redis refuses when the watched key has been touched. */
    method ExecTransaction(decision: Decision) returns (committed: bool)
      requires Valid() && Me().pc.Ready? && decision == Decide(Me().call, Me().pc.seen.svr, Me().pc.decidedAt)
      modifies this
      ensures Valid() && SameCallAs(old(Me()), Me()) && old(trace) <= trace && Me().attempts == old(Me()).attempts
      ensures Me().pc.Checking? && Me().pc.verdict == if committed then Settled(OutcomeOf(decision)) else Again
    {
      hide Run, Init, SaneRun, Step, Decide, Commit;
      Yield();
      ghost var before := sys;
      var k := Me();
      if k.dirty {
        QuietStepIs(sys, c, score);
        sys := With(sys, c, k.(pc := Checking(k.pc.token, Again))).(steps := sys.steps + 1);
        committed := false;
      } else {
        StepIsExec(sys, c, score);
        sys := Exec(sys, c, score).(steps := sys.steps + 1);
        committed := true;
      }
      Note(Move(c), before);
    }

    /** The operation inside the guard. */
    method Operate() returns (v: Verdict)
      requires Valid() && Me().pc.Owning?
      modifies this
      ensures Valid() && SameCallAs(old(Me()), Me()) && old(trace) <= trace && Me().attempts == old(Me()).attempts
      ensures Me().pc.Checking? && Me().pc.verdict == v
    {
      hide Run, Init, SaneRun, Decide, ClientOf;
      var existing := ReadRecord();
      var decision := PickBranch(existing);
      if decision.Answer? {
        return Settled(decision.outcome);
      }
      ReadClock(decision);
      var committed := ExecTransaction(decision);
      return if committed then Settled(OutcomeOf(decision)) else Again;
    }

    /** GET key and, if it still holds the token, DEL key: two commands. */
    method Release(ghost v: Verdict)
      requires Valid() && Me().pc.Checking? && Me().pc.verdict == v
      modifies this
      ensures Valid() && SameCallAs(old(Me()), Me()) && old(trace) <= trace && Me().attempts == old(Me()).attempts
      ensures match v
              case Again => Me().pc.Knocking?
              case Settled(o) => Me().pc.Idle? && Me().last == Some(o)
    {
      hide Run, Init, SaneRun, Step;
      Yield();
      ghost var before := sys;
      QuietStepIs(sys, c, score);
      var k := Me();
      if k.Addr() in sys.locks && sys.locks[k.Addr()] == k.pc.token {
        sys := With(sys, c, k.(pc := Deleting(k.pc.token, k.pc.verdict))).(steps := sys.steps + 1);
        Note(Move(c), before);
        DeleteKey(v);
      } else {
        sys := With(sys, c, Conclude(k, k.pc.verdict)).(steps := sys.steps + 1);
        Note(Move(c), before);
      }
    }

    method DeleteKey(ghost v: Verdict)
      requires Valid() && Me().pc.Deleting? && Me().pc.verdict == v
      modifies this
      ensures Valid() && SameCallAs(old(Me()), Me()) && old(trace) <= trace && Me().attempts == old(Me()).attempts
      ensures match v
              case Again => Me().pc.Knocking?
              case Settled(o) => Me().pc.Idle? && Me().last == Some(o)
    {
      hide Run, Init, SaneRun, Step;
      Yield();
      ghost var before := sys;
      DeleteStepIs(sys, c, score);
      var k := Me();
      sys := With(Unlock(sys, k.Addr()), c, Conclude(k, k.pc.verdict)).(steps := sys.steps + 1);
      Note(Move(c), before);
    }

    /** One attempt: the lock, the operation while the key is watched, and the deferred release. */
    method Guarded() returns (v: Verdict)
      requires Valid() && Me().pc.Knocking? && Me().attempts > 0
      modifies this
      ensures Valid() && SameCallAs(old(Me()), Me()) && old(trace) <= trace && Me().attempts == old(Me()).attempts - 1
      ensures match v
              case Again => Me().pc.Knocking?
              case Settled(o) => Me().pc.Idle? && Me().last == Some(o)
    {
      hide Run, Init, SaneRun, ClientOf;
      var acquired := SetNx();
      if !acquired {
        return Again;
      }
      WatchKey();
      var owner := CheckOwner();
      match owner {
        case Nobody => v := Settled(Lost);
        case Foreign => v := Again;
        case Mine => v := Operate();
      }
      Release(v);
    }

    /** The retry loop: only a lock that was not obtained, or lost, is tried again. */
    method UpdateExclusive() returns (outcome: Outcome)
      requires Valid() && Me().pc.Knocking?
      modifies this
      ensures Valid() && SameCallAs(old(Me()), Me()) && old(trace) <= trace
      ensures Me().pc.Idle? && Me().last == Some(outcome)
    {
      hide Run, Init, SaneRun, Step, ClientOf;
      while Me().attempts > 0
        invariant Valid() && SameCallAs(old(Me()), Me()) && old(trace) <= trace && Me().pc.Knocking?
        decreases Me().attempts
      {
        var v := Guarded();
        if v.Settled? {
          return v.outcome;
        }
      }
      GiveUp();
      return GaveUp;
    }

    method GiveUp()
      requires Valid() && Me().pc.Knocking? && Me().attempts == 0
      modifies this
      ensures Valid() && SameCallAs(old(Me()), Me()) && old(trace) <= trace
      ensures Me().pc.Idle? && Me().last == Some(GaveUp)
    {
      hide Run, Init, SaneRun, Step;
      Yield();
      ghost var before := sys;
      QuietStepIs(sys, c, score);
      sys := With(sys, c, Conclude(Me(), Settled(GaveUp))).(steps := sys.steps + 1);
      Note(Move(c), before);
    }

    /** The call is made from what the client holds. */
    method BeginCall(make: Maker)
      requires Valid() && Me().pc.Idle? && SaneEvent(Begin(c, make))
      modifies this
      ensures Valid() && old(trace) <= trace
      ensures Me().pc.Knocking? && Me().attempts == MAX_ATTEMPTS && Me().entered >= |old(sys.log)|
    {
      hide Run, Init, SaneRun, SaneEvent;
      Yield();
      ghost var before := sys;
      sys := Enter(sys, c, make).(steps := sys.steps + 1);
      Note(Begin(c, make), before);
    }

    /**
     * A whole call, whatever the others do meanwhile: its answer is that of the sequential call
     * at one moment between its beginning and its end, and it is in the history once if it wrote
     * and not at all if it did not.
     */
    method Perform(make: Maker) returns (outcome: Outcome)
      requires Valid() && Me().pc.Idle? && SaneEvent(Begin(c, make))
      modifies this
      ensures Valid() && old(trace) <= trace
      ensures Me().pc.Idle? && Me().Answer() == Some(outcome)
      ensures Me().entered >= |old(sys.log)| && Linearized(sys.log, Me())
    {
      hide Run, Init, SaneRun, Step, SaneEvent, Linearized, Decide, ClientOf;
      BeginCall(make);
      outcome := UpdateExclusive();
      Settles(sys, c, outcome);
      CallsLinearize(start, trace, score, c);
    }
  }

  lemma Settles(s: System, c: nat, o: Outcome)
    requires ClientOf(s, c).pc.Idle? && ClientOf(s, c).last == Some(o)
    ensures c in s.clients && s.clients[c] == ClientOf(s, c) && ClientOf(s, c).Answer() == Some(o)
  {
  }
}
